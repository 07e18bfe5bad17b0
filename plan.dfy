/**
 * Tasks, the plan parser of the `generatePlan` service and the rendering of the
 * completed-task log that every collaborator receives as context.
 */
module Plan {
  import opened Wrappers
  import opened JsString

  /** A task: `result` is absent until the task has been executed. */
  datatype Task = Task(id: string, description: string, result: Option<string>)

  /** Replacing every "." leaves none. */
  lemma ReplaceDots(s: string)
    ensures '.' !in Replace(s, '.', ',')
  {
    var r := Replace(s, '.', ',');
    forall i | 0 <= i < |r| ensures r[i] != '.' {
    }
  }

  /** What follows the id of a line, once the remaining pieces are joined with ",". */
  lemma LineTail(line: string)
    ensures var parts := Split(line, ".");
      '.' !in Join(parts[1..], ",") &&
      (|parts[0]| == |line| ==> Join(parts[1..], ",") == []) &&
      (|parts[0]| < |line| ==> Join(parts[1..], ",") == Replace(line[|parts[0]| + 1..], '.', ','))
  {
    var parts := Split(line, ".");
    SplitCharHead(line, '.');
    if |parts[0]| < |line| {
      SplitCharJoin(line, '.', ',', |parts[0]| + 1);
      ReplaceDots(line[|parts[0]| + 1..]);
    }
  }

  /**
   * The description cleanup: trim, then erase "," and then '"'. Exactly the characters
   * of the trimmed text other than those two remain, and text that is already trimmed
   * and free of both comes back unchanged. The clauses on "." and on empty text are
   * corollaries of the first, stated for the callers that use them.
   */
  function Cleanup(joined: string): (d: string)
    ensures forall x :: x in d <==> x in Trim(joined) && x != ',' && x != '"'
    ensures ',' !in d && '"' !in d
    ensures '.' !in joined ==> '.' !in d
    ensures joined == [] ==> d == []
    ensures Trim(joined) == joined && ',' !in joined && '"' !in joined ==> d == joined
  {
    var cleaned := Trim(joined);
    assert forall c :: c in cleaned ==> c in joined;
    Erase(Erase(cleaned, ','), '"')
  }

  /**
   * One plan line: `id` is `parts[0]` of `line.split(".")`, and the description is
   * `parts.slice(1).join()` (joined with ","), trimmed, with every "," and then
   * every double quote removed.
   */
  function ParseLine(line: string): (t: Task)
    ensures t.result == None && '.' !in t.id
    ensures '.' !in t.description && ',' !in t.description && '"' !in t.description
  {
    var parts := Split(line, ".");
    SplitCharHead(line, '.');
    LineTail(line);
    Task(parts[0], Cleanup(Join(parts[1..], ",")), None)
  }

  /**
   * The id is the longest prefix of the line without a "."; the description is the
   * cleanup of everything after that first ".", with the later dots read as ",".
   */
  lemma ParseLineParts(line: string)
    ensures var t := ParseLine(line);
      && |t.id| <= |line| && line[..|t.id|] == t.id
      && (|t.id| == |line| ==> t.description == "")
      && (|t.id| < |line| ==> line[|t.id|] == '.' && t.description == Cleanup(Replace(line[|t.id| + 1..], '.', ',')))
  {
    var parts := Split(line, ".");
    var t := ParseLine(line);
    assert t.id == parts[0] && t.description == Cleanup(Join(parts[1..], ","));
    SplitCharHead(line, '.');
    LineTail(line);
  }

  /** `text.trim().split("\n").map(...)`: one task per line of the trimmed reply. */
  function ParsePlan(text: string): (plan: seq<Task>)
    ensures |plan| == Count(Trim(text), '\n') + 1
    ensures forall k :: 0 <= k < |plan| ==> plan[k].result == None && '.' !in plan[k].id
  {
    var lines := Split(Trim(text), "\n");
    assert Trim(text)[0..] == Trim(text);
    SplitCharCount(Trim(text), '\n', 0);
    seq(|lines|, k requires 0 <= k < |lines| => ParseLine(lines[k]))
  }

  // ----- the numbered-list format the planner is asked for -----

  /** A plan line as the planner writes it: "<ordinal>. <task>". */
  function PlanLine(t: Task): string {
    t.id + ". " + t.description
  }

  function PlanLines(plan: seq<Task>): seq<string> {
    seq(|plan|, k requires 0 <= k < |plan| => PlanLine(plan[k]))
  }

  /** A numbered list, one task per line. */
  function PlanText(plan: seq<Task>): string {
    Join(PlanLines(plan), "\n")
  }

  /** A task the numbered-list format can carry without loss. */
  predicate Listable(t: Task) {
    && t.result == None
    && (t.id == [] || !IsWhitespace(t.id[0]))
    && '.' !in t.id && '\n' !in t.id
    && t.description != [] && !IsWhitespace(t.description[0]) && !IsWhitespace(t.description[|t.description| - 1])
    && '.' !in t.description && ',' !in t.description && '"' !in t.description && '\n' !in t.description
  }

  /** The id is everything before the first ".". */
  lemma {:induction false} IdBeforeDot(line: string, id: string)
    requires '.' !in id && |id| < |line| && line[..|id|] == id && line[|id|] == '.'
    ensures Split(line, ".")[0] == id
  {
    assert line[0..|id|] == id;
    CharFoundAt(line, '.', 0, |id|);
    var next := SplitFromStep(line, ".", 0);
  }

  /** A plan line is the id, a ".", a blank and the description. */
  lemma PlanLineShape(t: Task)
    ensures var line := PlanLine(t);
      |t.id| < |line| && line[..|t.id|] == t.id && line[|t.id|] == '.' && line[|t.id| + 1..] == " " + t.description
  {
  }

  /** The cleanup of a blank followed by a listable description is that description. */
  lemma CleanupBlankLead(d: string)
    requires d != [] && !IsWhitespace(d[0]) && !IsWhitespace(d[|d| - 1])
    requires '.' !in d && ',' !in d && '"' !in d
    ensures Cleanup(Replace(" " + d, '.', ',')) == d
  {
    ReplaceAbsent(" " + d, '.', ',');
    TrimSkipsBlanks(" ", d);
  }

  /** A listable task written as a plan line parses back to itself. */
  lemma ParsePlanLine(t: Task)
    requires Listable(t)
    ensures ParseLine(PlanLine(t)) == t
  {
    var line := PlanLine(t);
    var p := ParseLine(line);
    PlanLineShape(t);
    assert p.id == t.id by {
      IdBeforeDot(line, t.id);
    }
    assert p.description == t.description by {
      ParseLineParts(line);
      CleanupBlankLead(t.description);
    }
  }

  /** Parsing a numbered list of listable tasks gives the tasks back, in order. */
  lemma ParsePlanText(plan: seq<Task>)
    requires |plan| >= 1
    requires forall k :: 0 <= k < |plan| ==> Listable(plan[k])
    ensures ParsePlan(PlanText(plan)) == plan
  {
    var lines := PlanLines(plan);
    var text := PlanText(plan);
    JoinEnds(lines, "\n");
    assert text[..|lines[0]|] == lines[0];
    assert text[0] == lines[0][0];
    var last := lines[|lines| - 1];
    assert text[|text| - |last|..] == last;
    assert text[|text| - 1] == last[|last| - 1];
    TrimKeeps(text);
    forall k | 0 <= k < |lines| ensures '\n' !in lines[k] {
      assert lines[k] == plan[k].id + ". " + plan[k].description;
    }
    SplitJoin(lines, '\n');
    forall k | 0 <= k < |plan| ensures ParsePlan(text)[k] == plan[k] {
      ParsePlanLine(plan[k]);
    }
  }

  /** The line "1. Buy milk" is the task with id "1" and description "Buy milk". */
  lemma BuyMilkLine()
    ensures ParseLine("1. Buy milk") == Task("1", "Buy milk", None)
  {
    var t := Task("1", "Buy milk", None);
    assert PlanLine(t) == "1. Buy milk";
    ParsePlanLine(t);
  }

  // ----- the completed-task context -----

  /** `${task.result}` in a template literal: an absent result reads "undefined". */
  function ResultText(result: Option<string>): string {
    match result
    case Some(r) => r
    case None => "undefined"
  }

  /** "<id>. <description>, result: <result>". */
  function ContextLine(t: Task): string {
    t.id + ". " + t.description + ", result: " + ResultText(t.result)
  }

  function ContextLines(log: seq<Task>): seq<string> {
    seq(|log|, k requires 0 <= k < |log| => ContextLine(log[k]))
  }

  /** The completed log rendered one line per task, newline-joined, in completion order. */
  function RenderContext(log: seq<Task>): (s: string)
    ensures s == [] <==> log == []
  {
    if |log| > 0 then JoinEnds(ContextLines(log), "\n"); Join(ContextLines(log), "\n")
    else Join(ContextLines(log), "\n")
  }

  /** Logging one more task extends the context by one line; what was rendered before stays a prefix. */
  lemma RenderContextAppend(log: seq<Task>, t: Task)
    ensures RenderContext(log + [t]) ==
      if log == [] then ContextLine(t) else RenderContext(log) + "\n" + ContextLine(t)
  {
    assert ContextLines(log + [t]) == ContextLines(log) + [ContextLine(t)];
    JoinAppend(ContextLines(log), ContextLine(t), "\n");
  }

  /** A task whose fields hold no line break. */
  predicate SingleLine(t: Task) {
    '\n' !in t.id && '\n' !in t.description && '\n' !in ResultText(t.result)
  }

  /** Splitting the context on line breaks recovers one line per logged task, in order. */
  lemma RenderContextLines(log: seq<Task>)
    requires |log| >= 1
    requires forall k :: 0 <= k < |log| ==> SingleLine(log[k])
    ensures Split(RenderContext(log), "\n") == ContextLines(log)
  {
    var lines := ContextLines(log);
    forall k | 0 <= k < |lines| ensures '\n' !in lines[k] {
      assert lines[k] == log[k].id + ". " + log[k].description + ", result: " + ResultText(log[k].result);
    }
    SplitJoin(lines, '\n');
  }
}
