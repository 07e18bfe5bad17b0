/**
 * The text protocol of the task-executing agent in `src/agents/agent.ts`: how a
 * model reply is read as a final answer or a tool action, how the scratchpad of
 * earlier steps and the tool list are written into the prompt, and the fields the
 * `CustomAgent` constructor sets.
 */
module Agent {
  import opened Wrappers
  import opened JsString

  datatype Tool = Tool(name: string, description: string)

  datatype AgentAction = AgentAction(tool: string, toolInput: string, log: string)

  datatype AgentStep = AgentStep(action: AgentAction, observation: string)

  /** What `CustomOutputParser.parse` returns: an `AgentFinish` or an `AgentAction`. */
  datatype Decision = Finish(output: string, log: string) | Act(action: AgentAction)

  const FinalAnswer: string := "Final Answer:"
  const ActionTag: string := "Action: "
  const InputTag: string := "\nAction Input: "

  /** The lengths of the three markers. */
  const FinalAnswerLength: nat := 13
  const ActionTagLength: nat := 8
  const InputTagLength: nat := 15

  lemma TagLengths()
    ensures |FinalAnswer| == FinalAnswerLength && |ActionTag| == ActionTagLength && |InputTag| == InputTagLength
  {
  }

  // ----- the regular expression /Action: (.*)\nAction Input: (.*)/s -----

  /** "Action: " at `i` and "\nAction Input: " at `j`, with room for the first group between them. */
  predicate ValidSpan(text: string, i: int, j: int) {
    OccursAt(text, ActionTag, i) && OccursAt(text, InputTag, j) && i + ActionTagLength <= j
  }

  /**
   * The match `exec` reports: the leftmost start, and for it the greedy first group,
   * which ends at the last "\nAction Input: " it can reach. The second group, with
   * `.` matching line breaks, runs to the end of the text.
   */
  ghost predicate RegexMatch(text: string, i: int, j: int) {
    && ValidSpan(text, i, j)
    && (forall i', j' :: ValidSpan(text, i', j') ==> i <= i')
    && (forall j' :: ValidSpan(text, i, j') ==> j' <= j)
  }

  /** The match computed from the first "Action: " and the last "\nAction Input: ". */
  function ActionMatch(text: string): (m: Option<(nat, nat)>)
    ensures m.Some? ==> ValidSpan(text, m.value.0, m.value.1)
    ensures m.Some? ==> m.value.0 + ActionTagLength <= m.value.1 <= m.value.1 + InputTagLength <= |text|
  {
    TagLengths();
    var first := IndexOf(text, ActionTag);
    var last := LastIndexOf(text, InputTag);
    if first.Some? && last.Some? && first.value + ActionTagLength <= last.value then
      Some((first.value, last.value))
    else
      None
  }

  /** The computed match is the one the regular expression reports, and none exists when it finds none. */
  lemma ActionMatchIsRegex(text: string)
    ensures ActionMatch(text).Some? ==> RegexMatch(text, ActionMatch(text).value.0, ActionMatch(text).value.1)
    ensures ActionMatch(text).None? ==> forall i, j :: !ValidSpan(text, i, j)
  {
  }

  /** The regular expression matches at most one way. */
  lemma RegexMatchUnique(text: string, i: int, j: int, i': int, j': int)
    requires RegexMatch(text, i, j) && RegexMatch(text, i', j')
    ensures i == i' && j == j'
  {
  }

  // ----- CustomOutputParser.parse -----

  /** `text.split("Final Answer:")`, trimmed last piece, as the output of a finish. */
  function FinishAfterLast(text: string): (r: Result<Decision>)
    ensures r.Ok? && r.value.Finish? && r.value.log == text
  {
    var parts := Split(text, FinalAnswer);
    Ok(Finish(Trim(parts[|parts| - 1]), text))
  }

  /** The tool action the regular expression's groups give, or the parse error. */
  function ActionOf(text: string): (r: Result<Decision>)
    ensures r.Ok? ==> r.value.Act? && r.value.action.log == text
    ensures r.Ok? ==> var input := r.value.action.toolInput;
      input == [] || (input[0] != '"' && input[|input| - 1] != '"')
    ensures r.Err? ==> r.message == "Could not parse LLM output: " + text
  {
    match ActionMatch(text)
    case Some((i, j)) => Ok(Act(ActionAt(text, i, j)))
    case None => Err("Could not parse LLM output: " + text)
  }

  /**
   * The action the match of "Action: " at `i` and "\nAction Input: " at `j` gives:
   * the first group, trimmed, as tool; the second,
   * trimmed and quote-stripped, as input; the whole reply as log.
   */
  function ActionAt(text: string, i: nat, j: nat): (a: AgentAction)
    requires i + ActionTagLength <= j && j + InputTagLength <= |text|
    ensures a.log == text
    ensures a.toolInput == [] || (a.toolInput[0] != '"' && a.toolInput[|a.toolInput| - 1] != '"')
  {
    AgentAction(Trim(text[i + ActionTagLength..j]), StripQuotes(Trim(text[j + InputTagLength..])), text)
  }

  /**
   * `CustomOutputParser.parse`: a reply containing "Final Answer:" finishes with the
   * trimmed text after its last occurrence; otherwise the regular expression must
   * match, giving the trimmed tool name and the trimmed tool input stripped of its
   * leading and trailing quotes.
   */
  function Parse(text: string): (r: Result<Decision>)
    ensures r.Ok? && r.value.Finish? ==> r.value.log == text
    ensures r.Ok? && r.value.Act? ==> r.value.action.log == text
    ensures r.Ok? && r.value.Act? ==> var input := r.value.action.toolInput;
      input == [] || (input[0] != '"' && input[|input| - 1] != '"')
    ensures r.Err? ==> r.message == "Could not parse LLM output: " + text
  {
    if Contains(text, FinalAnswer) then FinishAfterLast(text) else ActionOf(text)
  }

  /** "Final Answer:" cannot overlap itself. */
  lemma FinalAnswerHeadUnique()
    ensures HeadUnique(FinalAnswer)
  {
  }

  /**
   * A reply with "Final Answer:" finishes, whatever else it holds, with the trimmed
   * text after the last occurrence as output, which holds no further "Final Answer:".
   */
  lemma ParseFinalAnswer(text: string)
    requires Contains(text, FinalAnswer)
    ensures Parse(text) == Ok(Finish(Trim(AfterLast(text, FinalAnswer)), text))
    ensures !Contains(Trim(AfterLast(text, FinalAnswer)), FinalAnswer)
  {
    FinalAnswerHeadUnique();
    TrimmedLastPiece(text, FinalAnswer);
  }

  /**
   * Without "Final Answer:", a match of the regular expression gives the action:
   * the trimmed first group as tool and the trimmed, quote-stripped second group as input.
   */
  lemma ParseAction(text: string, i: nat, j: nat)
    requires !Contains(text, FinalAnswer) && RegexMatch(text, i, j)
    ensures i + ActionTagLength <= j && j + InputTagLength <= |text|
    ensures Parse(text) == Ok(Act(AgentAction(
      Trim(text[i + ActionTagLength..j]), StripQuotes(Trim(text[j + InputTagLength..])), text)))
  {
    MatchIsComputed(text, i, j);
  }

  /** Any match of the regular expression is the one `ActionMatch` computes. */
  lemma MatchIsComputed(text: string, i: nat, j: nat)
    requires RegexMatch(text, i, j)
    ensures ActionMatch(text) == Some((i, j))
  {
    var m := ActionMatch(text);
    ActionMatchIsRegex(text);
    assert m.Some?;
    RegexMatchUnique(text, i, j, m.value.0, m.value.1);
  }

  /** `parse` throws exactly when there is neither a final answer nor a match. */
  lemma ParseFails(text: string)
    ensures Parse(text).Err? <==> !Contains(text, FinalAnswer) && forall i, j :: !ValidSpan(text, i, j)
  {
    ActionMatchIsRegex(text);
    if !Contains(text, FinalAnswer) && ActionMatch(text).Some? {
      var m := ActionMatch(text).value;
      assert ValidSpan(text, m.0, m.1);
    }
  }

  // ----- CustomPromptTemplate.format -----

  /** `[action.log, "\nObservation: " + observation, "Thought:"].join("\n")`. */
  function StepText(step: AgentStep): string {
    Join([step.action.log, "\nObservation: " + step.observation, "Thought:"], "\n")
  }

  /** The text one step adds: its log, a blank line, the observation and a new thought prompt. */
  lemma StepTextShape(step: AgentStep)
    ensures StepText(step) == step.action.log + "\n" + "\nObservation: " + step.observation + "\n" + "Thought:"
  {
    var obs := "\nObservation: " + step.observation;
    JoinThree(step.action.log, obs, "Thought:", "\n");
    assert step.action.log + "\n" + obs == step.action.log + "\n" + "\nObservation: " + step.observation;
  }

  /** `steps.reduce((thoughts, step) => thoughts + StepText(step), thoughts)`. */
  function FoldSteps(thoughts: string, steps: seq<AgentStep>): string
    decreases |steps|
  {
    if steps == [] then thoughts else FoldSteps(thoughts + StepText(steps[0]), steps[1..])
  }

  /** The agent scratchpad: the reduction starts from "". */
  function Scratchpad(steps: seq<AgentStep>): string {
    FoldSteps("", steps)
  }

  /** The step texts one after another, in step order. */
  function ConcatSteps(steps: seq<AgentStep>): string
    decreases |steps|
  {
    if steps == [] then "" else StepText(steps[0]) + ConcatSteps(steps[1..])
  }

  /** The reduction appends each step's text to what it was given, in order. */
  lemma {:induction false} FoldIsConcat(thoughts: string, steps: seq<AgentStep>)
    ensures FoldSteps(thoughts, steps) == thoughts + ConcatSteps(steps)
    decreases |steps|
  {
    if steps != [] {
      FoldIsConcat(thoughts + StepText(steps[0]), steps[1..]);
    }
  }

  /** The scratchpad is empty for no steps and grows by one step's text per step. */
  lemma ScratchpadAppend(steps: seq<AgentStep>, step: AgentStep)
    ensures Scratchpad([]) == ""
    ensures Scratchpad(steps + [step]) == Scratchpad(steps) + StepText(step)
  {
    FoldIsConcat("", steps);
    FoldIsConcat("", steps + [step]);
    ConcatAppend(steps, step);
  }

  lemma {:induction false} ConcatAppend(steps: seq<AgentStep>, step: AgentStep)
    ensures ConcatSteps(steps + [step]) == ConcatSteps(steps) + StepText(step)
    decreases |steps|
  {
    if steps == [] {
      assert [] + [step] == [step];
    } else {
      assert (steps + [step])[1..] == steps[1..] + [step];
      ConcatAppend(steps[1..], step);
    }
  }

  /**
   * The values handed to the template: the computed scratchpad, overridden by every
   * value the caller passed, `agent_scratchpad` included.
   */
  function TemplateValues(input: map<string, string>, steps: seq<AgentStep>): (values: map<string, string>)
    ensures "agent_scratchpad" in values
    ensures values["agent_scratchpad"] ==
      if "agent_scratchpad" in input then input["agent_scratchpad"] else Scratchpad(steps)
    ensures forall key :: key in input ==> key in values && values[key] == input[key]
    ensures forall key :: key in values ==> key in input || key == "agent_scratchpad"
  {
    map["agent_scratchpad" := Scratchpad(steps)] + input
  }

  /** `"<name>: <description>"` for one tool. */
  function ToolLine(t: Tool): string {
    t.name + ": " + t.description
  }

  function ToolLines(tools: seq<Tool>): seq<string> {
    seq(|tools|, k requires 0 <= k < |tools| => ToolLine(tools[k]))
  }

  /** The tool list of the prompt, one tool per line. */
  function ToolStrings(tools: seq<Tool>): string {
    Join(ToolLines(tools), "\n")
  }

  /** The names of the tools, in tool order. */
  function ToolNames(tools: seq<Tool>): (names: seq<string>)
    ensures |names| == |tools| && forall k :: 0 <= k < |tools| ==> names[k] == tools[k].name
  {
    if tools == [] then [] else [tools[0].name] + ToolNames(tools[1..])
  }

  /** The names as the format instructions list them, one per line. */
  function ToolNamesText(tools: seq<Tool>): string {
    Join(ToolNames(tools), "\n")
  }

  /** Tools whose names and descriptions hold no line break. */
  predicate SingleLineTools(tools: seq<Tool>) {
    forall k :: 0 <= k < |tools| ==> '\n' !in tools[k].name && '\n' !in tools[k].description
  }

  /** Reading the tool list line by line gives one `name: description` per tool, in order. */
  lemma ToolStringsLines(tools: seq<Tool>)
    requires |tools| >= 1 && SingleLineTools(tools)
    ensures Split(ToolStrings(tools), "\n") == ToolLines(tools)
  {
    var lines := ToolLines(tools);
    forall k | 0 <= k < |lines| ensures '\n' !in lines[k] {
      assert lines[k] == tools[k].name + ": " + tools[k].description;
    }
    SplitJoin(lines, '\n');
  }

  /** Reading the name list line by line gives the names back, in order. */
  lemma ToolNamesLines(tools: seq<Tool>)
    requires |tools| >= 1 && SingleLineTools(tools)
    ensures Split(ToolNamesText(tools), "\n") == ToolNames(tools)
  {
    SplitJoin(ToolNames(tools), '\n');
  }

  // ----- CustomAgent -----

  /** The fields the constructor sets; the executor is not part of this model. */
  datatype CustomAgent = CustomAgent(tools: seq<Tool>, toolsNames: seq<string>)

  /** `tools || []`, and the names of those tools. */
  function NewCustomAgent(tools: Option<seq<Tool>>): (a: CustomAgent)
    ensures tools.None? ==> a.tools == []
    ensures tools.Some? ==> a.tools == tools.value
    ensures |a.toolsNames| == |a.tools| && forall k :: 0 <= k < |a.tools| ==> a.toolsNames[k] == a.tools[k].name
  {
    var kept := if tools.Some? then tools.value else [];
    CustomAgent(kept, ToolNames(kept))
  }
}
