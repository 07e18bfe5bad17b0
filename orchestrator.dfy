/**
 * The orchestrator of `src/agentMachine.ts` and of its older variant `src/index.ts`
 * as a step function over the run context.
 *
 * Every invoked service settles once; its outcome is a `reply: Option<string>`,
 * `None` when the service threw or resolved `undefined`. A `Variant` says which of
 * the two machines runs. An outcome that no transition handles leaves the machine
 * where it is with nothing more to wait for; the context records this as `stalled`.
 */
module Orchestrator {
  import opened Wrappers
  import opened JsString
  import opened Plan

  datatype State = Initial | Planning | ExecutingPlan | EvaluateTask | EvaluateObjective | TaskFailed | PlanComplete

  /**
   * `errorEdge`: `executingPlan` routes an executor error to `taskFailed`.
   * `printsTable`: `executeNextTask` prints the pending deque before popping it.
   */
  datatype Variant = Variant(errorEdge: bool, printsTable: bool)

  /** `src/agentMachine.ts`, which prints the deque only when constructed `verbose`. */
  function ClassMachine(verbose: bool): Variant {
    Variant(true, verbose)
  }

  /** `src/index.ts`: no error edge, and the deque is always printed. */
  const ScriptMachine := Variant(false, true)

  /**
   * The run context. A pending slot is `None` where a failed rewrite pushed
   * `undefined` to the front of the deque. `logShared` records that the completed
   * log is the deque the reset installs, which is one object for all resets.
   */
  datatype Config = Config(
    state: State,
    objective: Option<string>,
    tasks: seq<Option<Task>>,
    completedTasks: seq<Task>,
    currentTask: Option<Task>,
    stalled: bool,
    logShared: bool)

  /** The `undefined` slots come before every task. */
  predicate UndefinedFirst(tasks: seq<Option<Task>>) {
    forall i, j :: 0 <= i < j < |tasks| && tasks[j].None? ==> tasks[i].None?
  }

  /** What the machine keeps true of its context between two transitions. */
  predicate Inv(c: Config) {
    && (c.state == Initial <==> c.objective.None?)
    && (c.state == Initial || c.state == Planning ==>
          c.tasks == [] && c.currentTask.None? && (c.logShared || c.completedTasks == []))
    && (c.state == ExecutingPlan && !c.stalled ==>
          c.tasks != [] && (c.currentTask.Some? ==> c.tasks[0] == c.currentTask))
    && (c.state == EvaluateTask ==> c.currentTask.Some? && c.currentTask.value.result.Some?)
    && (c.state == EvaluateObjective ==> c.tasks != [] && c.currentTask.None?)
    && (c.state == PlanComplete ==> c.currentTask.None?)
    && UndefinedFirst(c.tasks)
    && (c.currentTask.Some? ==> None !in c.tasks)
    && forall k :: 0 <= k < |c.completedTasks| ==> c.completedTasks[k].result.Some?
  }

  /** The context the machine is created with. */
  function Fresh(): (c: Config)
    ensures Inv(c)
  {
    Config(Initial, None, [], [], None, false, false)
  }

  // ----- what the services make of a reply -----

  /**
   * `checkSuccess` and `checkObjectiveSuccess`: `Some(true)` when the trimmed reply is
   * exactly "true", `Some(false)` for any other reply, and `None` when the chain call
   * failed and the service resolved `undefined`.
   */
  function Verdict(reply: Option<string>): Option<bool> {
    if reply.Some? then Some(Trim(reply.value) == "true") else None
  }

  /**
   * `retryTask`: the current task with the trimmed rewrite as its description, or
   * `undefined` when there is no current task or the rewrite failed.
   */
  function Retried(current: Option<Task>, reply: Option<string>): Option<Task> {
    if current.Some? && reply.Some? then Some(current.value.(description := Trim(reply.value))) else None
  }

  /** The deque `generatePlan` builds from the parsed tasks. */
  function Pending(plan: seq<Task>): seq<Option<Task>> {
    seq(|plan|, k requires 0 <= k < |plan| => Some(plan[k]))
  }

  /**
   * `printTable` reads every row of the deque it is given, and throws on an
   * `undefined` one.
   */
  predicate TableFails(c: Config, v: Variant) {
    v.printsTable && None in c.tasks
  }

  // ----- one transition per state -----

  /** `initial`: the objective typed in is stored; a failed prompt has no handler. */
  function OnObjective(c: Config, reply: Option<string>): (d: Config)
    requires Inv(c) && c.state == Initial && !c.stalled
    ensures Inv(d)
  {
    if reply.Some? then c.(state := Planning, objective := reply) else c.(stalled := true)
  }

  /** `planning`: the parsed plan becomes the pending deque; a failed chain call has no handler. */
  function OnPlan(c: Config, reply: Option<string>): (d: Config)
    requires Inv(c) && c.state == Planning && !c.stalled
    ensures Inv(d)
  {
    if reply.Some? then c.(state := ExecutingPlan, tasks := Pending(ParsePlan(reply.value)))
    else c.(stalled := true)
  }

  /**
   * `executingPlan`: a failing table print throws before anything is popped.
   * Otherwise the front task is popped before anything else can fail. On success it
   * becomes the current task with the agent's output as its result. On failure (an
   * `undefined` front slot, or no output) the popped task is not put back. Either
   * error goes to `taskFailed` where there is an error edge, and stops the machine
   * where there is none.
   */
  function OnExecuted(c: Config, v: Variant, reply: Option<string>): (d: Config)
    requires Inv(c) && c.state == ExecutingPlan && !c.stalled
    ensures Inv(d)
  {
    if TableFails(c, v) then
      if v.errorEdge then c.(state := TaskFailed) else c.(stalled := true)
    else
      var front := c.tasks[0];
      assert UndefinedFirst(c.tasks[1..]);
      if front.Some? && reply.Some? then
        c.(state := EvaluateTask, tasks := c.tasks[1..], currentTask := Some(front.value.(result := reply)))
      else if v.errorEdge then c.(state := TaskFailed, tasks := c.tasks[1..])
      else c.(tasks := c.tasks[1..], stalled := true)
  }

  /**
   * `evaluateTask`: on success the current task is appended to the completed log and
   * cleared; a rejection goes to `taskFailed`; an `undefined` verdict matches no guard.
   */
  function OnTaskVerdict(c: Config, reply: Option<string>): (d: Config)
    requires Inv(c) && c.state == EvaluateTask && !c.stalled
    ensures Inv(d)
  {
    var verdict := Verdict(reply);
    if verdict == Some(true) then
      c.(state := if c.tasks != [] then EvaluateObjective else PlanComplete,
         completedTasks := c.completedTasks + [c.currentTask.value],
         currentTask := None)
    else if verdict == Some(false) then c.(state := TaskFailed)
    else c.(stalled := true)
  }

  /**
   * `evaluateObjective`: COMPLETE finishes the plan, INCOMPLETE with pending tasks
   * goes back to executing; nothing in the context changes. INCOMPLETE with an empty
   * deque would match no guard, and `Inv` rules it out.
   */
  function OnObjectiveVerdict(c: Config, reply: Option<string>): (d: Config)
    requires Inv(c) && c.state == EvaluateObjective && !c.stalled
    ensures Inv(d)
  {
    var verdict := Verdict(reply);
    if verdict == Some(true) then c.(state := PlanComplete)
    else if verdict == Some(false) then
      if c.tasks != [] then c.(state := ExecutingPlan) else assert false; c.(stalled := true)
    else c.(stalled := true)
  }

  /** `taskFailed`: the retried task, even `undefined`, goes to the front and becomes current. */
  function OnRetried(c: Config, reply: Option<string>): (d: Config)
    requires Inv(c) && c.state == TaskFailed && !c.stalled
    ensures Inv(d)
  {
    var retried := Retried(c.currentTask, reply);
    c.(state := ExecutingPlan, currentTask := retried, tasks := [retried] + c.tasks)
  }

  /**
   * `planComplete`: whatever the answer, the context is reset and the machine waits
   * for a new objective. The reset's `new Deque<Task>()` values are evaluated once,
   * when the machine is configured, so every reset installs the same two deques. The
   * pending one is replaced by the next plan before anything writes to it; the
   * completed one is empty at the first reset and from the second reset on still
   * holds everything logged into it since.
   */
  function Reset(c: Config): (d: Config)
    requires Inv(c) && c.state == PlanComplete
    ensures Inv(d)
  {
    Config(Initial, None, [], if c.logShared then c.completedTasks else [], None, false, true)
  }

  /** One settled service: the transition of the current state, if any. */
  function Next(c: Config, v: Variant, reply: Option<string>): (d: Config)
    requires Inv(c)
    ensures Inv(d)
  {
    if c.stalled then c
    else match c.state
      case Initial => OnObjective(c, reply)
      case Planning => OnPlan(c, reply)
      case ExecutingPlan => OnExecuted(c, v, reply)
      case EvaluateTask => OnTaskVerdict(c, reply)
      case EvaluateObjective => OnObjectiveVerdict(c, reply)
      case TaskFailed => OnRetried(c, reply)
      case PlanComplete => Reset(c)
  }

  /** The services settling one after another with the given outcomes. */
  function Run(c: Config, v: Variant, replies: seq<Option<string>>): (d: Config)
    requires Inv(c)
    ensures Inv(d)
    decreases |replies|
  {
    if replies == [] then c else Run(Next(c, v, replies[0]), v, replies[1..])
  }

  // ----- single transitions -----

  /**
   * `executeNextTask` prints the deque and then removes exactly the front task; on
   * success the current task is that task with its id and description and the
   * agent's output as result. A failing print removes nothing.
   */
  lemma ExecutePopsFront(c: Config, v: Variant, reply: Option<string>)
    requires Inv(c) && c.state == ExecutingPlan && !c.stalled
    ensures var d := Next(c, v, reply);
      && d.tasks == (if TableFails(c, v) then c.tasks else c.tasks[1..])
      && d.completedTasks == c.completedTasks && d.objective == c.objective
      && (d.state == EvaluateTask <==> !TableFails(c, v) && c.tasks[0].Some? && reply.Some?)
      && (d.state == EvaluateTask ==>
            d.currentTask.value.id == c.tasks[0].value.id &&
            d.currentTask.value.description == c.tasks[0].value.description &&
            d.currentTask.value.result == reply)
      && (d.state != EvaluateTask ==>
            d.currentTask == c.currentTask && (d.state == TaskFailed <==> v.errorEdge) && (d.stalled <==> !v.errorEdge))
  {
  }

  /**
   * A TASK_SUCCESS verdict appends the current task to the completed log and clears
   * it; the machine asks about the objective only while tasks are pending.
   */
  lemma TaskSuccessLogs(c: Config, v: Variant, reply: Option<string>)
    requires Inv(c) && c.state == EvaluateTask && !c.stalled && Verdict(reply) == Some(true)
    ensures var d := Next(c, v, reply);
      && d.completedTasks == c.completedTasks + [c.currentTask.value]
      && d.currentTask == None && d.tasks == c.tasks && d.objective == c.objective
      && d.state == (if c.tasks != [] then EvaluateObjective else PlanComplete)
  {
  }

  /** Every reply but a trimmed "true" rejects the task, and the context is untouched. */
  lemma TaskRejectionRetries(c: Config, v: Variant, text: string)
    requires Inv(c) && c.state == EvaluateTask && !c.stalled && Trim(text) != "true"
    ensures Next(c, v, Some(text)) == c.(state := TaskFailed)
  {
  }

  /** The objective judge only chooses the next state. */
  lemma ObjectiveVerdictKeepsContext(c: Config, v: Variant, reply: Option<string>)
    requires Inv(c) && c.state == EvaluateObjective && !c.stalled && reply.Some?
    ensures var d := Next(c, v, reply);
      d == c.(state := if Trim(reply.value) == "true" then PlanComplete else ExecutingPlan)
  {
  }

  /**
   * A retried task keeps its id and result, carries the trimmed rewrite as its
   * description, and is the next task executed.
   */
  lemma RetriedTaskRunsNext(c: Config, v: Variant, rewrite: string, output: string)
    requires Inv(c) && c.state == TaskFailed && !c.stalled && c.currentTask.Some?
    ensures var t := c.currentTask.value;
      var d1 := Next(c, v, Some(rewrite));
      && d1.state == ExecutingPlan
      && d1.currentTask == Some(Task(t.id, Trim(rewrite), t.result))
      && d1.tasks == [d1.currentTask] + c.tasks
      && Next(d1, v, Some(output)) ==
           d1.(state := EvaluateTask, tasks := c.tasks, currentTask := Some(Task(t.id, Trim(rewrite), Some(output))))
  {
  }

  /**
   * `planComplete` clears the objective, the deque and the current task whatever the
   * answer; the completed log is emptied only by the first reset.
   */
  lemma ResetSharesLog(c: Config, v: Variant, reply: Option<string>)
    requires Inv(c) && c.state == PlanComplete && !c.stalled
    ensures var d := Next(c, v, reply);
      && d.state == Initial && d.objective == None && d.tasks == [] && d.currentTask == None
      && !d.stalled && d.logShared
      && d.completedTasks == (if c.logShared then c.completedTasks else [])
  {
  }

  /**
   * The completed log changes only by one append on success, and by the first reset,
   * which empties it.
   */
  lemma CompletedOnlyGrows(c: Config, v: Variant, reply: Option<string>)
    requires Inv(c)
    ensures var d := Next(c, v, reply);
      if c.state == PlanComplete && !c.stalled && !c.logShared then d.completedTasks == []
      else (d.completedTasks == c.completedTasks ||
        (c.state == EvaluateTask && Verdict(reply) == Some(true) &&
         d.completedTasks == c.completedTasks + [c.currentTask.value]))
  {
  }

  /** Once the reset's deque is installed, no later outcome removes anything from the log. */
  lemma {:induction false} SharedLogOnlyGrows(c: Config, v: Variant, replies: seq<Option<string>>)
    requires Inv(c) && c.logShared
    ensures var d := Run(c, v, replies);
      d.logShared && |c.completedTasks| <= |d.completedTasks| && d.completedTasks[..|c.completedTasks|] == c.completedTasks
    decreases |replies|
  {
    if replies != [] {
      var d1 := Next(c, v, replies[0]);
      CompletedOnlyGrows(c, v, replies[0]);
      SharedLogOnlyGrows(d1, v, replies[1..]);
      var d := Run(d1, v, replies[1..]);
      assert d.completedTasks[..|c.completedTasks|] == d.completedTasks[..|d1.completedTasks|][..|c.completedTasks|];
    }
  }

  /**
   * A whole run of a one-task plan: the objective, the plan, the executor's output,
   * the judge's reply and the answer settle one after another.
   */
  function OneTaskRun(c: Config, v: Variant, objective: string, text: string, output: string, accept: string,
                      answer: Option<string>): (d: Config)
    requires Inv(c)
    ensures Inv(d)
  {
    Next(Next(Next(Next(Next(c, v, Some(objective)), v, Some(text)), v, Some(output)), v, Some(accept)), v, answer)
  }

  /**
   * A run of a one-task plan the judge accepts ends back in `initial`. Its task is
   * logged, and the reset keeps the log whenever it was the reset's deque already.
   */
  lemma OneTaskRunLogs(c: Config, v: Variant, objective: string, text: string, output: string, accept: string,
                       answer: Option<string>)
    requires Inv(c) && c.state == Initial && !c.stalled && |ParsePlan(text)| == 1 && Trim(accept) == "true"
    ensures var d := OneTaskRun(c, v, objective, text, output, accept, answer);
      && d.state == Initial && !d.stalled && d.logShared && d.tasks == []
      && d.completedTasks == (if c.logShared then c.completedTasks + [ParsePlan(text)[0].(result := Some(output))] else [])
  {
    var c1 := Next(c, v, Some(objective));
    PlanOfOne(c1, v, text);
  }

  lemma PlanOfOne(c: Config, v: Variant, text: string)
    requires Inv(c) && c.state == Planning && !c.stalled && |ParsePlan(text)| == 1
    ensures Next(c, v, Some(text)) == c.(state := ExecutingPlan, tasks := [Some(ParsePlan(text)[0])])
  {
    assert Next(c, v, Some(text)) == OnPlan(c, Some(text));
    assert Pending(ParsePlan(text)) == [Some(ParsePlan(text)[0])];
  }

  /**
   * The second reset keeps the second run's log: the third run starts with that run's
   * task already completed, and hands its line to every collaborator.
   */
  lemma SecondResetKeepsLog(v: Variant, o1: string, p1: string, out1: string, y1: string, a1: Option<string>,
                            o2: string, p2: string, out2: string, y2: string, a2: Option<string>)
    requires |ParsePlan(p1)| == 1 && |ParsePlan(p2)| == 1 && Trim(y1) == "true" && Trim(y2) == "true"
    ensures var d := OneTaskRun(OneTaskRun(Fresh(), v, o1, p1, out1, y1, a1), v, o2, p2, out2, y2, a2);
      && d.state == Initial
      && d.completedTasks == [ParsePlan(p2)[0].(result := Some(out2))]
      && RenderContext(d.completedTasks) == ContextLine(ParsePlan(p2)[0].(result := Some(out2)))
  {
    var d1 := OneTaskRun(Fresh(), v, o1, p1, out1, y1, a1);
    OneTaskRunLogs(Fresh(), v, o1, p1, out1, y1, a1);
    OneTaskRunLogs(d1, v, o2, p2, out2, y2, a2);
    RenderContextAppend([], ParsePlan(p2)[0].(result := Some(out2)));
  }

  /** On success the context handed to the collaborators gains exactly the new task's line. */
  lemma SuccessExtendsContext(c: Config, v: Variant, reply: Option<string>)
    requires Inv(c) && c.state == EvaluateTask && !c.stalled && Verdict(reply) == Some(true)
    ensures var t := c.currentTask.value;
      RenderContext(Next(c, v, reply).completedTasks) ==
        if c.completedTasks == [] then ContextLine(t) else RenderContext(c.completedTasks) + "\n" + ContextLine(t)
  {
    RenderContextAppend(c.completedTasks, c.currentTask.value);
  }

  // ----- runs that stop -----

  /** Once stalled, nothing that settles later moves the machine. */
  lemma {:induction false} StalledStaysPut(c: Config, v: Variant, replies: seq<Option<string>>)
    requires Inv(c) && c.stalled
    ensures Run(c, v, replies) == c
    decreases |replies|
  {
    if replies != [] {
      StalledStaysPut(c, v, replies[1..]);
    }
  }

  /** With an `undefined` slot queued, `src/index.ts` stops at the table print, with nothing popped. */
  lemma ScriptStopsAtUndefined(c: Config, reply: Option<string>)
    requires Inv(c) && c.state == ExecutingPlan && !c.stalled && None in c.tasks
    ensures Next(c, ScriptMachine, reply) == c.(stalled := true)
  {
  }

  /**
   * With the error edge and no table print, an `undefined` front slot and no current
   * task send the machine to `taskFailed`, whose retry of a null task yields
   * `undefined` again: two transitions later the context is what it was.
   */
  lemma UndefinedFrontCycles(c: Config, r1: Option<string>, r2: Option<string>)
    requires Inv(c) && c.state == ExecutingPlan && !c.stalled && c.tasks[0].None? && c.currentTask.None?
    ensures Next(c, ClassMachine(false), r1).state == TaskFailed
    ensures Next(Next(c, ClassMachine(false), r1), ClassMachine(false), r2) == c
  {
    assert [None] + c.tasks[1..] == c.tasks;
  }

  /** ... and so it cycles between `executingPlan` and `taskFailed` for ever. */
  lemma {:induction false} UndefinedFrontForever(c: Config, replies: seq<Option<string>>)
    requires Inv(c) && c.state == ExecutingPlan && !c.stalled && c.tasks[0].None? && c.currentTask.None?
    requires |replies| % 2 == 0
    ensures Run(c, ClassMachine(false), replies) == c
    decreases |replies|
  {
    if replies != [] {
      UndefinedFrontCycles(c, replies[0], replies[1]);
      assert replies[1..][0] == replies[1] && replies[1..][1..] == replies[2..];
      UndefinedFrontForever(c, replies[2..]);
    }
  }

  /** `n` slots holding `undefined`. */
  function Undefineds(n: nat): seq<Option<Task>> {
    seq(n, _ => None)
  }

  /**
   * A `verbose` `agentMachine.ts` prints the deque first: with an `undefined` slot
   * queued the print throws, nothing is popped, and the retry of the null current
   * task pushes one more `undefined` to the front.
   */
  lemma VerboseUndefinedGrows(c: Config, r1: Option<string>, r2: Option<string>)
    requires Inv(c) && c.state == ExecutingPlan && !c.stalled && None in c.tasks
    ensures Next(c, ClassMachine(true), r1) == c.(state := TaskFailed)
    ensures Next(Next(c, ClassMachine(true), r1), ClassMachine(true), r2) == c.(tasks := [None] + c.tasks)
  {
    assert c.tasks[0].None?;
  }

  /** ... so every two outcomes add an `undefined`, and nothing is logged any more. */
  lemma {:induction false} VerboseUndefinedForever(c: Config, replies: seq<Option<string>>)
    requires Inv(c) && c.state == ExecutingPlan && !c.stalled && None in c.tasks
    requires |replies| % 2 == 0
    ensures Run(c, ClassMachine(true), replies) == c.(tasks := Undefineds(|replies| / 2) + c.tasks)
    decreases |replies|
  {
    if replies == [] {
      assert Undefineds(0) + c.tasks == c.tasks;
    } else {
      var c2 := c.(tasks := [None] + c.tasks);
      VerboseUndefinedGrows(c, replies[0], replies[1]);
      assert replies[1..][0] == replies[1] && replies[1..][1..] == replies[2..];
      assert None in c2.tasks by {
        assert c2.tasks[0] == None;
      }
      VerboseUndefinedForever(c2, replies[2..]);
      assert Undefineds(|replies[2..]| / 2) + c2.tasks == Undefineds(|replies| / 2) + c.tasks;
    }
  }

  /**
   * An executor error on a task's first attempt loses that task: it is not put back,
   * and the retry of the null current task puts `undefined` in its place.
   */
  lemma FirstAttemptErrorDropsTask(c: Config, v: Variant, reply: Option<string>)
    requires Inv(c) && c.state == ExecutingPlan && !c.stalled && c.currentTask.None? && c.tasks[0].Some?
    requires v.errorEdge
    ensures var d := Next(Next(c, v, None), v, reply);
      && d.state == ExecutingPlan && !d.stalled
      && d.tasks == [None] + c.tasks[1..] && d.currentTask == None
      && d.completedTasks == c.completedTasks
  {
    assert !TableFails(c, v);
  }

  // ----- the plan's tasks along a run -----

  function IdOf(slot: Option<Task>): Option<string> {
    if slot.Some? then Some(slot.value.id) else None
  }

  function SlotIds(slots: seq<Option<Task>>): seq<Option<string>> {
    seq(|slots|, k requires 0 <= k < |slots| => IdOf(slots[k]))
  }

  function DoneIds(log: seq<Task>): seq<Option<string>> {
    seq(|log|, k requires 0 <= k < |log| => Some(log[k].id))
  }

  /** The task between the queues: popped and not yet logged or put back. */
  function InFlight(c: Config): seq<Option<string>> {
    if c.state == EvaluateTask || c.state == TaskFailed then [IdOf(c.currentTask)] else []
  }

  /** The ids of the completed, the in-flight and the pending tasks, in that order. */
  function Lineup(c: Config): seq<Option<string>> {
    DoneIds(c.completedTasks) + InFlight(c) + SlotIds(c.tasks)
  }

  /** The machine is working through a plan. */
  predicate Running(c: Config) {
    !c.stalled &&
    (c.state == ExecutingPlan || c.state == EvaluateTask || c.state == EvaluateObjective || c.state == TaskFailed)
  }

  /**
   * The transitions that lose a task's id: a failed rewrite of a current task, and
   * an executor error on a first attempt where there is an error edge.
   */
  predicate Forgets(c: Config, v: Variant, reply: Option<string>) {
    || (c.state == TaskFailed && c.currentTask.Some? && reply.None?)
    || (c.state == ExecutingPlan && v.errorEdge && !TableFails(c, v) && c.currentTask.None? &&
        |c.tasks| > 0 && c.tasks[0].Some? && reply.None?)
  }

  /** The transition that adds a slot: a failing table print with an error edge. */
  predicate Inserts(c: Config, v: Variant) {
    c.state == ExecutingPlan && v.errorEdge && TableFails(c, v)
  }

  /** `after` is `before` with some ids replaced by `None`. */
  predicate Blanks(before: seq<Option<string>>, after: seq<Option<string>>) {
    |after| == |before| && forall k :: 0 <= k < |before| ==> after[k] == before[k] || after[k] == None
  }

  lemma SlotIdsCons(slot: Option<Task>, slots: seq<Option<Task>>)
    ensures SlotIds([slot] + slots) == [IdOf(slot)] + SlotIds(slots)
  {
  }

  lemma DoneIdsSnoc(log: seq<Task>, t: Task)
    ensures DoneIds(log + [t]) == DoneIds(log) + [Some(t.id)]
  {
  }

  lemma DoneIdsAppend(log: seq<Task>, more: seq<Task>)
    ensures DoneIds(log + more) == DoneIds(log) + DoneIds(more)
  {
  }

  /**
   * The lineup across `executeNextTask` when the table prints: every id stays in
   * place, except that the error edge on a first attempt blanks the popped task's id.
   */
  lemma ExecutedLineup(c: Config, v: Variant, reply: Option<string>)
    requires Inv(c) && c.state == ExecutingPlan && !c.stalled && !Inserts(c, v) && !Next(c, v, reply).stalled
    ensures Forgets(c, v, reply) ==> |c.completedTasks| < |Lineup(c)|
    ensures Lineup(Next(c, v, reply)) ==
      if Forgets(c, v, reply) then Lineup(c)[|c.completedTasks| := None] else Lineup(c)
  {
    var done := DoneIds(c.completedTasks);
    SlotIdsCons(c.tasks[0], c.tasks[1..]);
    assert [c.tasks[0]] + c.tasks[1..] == c.tasks;
    assert Lineup(c) == done + [IdOf(c.tasks[0])] + SlotIds(c.tasks[1..]);
  }

  /**
   * A failing table print with an error edge pops nothing and yet reaches `taskFailed`:
   * a blank slot appears in the lineup in front of the pending ones.
   */
  lemma TableFailLineup(c: Config, v: Variant, reply: Option<string>)
    requires Inv(c) && Inserts(c, v) && !c.stalled
    ensures var k := |c.completedTasks|;
      k <= |Lineup(c)| && Lineup(Next(c, v, reply)) == Lineup(c)[..k] + [None] + Lineup(c)[k..]
  {
    var done := DoneIds(c.completedTasks);
    assert Lineup(c) == done + SlotIds(c.tasks);
    assert Lineup(c)[..|done|] == done && Lineup(c)[|done|..] == SlotIds(c.tasks);
  }

  /** The lineup across a task verdict. */
  lemma JudgedLineup(c: Config, v: Variant, reply: Option<string>)
    requires Inv(c) && c.state == EvaluateTask && !c.stalled && !Next(c, v, reply).stalled
    ensures Lineup(Next(c, v, reply)) == Lineup(c)
  {
    if Verdict(reply) == Some(true) {
      DoneIdsSnoc(c.completedTasks, c.currentTask.value);
    }
  }

  /** The lineup across an objective verdict, which moves no task. */
  lemma ObjectiveLineup(c: Config, v: Variant, reply: Option<string>)
    requires Inv(c) && c.state == EvaluateObjective && !c.stalled
    ensures Lineup(Next(c, v, reply)) == Lineup(c)
  {
    var d := Next(c, v, reply);
    assert d.completedTasks == c.completedTasks && d.tasks == c.tasks;
    assert InFlight(d) == [] == InFlight(c);
  }

  /** The lineup across a retry. */
  lemma RetriedLineup(c: Config, v: Variant, reply: Option<string>)
    requires Inv(c) && c.state == TaskFailed && !c.stalled
    ensures Forgets(c, v, reply) ==> |c.completedTasks| < |Lineup(c)|
    ensures Lineup(Next(c, v, reply)) ==
      if Forgets(c, v, reply) then Lineup(c)[|c.completedTasks| := None] else Lineup(c)
  {
    SlotIdsCons(Retried(c.currentTask, reply), c.tasks);
  }

  /**
   * Every handled transition of a running machine that adds no slot keeps the lineup,
   * except that a forgetting one blanks the id of the task it is working on.
   */
  lemma StepLineup(c: Config, v: Variant, reply: Option<string>)
    requires Inv(c) && Running(c) && !Inserts(c, v) && !Next(c, v, reply).stalled
    ensures Forgets(c, v, reply) ==> |c.completedTasks| < |Lineup(c)|
    ensures Lineup(Next(c, v, reply)) ==
      if Forgets(c, v, reply) then Lineup(c)[|c.completedTasks| := None] else Lineup(c)
  {
    if c.state == ExecutingPlan {
      ExecutedLineup(c, v, reply);
    } else if c.state == EvaluateTask {
      JudgedLineup(c, v, reply);
    } else if c.state == TaskFailed {
      RetriedLineup(c, v, reply);
    } else {
      ObjectiveLineup(c, v, reply);
    }
  }

  /**
   * Outcomes handled one after another by a running machine whose table prints do
   * not fail. (From a failing print on, `VerboseUndefinedForever` and
   * `ScriptStopsAtUndefined` say what happens.)
   */
  predicate Handled(c: Config, v: Variant, replies: seq<Option<string>>)
    requires Inv(c)
    decreases |replies|
  {
    replies == [] ||
    (Running(c) && !Inserts(c, v) && !Next(c, v, replies[0]).stalled && Handled(Next(c, v, replies[0]), v, replies[1..]))
  }

  /** A handled run keeps every task's place and can at most blank ids. */
  lemma {:induction false} HandledRunBlanksOnly(c: Config, v: Variant, replies: seq<Option<string>>)
    requires Inv(c) && Handled(c, v, replies)
    ensures Blanks(Lineup(c), Lineup(Run(c, v, replies)))
    decreases |replies|
  {
    if replies != [] {
      var d := Next(c, v, replies[0]);
      StepLineup(c, v, replies[0]);
      HandledRunBlanksOnly(d, v, replies[1..]);
    }
  }

  /** When every collaborator answers, a handled run keeps the lineup exactly. */
  lemma {:induction false} AnsweredRunKeepsLineup(c: Config, v: Variant, replies: seq<Option<string>>)
    requires Inv(c) && Handled(c, v, replies)
    requires forall k :: 0 <= k < |replies| ==> replies[k].Some?
    ensures Lineup(Run(c, v, replies)) == Lineup(c)
    decreases |replies|
  {
    if replies != [] {
      var d := Next(c, v, replies[0]);
      StepLineup(c, v, replies[0]);
      AnsweredRunKeepsLineup(d, v, replies[1..]);
    }
  }

  /** Planning puts the parsed tasks in the lineup after the log carried over, in plan order. */
  lemma PlannedLineup(c: Config, v: Variant, text: string)
    requires Inv(c) && c.state == Planning && !c.stalled
    ensures Lineup(Next(c, v, Some(text))) == DoneIds(c.completedTasks + ParsePlan(text))
  {
    var plan := ParsePlan(text);
    var d0 := Next(c, v, Some(text));
    assert d0.tasks == Pending(plan) && d0.completedTasks == c.completedTasks && d0.state == ExecutingPlan;
    assert Lineup(d0) == DoneIds(c.completedTasks) + SlotIds(d0.tasks) by {
      assert InFlight(d0) == [];
    }
    SlotIdsPending(plan);
    DoneIdsAppend(c.completedTasks, plan);
  }

  lemma SlotIdsPending(plan: seq<Task>)
    ensures SlotIds(Pending(plan)) == DoneIds(plan)
  {
  }

  /** The lineup counts the completed tasks, the task in flight and the pending slots. */
  lemma LineupSize(d: Config)
    ensures |Lineup(d)| ==
      |d.completedTasks| + |d.tasks| + (if d.state == EvaluateTask || d.state == TaskFailed then 1 else 0)
  {
  }

  /** Completed tasks are never blanked, so each keeps the id at its place in the expected order. */
  lemma CompletedKeepIds(expected: seq<Task>, d: Config)
    requires Blanks(DoneIds(expected), Lineup(d))
    ensures forall k :: 0 <= k < |d.completedTasks| ==> d.completedTasks[k].id == expected[k].id
  {
    forall k | 0 <= k < |d.completedTasks|
      ensures d.completedTasks[k].id == expected[k].id
    {
      assert Lineup(d)[k] == Some(d.completedTasks[k].id);
    }
  }

  /**
   * From a log carried over by the reset and a parsed plan of N tasks, a handled run
   * keeps |pending| + |completed| = |carried| + N, plus one while a task is in flight,
   * and the completed tasks carry the ids of the carried log followed by the plan's.
   */
  lemma PlanAccountedFor(c: Config, v: Variant, text: string, replies: seq<Option<string>>)
    requires Inv(c) && c.state == Planning && !c.stalled
    requires Handled(Next(c, v, Some(text)), v, replies)
    ensures var expected := c.completedTasks + ParsePlan(text);
      var d := Run(Next(c, v, Some(text)), v, replies);
      && |d.completedTasks| + |d.tasks| + (if d.state == EvaluateTask || d.state == TaskFailed then 1 else 0) == |expected|
      && Blanks(DoneIds(expected), Lineup(d))
      && forall k :: 0 <= k < |d.completedTasks| ==> d.completedTasks[k].id == expected[k].id
  {
    var expected := c.completedTasks + ParsePlan(text);
    var d0 := Next(c, v, Some(text));
    var d := Run(d0, v, replies);
    PlannedLineup(c, v, text);
    HandledRunBlanksOnly(d0, v, replies);
    LineupSize(d);
    CompletedKeepIds(expected, d);
  }
}
