/**
 * The xstate machine as an object whose context the `assign` actions update in
 * place. The pending deque is a sequence field reassigned by `popFront` and
 * `pushFront`. The completed log is a deque object of its own, because its identity
 * matters: `pushBack` changes it in place, and the reset installs one and the same
 * deque every time. Each method is one invoked service settling with `reply`, and is
 * specified by the step function of `Orchestrator`.
 */
module Machine {
  import opened Wrappers
  import opened Plan
  import opened Orchestrator

  /** A deque of completed tasks, of which only `pushBack` is used. */
  class TaskDeque {
    var items: seq<Task>

    constructor ()
      ensures items == []
    {
      items := [];
    }

    method PushBack(t: Task)
      modifies this
      ensures items == old(items) + [t]
    {
      items := items + [t];
    }
  }

  class AgentMachine {
    /** Which of the two machines this is. */
    const variant: Variant
    /** The completed-log deque the reset action installs, made once with the machine. */
    const resetLog: TaskDeque
    var state: State
    var objective: Option<string>
    var tasks: seq<Option<Task>>
    var completedTasks: TaskDeque
    var currentTask: Option<Task>
    var stalled: bool

    function Snapshot(): Config
      reads this, completedTasks
    {
      Config(state, objective, tasks, completedTasks.items, currentTask, stalled, completedTasks == resetLog)
    }

    /** The invariant of the context; the reset's deque stays empty until it is installed. */
    predicate Valid()
      reads this, completedTasks, resetLog
    {
      Inv(Snapshot()) && (completedTasks != resetLog ==> resetLog.items == [])
    }

    /** The machine as created, in `initial` with the empty context. */
    constructor (variant: Variant)
      ensures Valid() && Snapshot() == Fresh() && this.variant == variant
      ensures fresh(completedTasks) && fresh(resetLog)
    {
      this.variant := variant;
      resetLog := new TaskDeque();
      state := Initial;
      objective := None;
      tasks := [];
      completedTasks := new TaskDeque();
      currentTask := None;
      stalled := false;
    }

    /** `initial`: `getObjective` settled. */
    method GetObjective(reply: Option<string>)
      requires Valid() && state == Initial && !stalled
      modifies this
      ensures Valid() && Snapshot() == Next(old(Snapshot()), variant, reply)
      ensures tasks == old(tasks) && completedTasks == old(completedTasks)
    {
      if reply.Some? {
        objective := reply;
        state := Planning;
      } else {
        stalled := true;
      }
    }

    /** `planning`: `generatePlan` settled with the planner's text. */
    method GeneratePlan(reply: Option<string>)
      requires Valid() && state == Planning && !stalled
      modifies this
      ensures Valid() && Snapshot() == Next(old(Snapshot()), variant, reply)
      ensures reply.Some? ==> |tasks| == |ParsePlan(reply.value)| && state == ExecutingPlan
      ensures completedTasks == old(completedTasks)
    {
      ghost var before := Snapshot();
      assert Next(before, variant, reply) == OnPlan(before, reply);
      if reply.Some? {
        tasks := Pending(ParsePlan(reply.value));
        state := ExecutingPlan;
      } else {
        stalled := true;
      }
      assert Snapshot() == OnPlan(before, reply);
    }

    /**
     * `executingPlan`: `executeNextTask` printed the deque, popped the front task and
     * ran the agent on it. A print that throws comes before the pop.
     */
    method ExecuteNextTask(reply: Option<string>)
      requires Valid() && state == ExecutingPlan && !stalled
      modifies this
      ensures Valid() && Snapshot() == Next(old(Snapshot()), variant, reply)
      ensures tasks == (if TableFails(old(Snapshot()), variant) then old(tasks) else old(tasks)[1..])
      ensures completedTasks == old(completedTasks)
    {
      ghost var before := Snapshot();
      assert Next(before, variant, reply) == OnExecuted(before, variant, reply);
      if variant.printsTable && None in tasks {
        if variant.errorEdge {
          state := TaskFailed;
        } else {
          stalled := true;
        }
      } else {
        var task := tasks[0];
        tasks := tasks[1..];
        if task.Some? && reply.Some? {
          currentTask := Some(task.value.(result := reply));
          state := EvaluateTask;
        } else if variant.errorEdge {
          state := TaskFailed;
        } else {
          stalled := true;
        }
      }
      assert Snapshot() == OnExecuted(before, variant, reply);
    }

    /** `evaluateTask`: `checkSuccess` settled with the judge's text. */
    method CheckSuccess(reply: Option<string>)
      requires Valid() && state == EvaluateTask && !stalled
      modifies this, completedTasks
      ensures Valid() && Snapshot() == Next(old(Snapshot()), variant, reply)
      ensures tasks == old(tasks) && completedTasks == old(completedTasks)
      ensures completedTasks.items == old(completedTasks.items) ||
              completedTasks.items == old(completedTasks.items) + [old(currentTask).value]
    {
      ghost var before := Snapshot();
      assert Next(before, variant, reply) == OnTaskVerdict(before, reply);
      var verdict := Verdict(reply);
      if verdict == Some(true) {
        completedTasks.PushBack(currentTask.value);
        currentTask := None;
        state := if tasks != [] then EvaluateObjective else PlanComplete;
      } else if verdict == Some(false) {
        state := TaskFailed;
      } else {
        stalled := true;
      }
      assert Snapshot() == OnTaskVerdict(before, reply);
    }

    /** `evaluateObjective`: `checkObjectiveSuccess` settled with the judge's text. */
    method CheckObjectiveSuccess(reply: Option<string>)
      requires Valid() && state == EvaluateObjective && !stalled
      modifies this
      ensures Valid() && Snapshot() == Next(old(Snapshot()), variant, reply)
      ensures tasks == old(tasks) && completedTasks == old(completedTasks) && currentTask == old(currentTask)
    {
      ghost var before := Snapshot();
      assert Next(before, variant, reply) == OnObjectiveVerdict(before, reply);
      var verdict := Verdict(reply);
      if verdict == Some(true) {
        state := PlanComplete;
      } else if verdict == Some(false) && tasks != [] {
        state := ExecutingPlan;
      } else {
        stalled := true;
      }
      assert Snapshot() == OnObjectiveVerdict(before, reply);
    }

    /** `taskFailed`: `retryTask` settled with the rewriter's text. */
    method RetryTask(reply: Option<string>)
      requires Valid() && state == TaskFailed && !stalled
      modifies this
      ensures Valid() && Snapshot() == Next(old(Snapshot()), variant, reply)
      ensures tasks == [currentTask] + old(tasks) && completedTasks == old(completedTasks)
    {
      ghost var before := Snapshot();
      var retried := Retried(currentTask, reply);
      currentTask := retried;
      tasks := [retried] + tasks;
      state := ExecutingPlan;
      assert Snapshot() == OnRetried(before, reply);
    }

    /**
     * `planComplete`: `generateAnswer` settled, whatever its outcome, and the reset
     * installs its deque: the first time an empty one, later the very deque the
     * previous runs have been logging into.
     */
    method GenerateAnswer(reply: Option<string>)
      requires Valid() && state == PlanComplete && !stalled
      modifies this
      ensures Valid() && Snapshot() == Next(old(Snapshot()), variant, reply)
      ensures completedTasks == resetLog
      ensures completedTasks.items == (if old(completedTasks) == resetLog then old(completedTasks.items) else [])
    {
      objective := None;
      tasks := [];
      completedTasks := resetLog;
      currentTask := None;
      state := Initial;
    }

    /** The service of the current state settled with `reply`; a stalled machine ignores it. */
    method Deliver(reply: Option<string>)
      requires Valid()
      modifies this, completedTasks
      ensures Valid() && Snapshot() == Next(old(Snapshot()), variant, reply)
      ensures completedTasks == old(completedTasks) || completedTasks == resetLog
    {
      if stalled {
        return;
      }
      match state {
        case Initial => GetObjective(reply);
        case Planning => GeneratePlan(reply);
        case ExecutingPlan => ExecuteNextTask(reply);
        case EvaluateTask => CheckSuccess(reply);
        case EvaluateObjective => CheckObjectiveSuccess(reply);
        case TaskFailed => RetryTask(reply);
        case PlanComplete => GenerateAnswer(reply);
      }
    }

    /** The services settling one after another: the machine ends where `Run` says. */
    method DeliverAll(replies: seq<Option<string>>)
      requires Valid()
      modifies this, completedTasks, resetLog
      ensures Valid() && Snapshot() == Run(old(Snapshot()), variant, replies)
    {
      var i := 0;
      while i < |replies|
        invariant 0 <= i <= |replies|
        invariant Valid()
        invariant completedTasks == old(completedTasks) || completedTasks == resetLog
        invariant Run(old(Snapshot()), variant, replies) == Run(Snapshot(), variant, replies[i..])
      {
        assert replies[i..][1..] == replies[i + 1..];
        Deliver(replies[i]);
        i := i + 1;
      }
    }
  }
}
