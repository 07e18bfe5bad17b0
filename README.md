# babyagi-ts-xstate-langchain, the orchestrator and the agent text protocol, in Dafny

This project models the core of a BabyAGI-style task runner written in TypeScript.
An xstate machine takes an objective, asks a planner for a numbered list of tasks, and then
runs each task with an agent. It asks a judge whether the task succeeded, rewrites and retries
a task the judge rejected, and asks whether the objective is met. When the objective is met it
generates an answer and resets.
The model covers:

- `wrappers.dfy`: `Option` and `Result`.
- `js_string.dfy` (module `JsString`): the JavaScript string operations the source relies on:
  - `trim`;
  - `includes`, `indexOf` and `lastIndexOf`;
  - `split` on a string separator, and `join`;
  - `replaceAll(c, "")` for one character `c` (`Erase`), which is the only form of `replaceAll`
    the source calls;
  - the regex replace that strips runs of `"` from both ends.

  These are written from the ECMAScript definitions. They come with the lemmas the other modules
  need: split and join invert each other, and the last piece of a split is the text after the
  last occurrence. `Replace`, the one-character `replaceAll(c, d)`, is not called by the source.
  It is a device for the proofs: it describes what `parts.slice(1).join()` makes of the text
  that `split(".")` cut at each dot, namely that text with every dot read as ",".
- `plan.dfy` (module `Plan`): the `Task` record and the parser `generatePlan` applies to the
  planner's text. It also holds the renderer of the completed-task log
  (`"<id>. <description>, result: <result>"`, joined with line breaks), which every collaborator
  receives as context.
- `orchestrator.dfy` (module `Orchestrator`): the machine of `src/agentMachine.ts` and of its
  older variant `src/index.ts` as a step function `Next` over the run context.
  - Every invoked service settles once. Its outcome is a `reply: Option<string>`, where `None`
    means the service threw or resolved `undefined`.
  - A `Variant` selects the machine. `errorEdge` holds for `agentMachine.ts`, whose `executingPlan`
    has an `onError` edge, and not for `index.ts`, which has none. `printsTable` says whether
    `executeNextTask` prints the pending deque before popping it: `index.ts` always does, and
    `agentMachine.ts` does when it was constructed `verbose`. `ClassMachine(verbose)` and
    `ScriptMachine` are the two files.
  - The flag `logShared` records that the completed log is the deque the reset action installs.
  - An outcome that no transition handles leaves the machine where it is with nothing more to wait
    for. The context records this as `stalled`.
- `machine.dfy` (module `Machine`): the same machine as a class `AgentMachine`.
  - Its fields are the context the `assign` actions update in place. The pending deque is a
    sequence field reassigned by `popFront` and `pushFront`.
  - The completed log is an object of class `TaskDeque`, changed in place by `PushBack`. The
    machine also holds the one `TaskDeque` that the reset action installs (`resetLog`), so the
    object identity the source relies on is part of the model. `logShared` is then the fact that
    the log is `resetLog`.
  - It has one method per state. Each method's postcondition says the new state is what `Next`
    gives, and that the class invariant is kept.
  - `DeliverAll` runs a whole sequence of outcomes in a loop and ends where `Run` says.
- `agent.dfy` (module `Agent`): the text protocol of `src/agents/agent.ts`:
  - `CustomOutputParser.parse`, with the regular expression `/Action: (.*)\nAction Input: (.*)/s`
    described by a predicate on match positions;
  - the scratchpad and the tool strings `CustomPromptTemplate.format` builds;
  - the fields the `CustomAgent` constructor sets.

The pending deque holds `Option<Task>`, because a failed retry pushes `undefined` to its front.

What the code does on its error paths and across runs:

- The planner never fails on an unparseable reply. `generatePlan` turns any text into at least
  one task (`src/agentMachine.ts:265-271`).
- An executor error does not requeue the task. `executeNextTask` pops the task before the agent
  runs (`src/agentMachine.ts:285`), and the `onError` edge (`src/agentMachine.ts:146-148`) assigns
  nothing.
  - On a first attempt `currentTask` is null, so `retryTask` throws at `currentTask.result`
    (`src/agentMachine.ts:361`) and resolves `undefined`. That `undefined` is pushed to the front
    of the deque.
  - `Orchestrator.FirstAttemptErrorDropsTask` shows the task is lost.
    `Orchestrator.UndefinedFrontCycles` and `Orchestrator.UndefinedFrontForever` show that a
    non-verbose `agentMachine.ts` then cycles between `executingPlan` and `taskFailed` for ever.
  - `index.ts` has no such edge at all, so there the machine stops (`src/index.ts:78-89`).
- An `undefined` slot makes `printTable` throw before the pop (`src/index.ts:213`,
  `src/agentMachine.ts:279`). The library reads each row's keys, and `undefined` has none.
  - `index.ts` then stops with the slot still queued (`Orchestrator.ScriptStopsAtUndefined`).
  - A `verbose` `agentMachine.ts` goes to `taskFailed` without popping, and each retry adds one
    more `undefined` at the front (`Orchestrator.VerboseUndefinedGrows`,
    `Orchestrator.VerboseUndefinedForever`).
- A failing judge call does not fail the transition. It resolves `undefined`, a guard reading
  `event.data.type` throws, and no transition fires. The model treats this as `stalled`.
- The reset does not give the next run an empty log from the second run on.
  - The `assign` object of the reset (`src/agentMachine.ts:221-226`, `src/index.ts:160-165`) holds
    the values `new Deque<Task>()`, not functions. They are evaluated once, when the machine is
    configured, so every reset installs the same deque.
  - The first reset installs it empty. The next run's `pushBack` fills it in place, and the
    second reset installs it again, still full.
  - Run 1 logs into the deque the machine was created with, which the first reset replaces, so
    its tasks never reach a later context. From the third run on, every collaborator sees the tasks
    of every earlier run except the first.
    `Orchestrator.SecondResetKeepsLog` shows this for two one-task runs, and
    `Orchestrator.SharedLogOnlyGrows` shows the log never shrinks again.
  - The reset's pending deque is shared in the same way. The next plan replaces it before
    anything writes to it, so sharing it changes nothing.

## Model

| member | source | states |
|---|---|---|
| Plan.ParsePlan | src/agentMachine.ts:265-271 | One task per line of the trimmed reply: the count is the number of line breaks in the trimmed text plus one, so there is always at least one task. Every task has no result and an id without "." |
| Plan.ParseLine | src/agentMachine.ts:266-270 | A parsed task has no result. Its id holds no ".". Its description holds no ".", "," or double quote |
| Plan.ParseLineParts | src/index.ts:200-206 | The id is the longest prefix of the line without a "." (the whole line when there is none, and then the description is empty). Otherwise the description is the cleanup of the text after the first ".", with later dots read as the "," `join()` puts back |
| Plan.Cleanup | src/agentMachine.ts:269 | After trim and the two `replaceAll`s exactly the characters of the trimmed text other than "," and the double quote remain. No "." is introduced, empty stays empty, and text that is already trimmed and free of both characters comes back unchanged |
| Plan.ParsePlanLine | src/agentMachine.ts:265-271 | A task written as "<id>. <description>" (id and description without ".", line breaks, ",", quotes or outer blanks) parses back to the same task |
| Plan.ParsePlanText | src/agentMachine.ts:265-271 | Parsing a numbered list of such tasks, one per line, gives the tasks back in order |
| Plan.BuyMilkLine | src/agentMachine.ts:265-271 | The line "1. Buy milk" parses to id "1" and description "Buy milk" |
| Plan.RenderContext | src/agentMachine.ts:306-308 | The rendered context is empty exactly when the completed log is empty |
| Plan.RenderContextAppend | src/agentMachine.ts:306-308 | Logging one more task adds exactly its line "<id>. <description>, result: <result>" after a line break. The earlier context stays a prefix, so lines come in completion order |
| Plan.RenderContextLines | src/agentMachine.ts:282-284 | For a non-empty log whose fields hold no line break, splitting the context on line breaks gives back one rendered line per completed task, in order |
| Orchestrator.Next | src/agentMachine.ts:99-231 | Every transition keeps the context invariant. The objective is set outside `initial`. In `initial` and `planning` the deque is empty, and the log is empty unless it is the reset's shared deque. `executingPlan` is only ever entered with a non-empty deque, whose front is the retried task when there is one. `evaluateTask` holds a current task with a result. `evaluateObjective` has pending tasks, so INCOMPLETE with an empty deque cannot occur. `undefined` slots come before every task, and there are none while a task is current. Every completed task has a result |
| Orchestrator.Run | src/index.ts:53-170 | The invariant holds after any sequence of settled services, across any number of runs |
| Orchestrator.ExecutePopsFront | src/agentMachine.ts:277-297 | When the table print does not throw, `executeNextTask` removes exactly the front slot. When it throws, nothing is removed. The completed log and the objective are untouched. The service succeeds exactly when the print passes, the slot holds a task and the agent answered; the new current task then has that task's id and description and the agent's output as result. On failure `currentTask` keeps its old value; `agentMachine.ts` goes to `taskFailed` and `index.ts` stops |
| Orchestrator.TaskSuccessLogs | src/agentMachine.ts:155-179 | TASK_SUCCESS appends the current task to the back of the completed log and clears it. It goes to `evaluateObjective` if tasks are pending and to `planComplete` otherwise. The deque and the objective are unchanged |
| Orchestrator.TaskRejectionRetries | src/agentMachine.ts:316-321 | Every judge reply other than a trimmed "true" rejects, which only moves the machine to `taskFailed` |
| Orchestrator.ObjectiveVerdictKeepsContext | src/agentMachine.ts:186-201 | The objective judge changes no context field. A trimmed "true" goes to `planComplete`, anything else to `executingPlan` |
| Orchestrator.RetriedTaskRunsNext | src/agentMachine.ts:202-214 | The retried task keeps id and result, takes the trimmed rewrite as description, and goes to the front of the deque and into `currentTask`. The next execution runs exactly it |
| Orchestrator.ResetSharesLog | src/agentMachine.ts:215-230 | `planComplete` clears the objective, the pending deque and the current task and returns to `initial`, whatever the answer service did. The completed log becomes the reset's shared deque: empty at the first reset, unchanged at every later one |
| Orchestrator.CompletedOnlyGrows | src/agentMachine.ts:155-182 | The completed log changes only by one append on a success verdict and by the first reset, which empties it |
| Orchestrator.SharedLogOnlyGrows | src/agentMachine.ts:221-226 | Once the log is the reset's deque, it stays so, and whatever it held stays a prefix of it after any number of outcomes and runs |
| Orchestrator.OneTaskRunLogs | src/agentMachine.ts:99-231 | A whole run of a one-task plan that the judge accepts returns to `initial` with the task logged, with the executor's output as its result, behind the log it started with. The log is emptied only when it was not yet the reset's deque |
| Orchestrator.SecondResetKeepsLog | src/agentMachine.ts:221-226 | After two such runs from the initial context the log still holds the second run's task, and the context the third run hands to its collaborators is that task's line |
| Orchestrator.SuccessExtendsContext | src/agentMachine.ts:157-163 | After a success the context the collaborators receive has gained exactly the new task's line |
| Orchestrator.StalledStaysPut | src/index.ts:78-89 | Once no transition handled an outcome, nothing that settles later moves the machine |
| Orchestrator.ScriptStopsAtUndefined | src/index.ts:212-219 | With an `undefined` slot queued, `index.ts` stops at the table print and leaves the deque as it was |
| Orchestrator.FirstAttemptErrorDropsTask | src/agentMachine.ts:146-148 | An executor error on a first attempt (no current task), followed by the retry, leaves `undefined` in place of the popped task. The rest of the deque and the completed log are unchanged |
| Orchestrator.UndefinedFrontCycles | src/agentMachine.ts:202-214 | With an `undefined` front slot and no current task, a non-verbose `agentMachine.ts` goes to `taskFailed`, and two transitions later the context is exactly what it was |
| Orchestrator.UndefinedFrontForever | src/agentMachine.ts:137-149 | ... so any even number of further outcomes leaves the machine in that same context |
| Orchestrator.VerboseUndefinedGrows | src/agentMachine.ts:277-295 | With an `undefined` slot queued, a verbose `agentMachine.ts` throws at the print and goes to `taskFailed` with the context unchanged. The retry then adds one more `undefined` at the front |
| Orchestrator.VerboseUndefinedForever | src/agentMachine.ts:137-149 | ... so 2n further outcomes leave the context as it was with n more `undefined` slots in front, and nothing more is logged |
| Orchestrator.PlannedLineup | src/agentMachine.ts:112-123 | After planning, the lineup is the ids of the log carried over followed by the parsed plan's ids in plan order |
| Orchestrator.ExecutedLineup | src/agentMachine.ts:277-297 | When the step does not stop the machine and the print adds no slot, the ids of completed, in-flight and pending tasks stay in place across `executeNextTask`, except that the error edge on a first attempt blanks the popped task's id |
| Orchestrator.TableFailLineup | src/agentMachine.ts:277-297 | A throwing print with the error edge moves no task and yet reaches `taskFailed`, which puts the current task's slot in front of the pending ones |
| Orchestrator.JudgedLineup | src/agentMachine.ts:155-182 | A handled verdict moves the current task to the completed log without changing any task's place |
| Orchestrator.ObjectiveLineup | src/agentMachine.ts:186-201 | The objective judge moves no task |
| Orchestrator.RetriedLineup | src/agentMachine.ts:202-214 | A retry keeps every place, and blanks the current task's id only when the rewrite failed |
| Orchestrator.StepLineup | src/index.ts:78-153 | Every handled transition of a running machine that adds no slot keeps the ids in place, except that a forgetting one blanks the id of the task it works on |
| Orchestrator.HandledRunBlanksOnly | src/index.ts:78-153 | Along any run of handled outcomes without a throwing print, ids are only ever blanked, never moved, lost or invented |
| Orchestrator.AnsweredRunKeepsLineup | src/index.ts:94-153 | Along a handled run (no stop, no throwing print) in which every collaborator answers, the ids stay exactly in place |
| Orchestrator.PlanAccountedFor | src/index.ts:66-153 | Along a handled run (no stop, no throwing print) from a carried log of L tasks and a plan of N, pending + completed = L + N outside `evaluateTask`/`taskFailed` and L + N - 1 inside them. The completed tasks carry the carried log's ids followed by the plan's, in order |
| Machine.AgentMachine.constructor | src/agentMachine.ts:89-98 | The machine starts in `initial` with no objective, an empty pending deque, a fresh empty log that is not the reset's deque, and no current task |
| Machine.AgentMachine.GetObjective | src/agentMachine.ts:100-111 | The state after `getObjective` settles is what `Next` gives, and the invariant holds. The deques are untouched |
| Machine.AgentMachine.GeneratePlan | src/agentMachine.ts:112-123 | After `generatePlan` the deque holds one slot per parsed task and the machine executes, as `Next` says |
| Machine.AgentMachine.ExecuteNextTask | src/agentMachine.ts:277-297 | When the print passes, `popFront` removes exactly the front slot; when it throws, the deque is unchanged. The log is untouched, and the state is what `Next` gives |
| Machine.AgentMachine.CheckSuccess | src/agentMachine.ts:151-185 | The deque is untouched, and the same log object either stays as it was or gains the old current task at its back, as `Next` says |
| Machine.AgentMachine.CheckObjectiveSuccess | src/agentMachine.ts:186-201 | Only the state changes, as `Next` says |
| Machine.AgentMachine.RetryTask | src/agentMachine.ts:202-214 | `pushFront` puts the new current task at the front of the old deque, and the completed log is untouched |
| Machine.AgentMachine.GenerateAnswer | src/agentMachine.ts:215-230 | The log becomes the reset's deque object. Its contents are empty at the first reset and kept at later ones. The rest of the context is reset as `Next` says |
| Machine.AgentMachine.Deliver | src/agentMachine.ts:99-231 | Delivering an outcome in any state does what `Next` says and keeps the invariant |
| Machine.AgentMachine.DeliverAll | src/index.ts:53-170 | Delivering a sequence of outcomes ends where `Run` says |
| Machine.TaskDeque.PushBack | src/agentMachine.ts:158-161 | `pushBack` appends the task at the back of the deque, in place |
| Agent.Parse | src/agents/agent.ts:87-105 | The log is always the input text. A tool input never starts or ends with a double quote. A failure carries "Could not parse LLM output: " followed by the text |
| Agent.FinishAfterLast | src/agents/agent.ts:88-93 | A reply containing "Final Answer:" always finishes, with the reply as log |
| Agent.ActionOf | src/agents/agent.ts:95-104 | Without a match the result is the parse error. With one it is an action whose log is the reply and whose input has no outer quotes |
| Agent.ActionAt | src/agents/agent.ts:100-104 | The action built from the two groups has the reply as log and an input without leading or trailing quotes |
| Agent.ActionMatch | src/agents/agent.ts:95 | A computed match has "Action: " at its start and "\nAction Input: " at its end, with the first group between them |
| Agent.ActionMatchIsRegex | src/agents/agent.ts:95-98 | The computed match is the leftmost, greedy match of the regular expression. When none is computed, no placement of the two markers matches |
| Agent.RegexMatchUnique | src/agents/agent.ts:95 | The regular expression matches in at most one way |
| Agent.MatchIsComputed | src/agents/agent.ts:95 | Every match of the regular expression is the computed one |
| Agent.ParseFinalAnswer | src/agents/agent.ts:88-93 | With "Final Answer:" present, parse finishes with the trimmed text after its last occurrence, whatever else the reply holds. That output holds no further "Final Answer:" |
| Agent.ParseAction | src/agents/agent.ts:95-104 | Without "Final Answer:", a match gives the action whose tool is the trimmed first group and whose input is the trimmed second group with its outer quotes stripped |
| Agent.ParseFails | src/agents/agent.ts:88-98 | parse fails exactly when there is neither a "Final Answer:" nor any match |
| Agent.StepTextShape | src/agents/agent.ts:65-67 | One step contributes its log, a line break, "\nObservation: " and the observation, a line break and "Thought:" |
| Agent.FoldIsConcat | src/agents/agent.ts:64-69 | The reduction appends the steps' texts to its seed in step order |
| Agent.ScratchpadAppend | src/agents/agent.ts:64-69 | The scratchpad is "" for no steps and grows by exactly one step's text per step |
| Agent.TemplateValues | src/agents/agent.ts:64-72 | The caller's `intermediate_steps` are the argument `steps`, from which the scratchpad is computed. Every value the caller passed is kept, a caller's `agent_scratchpad` included, which overrides the computed one. The only other key is `agent_scratchpad` |
| Agent.ToolNames | src/agents/agent.ts:59 | The names list is parallel to the tools |
| Agent.ToolStringsLines | src/agents/agent.ts:56-58 | For a non-empty tool list whose names and descriptions hold no line break, reading the tool strings line by line gives "name: description" for each tool, in tool order |
| Agent.ToolNamesLines | src/agents/agent.ts:59 | For a non-empty tool list whose names and descriptions hold no line break, reading the name list line by line gives the tool names, in tool order |
| Agent.NewCustomAgent | src/agents/agent.ts:116-120 | A missing tool list becomes []. `toolsNames` is parallel to `tools` |
| JsString.StripQuotes | src/agents/agent.ts:102 | The result is the slice of the input between a leading and a trailing run of `"`. It neither starts nor ends with `"` |
| JsString.EraseAppend | src/agentMachine.ts:269 | `replaceAll(c, "")` works piece by piece, so what it keeps stays in its order |
| JsString.SplitLastAfterLastIndex | src/agents/agent.ts:89-90 | For a non-empty separator whose first character does not recur in it, the last piece of `split` is the text after `lastIndexOf`, and that text holds no further occurrence |
| JsString.SplitCharCount | src/agentMachine.ts:265 | Splitting on one character gives one more piece than that character occurs |
| JsString.JoinSplit | src/agentMachine.ts:265-266 | `split` loses no text: joining the pieces with the separator gives the string back |

## Left out

- The LLM chains (`src/chains/*.ts`) and the agent executor are not part of this model. Each collaborator call is an arbitrary outcome (`reply`), `None` when it threw or resolved `undefined`.
- The `inquirer` prompt of `getObjective`: the typed objective is the outcome.
- Console output and colours.
- JavaScript strings are sequences of UTF-16 code units; the model's `string` is a sequence of Unicode scalar values, so a lone surrogate cannot be represented. Every separator and marker the source splits or searches on is ASCII, so no modelled result depends on this.
- Agent.TemplateValues: the caller's `intermediate_steps` entry of `input` (`src/agents/agent.ts:64`) is passed as the separate argument `steps`, and `input` holds only string values; the model does not state that the same key stays in the values handed to the template.
- `printTable` is not modelled beyond one fact: it throws on an `undefined` row, because console-table-printer reads the keys of every row. That library is not part of this model.
- The `taskRunner` actor, `spawn`, `sendTo` and the `TASK_COMPLETE_BY_RUNNER` handler of `src/agentMachine.ts:127-135`. They are an asynchronous side channel, and the handler returns the objective unchanged, so it changes no context field.
- xstate's scheduling: each service is taken to settle exactly once, in order.
- `renderTemplate`, the prompt texts and `formatInstructions`. The model stops at the values handed to the template, the scratchpad and the tool strings.
- The tool list `generatePlan` passes to the planner (`src/agentMachine.ts:261-263`): it only feeds a prompt.
- The tools that need the network (OpenAI, SerpAPI, WebBrowser, Calculator).
- The details of the JavaScript `TypeError`s: a guard reading `event.data.type` of `undefined` is modelled as no transition (`stalled`), and `retryTask` with a null current task as `undefined`.
- `Deque.pushFront` is taken to return the deque, since `taskFailed` stores its return value as `tasks`.
