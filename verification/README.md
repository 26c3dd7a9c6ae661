# flunq.io: verified model of the workflow services

flunq.io runs Serverless Workflow DSL 1.0.0 definitions with four services around Redis streams. An
API service appends the start event of an execution. A worker rebuilds an execution's state from the
stream, applies the event that woke it up, and publishes one next event. An executor answers task
requests. A timer service turns scheduled timers into timer.fired events. Every message is delivered
at least once, so each of these steps may be repeated at any time. There is one stream per tenant and
workflow, and a history is read stream by stream, in whatever order Redis lists them.

This project states in Dafny what these services do and proves properties of it over all inputs and
all runs. `dafny verify dfyconfig.toml` checks all of it.

| module | models |
|---|---|
| `Values`, `Int64` | optional values, decoded JSON, Go's 64-bit integers |
| `Replay`, `ReplayLaws` | events and the state that a history replays to, as a fold; what that fold means |
| `Engine` | the engine's mutable state object, with output and variables sharing one struct |
| `Jq`, `CallPaths` | the two path evaluators, the expression rewriter and the path splitter |
| `Effects` | what each event does to a replayed state, field by field |
| `Worker` | task lists, the next step, the events the worker builds, and the worker over a stream |
| `Publications`, `Expressions` | what a worker's step publishes, and what expressions yield on its state |
| `Reads` | what reading several tenant streams one after the other does to the replayed state |
| `Protocol`, `Safety` | worker, executor and timer service as one state machine, and its invariant |
| `Progress` | how completed tasks fill the task list when retries complete tasks out of order |
| `Guarantees`, `SetTasks` | what holds in every run, and what a set task leaves behind |
| `Runs`, `Exactness` | runs that reach what can be reached, and runs that show where a guarantee ends |
| `LockTable`, `LockedWorkers` | the double-checked lock table, and workers synchronised by it |
| `Delivery` | consumer groups: filtering, attempts, dead letters, acknowledgement |
| `Timers` | the scheduler over a sorted set, alone and interleaved |
| `Backoff`, `Retry`, `TryResults` | retry delays, error matching, the try loop and what it comes back with |
| `Paging` | filtering, pages and page metadata of the workflow listing |

A run of a state machine is any sequence of steps; a step that is not enabled changes nothing. So a
statement about all sequences is one about all reachable states. A worker's read of the history
(`Deliver`) and its publication (`Commit`) are separate steps, and the stream may grow in between.
Workers, executors and timers repeat steps freely, workers may crash (`Abandon`), and without
`locked` any number of them run at once. Methods of the classes are proved equal to the functions on
which the lemmas are stated.

Where the code does not do what its comments, its documentation or the DSL promise, the code is
modelled and the exact condition is proved:

- A retry that is put off through the timer service fires as the completion of `<task>_retry`. Such
  a name counts as a completed task, and what that does depends on where the name stands:
  - `Plain`: it is always the name of an earlier task, and the tasks stay in order.
  - `LastOnly`: it is a new name for the last task only. In all runs no task starts before its
    predecessors completed, and none behind a failed task is touched, if and only if this holds
    (`Exactness.NothingStartsEarlyIff`, `Exactness.FailureIsFinalIff`).
  - `InStep`: it is a new name for the last task, or the name of the task right behind. In all runs
    workers publish nothing for an execution with a failed or unanswered task, if and only if this
    holds (`Exactness.FailureStopsWorkersIff`). `Exactness.WorkersGoOnAfterFailure` is a run in
    which a worker goes on past a failed task.
  - `Contained`: it is the name of some task, but for the last task. In all runs workflow.completed
    means that all tasks completed, if and only if this holds (`Exactness.CompletedMeansAllTasksIff`).
    `Exactness.DelayedRetrySkipsTask` is a run that skips a task.

  The last three conditions are exact where task names are distinct, all tasks can start and no set
  data names `now` (`Runnable`). The guarantees hold without that, but for distinct names in the
  last. In every configuration a worker that read of a failed task without success does not report
  the execution completed (`Guarantees.FailedIsNotReported`), and with the lock this holds at the
  moment of the publication (`Guarantees.FailureIsNotReportedOver`).
- A try task puts off retries, for some responses, if and only if it catches some error and its
  policy lets one of the five attempts wait (`Retry.PutsOffIff`).
- That timer has no tenant, so it lands in the default tenant's stream, which may be read first. The
  completed tasks are an initial part of the task list, in all runs and for every order of reading,
  if and only if the configuration is plain and no put-off retry repeats, from the default stream into
  another tenant's execution, a task other than the first
  (`Exactness.InOrderIffNoDelayedRetries`). `InSequence` below means that condition.
- No task is requested twice, in all runs, if and only if the workers share the workflow's lock or no
  task that can be reached runs in the executor (`Exactness.RequestsOnceIffLocked`).
- In a plain configuration, an execution can be reported completed if and only if its task names are
  distinct and each task can start (`Runs.CanFinishIff`).
- An expression that names `now` without calling it yields a Go function, which cannot be stored: the
  whole input of the set task is lost and the task cannot start (`Worker.StartFailsIff`,
  `Jq.NamesNowIff`). `NowFree` means that no set data does so; the runs that are constructed here are
  for such definitions.
- What a set task writes reaches only the worker that runs it. In every run, an expression on a
  replayed state sees a value if and only if a start event, an executor's answer or an event from
  outside wrote it last (`SetTasks.ExpressionSeesOutsideOnly`, `SetTasks.SetTasksLeaveNoTrace`);
  `SetTasks.SetVariablesAreLost` is a run that loses them all.
- An error that escapes the catch filter does not end the try loop: Go's `switch` does not fall
  through from the empty fail case. An attempt limit is therefore kept for all responses if and only
  if it is at least five or every entry of the filter matches the errors of all rejected responses
  (`Retry.AttemptLimitIsKeptIff`; `Retry.UnavailableServiceIsLost` is a 503 under a filter for
  authentication errors).
- executor/README.md:245 promises that a task fails after exhausted retries. It succeeds if and only
  if all recovery tasks recover, and so whenever there are none (`Retry.ExhaustedRetriesSucceedIff`,
  `Retry.UnavailableServiceSucceeds`).
- A catch filter on the error's status matches nothing, because a decoded JSON number is never equal
  to a Go int (`Retry.StatusFilterCatchesNothing`).
- A wait lasts its full duration, in all runs, if and only if there is nothing to wait for or the
  whole-second fire time and the lookahead cut nothing off (`Timers.FullWaitIff`).
- Joining inverts splitting, and the two path evaluators agree, if and only if no part of the path is
  empty (`CallPaths.JoinInvertsSplitIffTidy`, `CallPaths.EvaluatorsAgreeIffNoEmptyPart`).
- A page is right if and only if its offset does not wrap to a place inside or before the list, and
  its neighbours are announced correctly under like conditions (`Paging.PageIsRightIff`,
  `Paging.NextPageIff`, `Paging.PreviousPageIff`). By offset, the page number fits the neighbours if
  and only if the offset is a multiple of the limit and the next offset fits in 64 bits
  (`Paging.OffsetPageNumberIsRightIff`). The applied filters of an empty list are not reported
  (`Paging.ApplyWorkflowFilters`).

## Model

| member | source | states |
|---|---|---|
| `Engine.WorkflowState.ProcessEvent` | worker/internal/engine/serverless_workflow_engine.go:211-241 | Applying an event in place, with output aliased to variables, changes the state as the pure step does, for every event type and malformed payload. |
| `Engine.WorkflowState.ProcessStarted` | worker/internal/engine/serverless_workflow_engine.go:267-324 | Starting sets RUNNING, routing, context, input and variables as the specification says. |
| `Engine.WorkflowState.ProcessRequested` | worker/internal/engine/serverless_workflow_engine.go:327-356 | A request appends a pending task with the event's name, activity and input. |
| `Engine.WorkflowState.ProcessCompletion` | worker/internal/engine/serverless_workflow_engine.go:359-541 | A completion fails the workflow, or removes the pending task, merges the output and adds the name once; output and variables then share one struct. |
| `Engine.WorkflowState.RemoveFromPending` | worker/internal/engine/serverless_workflow_engine.go:507-526 | The in-place removal takes out the first pending task of that name and nothing else. |
| `Engine.RebuildState` | worker/internal/engine/serverless_workflow_engine.go:176-208 | The replay loop over one mutable state yields the fold of the history. |
| `ReplayLaws.CompletedIsDone` | worker/internal/engine/serverless_workflow_engine.go:359-541 | For every history the completed list is the deduplicated list of successful completions and timer firings. |
| `ReplayLaws.DedupKeepsFirstOccurrences` | worker/internal/engine/serverless_workflow_engine.go:435-441 | That list holds exactly the names that succeeded, once each, ordered by first occurrence. |
| `ReplayLaws.StatusIsLastSet` | worker/internal/engine/serverless_workflow_engine.go:176-608 | The status is the one set by the last status-bearing event, or CREATED. |
| `ReplayLaws.VariableIsLastWritten` | worker/internal/engine/serverless_workflow_engine.go:176-608 | Every variable holds its last writer's value and is absent when nothing wrote it. |
| `ReplayLaws.PendingIsOutstanding` | worker/internal/engine/serverless_workflow_engine.go:327-541 | The pending list holds each name as often as the history has requests of it that no later success answered. |
| `ReplayLaws.RequestedStaysVisible` | worker/internal/engine/serverless_workflow_engine.go:327-541 | After any replay a requested task is pending or completed. |
| `ReplayLaws.ReapplyingKeepsCompleted` | worker/internal/processor/workflow_processor.go:391-455 | For every history, applying one of its events again leaves the completed list alone. |
| `ReplayLaws.ContextComesFromStart` | worker/internal/engine/serverless_workflow_engine.go:267-324 | The state has its execution's identity if and only if the history contains the start event. |
| `Effects.AnswerIsMerged` | worker/internal/engine/serverless_workflow_engine.go:452-504 | After any history, a successful answer of the executor merges its output field by field into the variables, and the workflow's output shares them. |
| `Effects.AnswerIsRecorded` | worker/internal/engine/serverless_workflow_engine.go:435-526 | It removes the first pending task of the request's name, and adds a completed task with that name, the request's input and this output unless the name is there. |
| `Effects.FailureIsRecorded` | worker/internal/engine/serverless_workflow_engine.go:412-433 | An answer without success fails the workflow, adds exactly the error message and the failed task's name to the variables, and leaves both lists alone. |
| `Effects.NameOfCompletion` | worker/internal/engine/serverless_workflow_engine.go:364-385 | A completion is for the first name among its own, that in its section `data` and that in its section `event`. |
| `Effects.FirstIsRemoved` | worker/internal/engine/serverless_workflow_engine.go:507-526 | The first pending task of a name goes and no other. |
| `Effects.FiringIsRecorded` | worker/internal/engine/serverless_workflow_engine.go:1767-1790 | A timer that fires completes its task once, takes it from the pending ones and writes no variable. |
| `Effects.RetryTimerIsIgnored` | worker/internal/engine/serverless_workflow_engine.go:1767-1790 | A timer that says it is for a retry changes nothing in the state. |
| `Effects.RequestIsPending` | worker/internal/engine/serverless_workflow_engine.go:327-356 | A request is pending afterwards with the name, type, queue, activity and input that it says. |
| `Effects.StartIsApplied` | worker/internal/engine/serverless_workflow_engine.go:267-324 | A start sets status, routing, identity, correlation and trigger, and its input becomes the recorded input and variables. |
| `Effects.CreationIsApplied` | worker/internal/engine/serverless_workflow_engine.go:244-264 | A creation adds the workflow's name to the variables. |
| `Effects.StepIsApplied` | worker/internal/engine/serverless_workflow_engine.go:544-565 | A completed step becomes the current one, with its result in the variables. |
| `Effects.CompletionIsApplied` | worker/internal/engine/serverless_workflow_engine.go:568-583 | The report of completion completes the workflow with its output. |
| `Effects.WorkflowFailureIsApplied` | worker/internal/engine/serverless_workflow_engine.go:586-608 | A failed workflow keeps the error and its code in the variables. |
| `Effects.HalfFailures` | worker/internal/engine/serverless_workflow_engine.go:586-608 | A failed workflow that says only its error or only its code keeps only that. |
| `Effects.HalfSteps` | worker/internal/engine/serverless_workflow_engine.go:544-565 | A completed step without a result, or without a name, has only the other applied. |
| `Effects.SilentEvents` | worker/internal/engine/serverless_workflow_engine.go:244-608 | Without the entries they look for, events set the status at most. |
| `Effects.EventsWithoutData` | worker/internal/engine/serverless_workflow_engine.go:244-608 | An event whose data is no object sets the status at most, and a start also the routing. |
| `Effects.OthersAreIgnored` | worker/internal/engine/serverless_workflow_engine.go:211-241 | Scheduled timers, other types, and task events without an object for data change nothing. |
| `Effects.NothingReplayed` | worker/internal/engine/serverless_workflow_engine.go:176-187 | The empty history replays to a new state of that definition. |
| `Worker.StartFailsIff` | worker/internal/engine/serverless_workflow_engine.go:611-690 | Starting a task fails if and only if the definition lacks set data or a duration that parses, or the set data evaluates to the function `now`, which cannot be stored. |
| `Worker.EventStream.Publish` | shared/pkg/eventstreaming/redis_stream.go:41-72 | An event goes to the stream of its tenant and workflow, and every stream stays the part of the publication log that is its own. |
| `Worker.EventStream.GetEventHistory` | shared/pkg/eventstreaming/redis_stream.go:197-256 | The history of a workflow is its tenants' streams one after the other, in the order in which they are listed. |
| `Worker.WorkflowProcessor.FetchEventHistoryForExecution` | worker/internal/processor/workflow_processor.go:528-574 | An execution's history is exactly its own events, stream by stream in the order listed. |
| `Worker.WorkflowProcessor.GetNextTask` | worker/internal/engine/serverless_workflow_engine.go:611-690 | The next task is the one at the index of the completed count, unless it is pending or completed. |
| `Worker.WorkflowProcessor.ExecuteSetTask` | worker/internal/engine/serverless_workflow_engine.go:1180-1220 | Set data is merged into the worker's own variables; nothing else that the next event depends on changes. |
| `Worker.WorkflowProcessor.CompleteSetTask` | worker/internal/processor/workflow_processor.go:957-1057 | A set task publishes a completion that carries each entry of its data evaluated in the workflow context, or all of them as written if one cannot be evaluated, and merges the same values into the worker's variables; it fails without set data. |
| `Worker.WorkflowProcessor.ExecuteNextStep` | worker/internal/processor/workflow_processor.go:957-1057 | The step publishes exactly the request, timer, set completion or workflow completion that the state calls for, or nothing; after a set task the worker's variables hold what the completion carries. |
| `Worker.WorkflowProcessor.ProcessWorkflowEvent` | worker/internal/processor/workflow_processor.go:341-481 | Processing an event appends to the stream exactly what the specification decides from the history at the time of the read. |
| `Publications.TakenEventCounts` | worker/internal/processor/workflow_processor.go:341-481 | Creations and completions from others than executor and engine are skipped; any other event is decided on as if it ended the history read, even if that lacks it. |
| `Publications.TasksAreListed` | worker/internal/engine/serverless_workflow_engine.go:705-733 | Tasks run in the order of their items, or under four fixed names. |
| `Publications.TypeOfFirst` | worker/internal/engine/serverless_workflow_engine.go:811-875 | The first item of a name gives the type: `set` before `wait` before `call` before a `try` that holds a task. |
| `Publications.WaitIsPublished` | worker/internal/processor/wait_scheduler.go:27-50 | A wait task schedules a timer for its execution under its name, whose fire time lies in the last second up to now plus the parsed duration. |
| `Publications.DurationText` | worker/internal/engine/serverless_workflow_engine.go:1132-1161 | `PTnS`, `PTnM` and `PTnH` become n seconds, minutes and hours. |
| `Publications.OtherDuration` | worker/internal/engine/serverless_workflow_engine.go:1132-1161 | Any text of another form becomes one second. |
| `Publications.WorkersWaitIsAlmostFull` | timer/internal/processor/timer_processor.go:348-376 | In every interleaving of the timer service, the timer that a worker published fires less than a second plus the lookahead before the duration is over. |
| `Publications.FireTimeIsPublished` | worker/internal/processor/wait_scheduler.go:27-50 | The published fire time is the one that the exact condition for full waits is about. |
| `Publications.SetIsPublished` | worker/internal/processor/workflow_processor.go:1069-1123 | A set task publishes its success with its entries evaluated, or as written if one fails. |
| `Publications.RequestIsPublished` | worker/internal/processor/workflow_processor.go:645-818 | A task of the executor is requested under its name and type with its input, for its execution and tenant. |
| `Publications.CompletionIsPublished` | worker/internal/processor/workflow_processor.go:821-878 | The report of completion carries the output of the state, shared or its own. |
| `Expressions.RootExpression` | shared/pkg/jq/evaluator.go:74-84 | `.` and `$.` before a path lead to what direct navigation from the root finds, whatever white space surrounds it. |
| `Expressions.WorkflowExpression` | shared/pkg/jq/evaluator.go:62-72 | `$workflow.` before a path leads to what direct navigation from the field `workflow` finds. |
| `Expressions.BareName` | shared/pkg/jq/evaluator.go:86-92 | A bare name is a field of the root. |
| `Expressions.OtherTexts` | shared/pkg/jq/evaluator.go:24-60 | Text without the braces is its own value, empty text fails, and `now()` is the formatted time. |
| `Expressions.BracketsAreRefused` | shared/pkg/jq/evaluator.go:98-131 | A part with both brackets leads nowhere. |
| `Expressions.NameIsSeen` | worker/internal/engine/serverless_workflow_engine.go:1380-1417 | `${.x}`, `${$.x}` and `${x}` yield variable x, or else input x. |
| `Expressions.SectionIsSeen` | worker/internal/engine/serverless_workflow_engine.go:1380-1417 | `${$workflow.variables.x}` yields variable x and `${$workflow.input.x}` input x. |
| `Progress.AskedInTurn` | worker/internal/engine/serverless_workflow_engine.go:611-690 | In an ordered stream a requested task is an executor task of the list, all tasks before it are completed and could be, and its name is new. |
| `Progress.DoneIsShaped` | worker/internal/engine/serverless_workflow_engine.go:611-690 | Where no put-off retry displaces a task (`InStep`), an execution has completed, in some order, exactly the tasks up to a place in the list, or these and one name more: the put-off retry of the open task at that place, or of the last task. |
| `Progress.RetryIsDone` | executor/internal/executor/try_task_executor.go:471-523 | In a plain configuration, a put-off retry carries the name of a task that its execution has completed. |
| `Progress.DoneIsPrefix` | worker/internal/engine/serverless_workflow_engine.go:611-690 | In a plain configuration, every execution's completed list is an initial part of the task list, in order. |
| `Reads.SameEventsSameDone` | shared/pkg/eventstreaming/redis_stream.go:197-256 | Two readings of the same events have completed the same tasks, in whatever order. |
| `Reads.StraysDoNotReorder` | shared/pkg/eventstreaming/redis_stream.go:197-256 | Two streams of which one only repeats the first completed task replay to the completed list of the publication order, whichever is read first. |
| `Reads.OutstandingInReads` | shared/pkg/eventstreaming/redis_stream.go:197-256 | However the streams are ordered, a task is pending no more often than its own stream leaves it outstanding. |
| `Safety.ReplayHasDone` | worker/internal/processor/workflow_processor.go:528-621 | Every reading of an execution's streams replays to exactly the tasks it has completed, as a set and in number. |
| `Safety.DecidedState` | worker/internal/processor/workflow_processor.go:391-455 | The state a worker decides on has completed what the execution has, carries its identity, and has pending whatever was requested and not completed. |
| `Safety.DecisionIsSourced` | worker/internal/processor/workflow_processor.go:957-1057 | In every configuration, what a worker publishes is for the execution of the event it took, goes to that tenant's stream, and was the next task, or no open task, in what it read. |
| `Safety.DecisionIsOk` | worker/internal/processor/workflow_processor.go:957-1057 | Where no put-off retry displaces a task, what a worker publishes from an outdated read still fits the stream as it is then: its task is in turn, or the whole list is completed. |
| `Safety.StepKeepsInv` | worker/internal/processor/workflow_processor.go:341-481 | Where no put-off retry displaces a task (`InStep`), every step of every service keeps the invariant linking requests, timers, reads and task order. |
| `Guarantees.StepKeepsSourceInv` | worker/internal/processor/workflow_processor.go:341-481 | In every configuration, each step keeps that answers, timers and retries have requests behind them, and publications of workers have the read behind them that they were decided on, each in its tenant's stream. |
| `Guarantees.CompletedIsPrefix` | worker/internal/engine/serverless_workflow_engine.go:611-690 | Under `InSequence`, in every run and at every moment, every reading of an execution's streams replays to an initial part of the task list, whatever is redelivered, answered or fired twice and with any number of unlocked workers. |
| `Guarantees.NothingStartsEarly` | worker/internal/processor/workflow_processor.go:957-1057 | Where at most the last task adds a retry's name (`LastOnly`), every event that requests, schedules, sets or completes a task of the list comes after the completion of all its predecessors, and an event about another name is about that retry; in a plain configuration there is none. |
| `Guarantees.CompletedMeansAllTasks` | worker/internal/processor/workflow_processor.go:993-1017 | Under `InStep`, when workflow.completed enters the stream its execution has completed the whole task list, and in order if the configuration is plain. |
| `Guarantees.CompletedMeansEnoughTasks` | worker/internal/processor/workflow_processor.go:993-1017 | In every configuration with tasks it has then completed as many as the list has, and all of the list unless a name outside the list is among them. |
| `Guarantees.CompletedMeansListed` | worker/internal/processor/workflow_processor.go:993-1017 | If names are distinct and the retries of all tasks but the last have names of tasks (`Contained`), it has completed all tasks, whatever was displaced. |
| `Guarantees.CompletesExactlyWhenDone` | worker/internal/processor/workflow_processor.go:993-1017 | Under `InStep`, a worker publishes workflow.completed if and only if all tasks, with distinct names, are completed in what it read and nothing is pending in the state it decided on. |
| `Guarantees.OpenIsNotReported` | worker/internal/processor/workflow_processor.go:993-1009 | In every configuration, a worker that read of a requested task without success does not report the execution completed. |
| `Guarantees.FailedIsNotReported` | worker/internal/engine/serverless_workflow_engine.go:412-433 | Nor does one that read of a failed task without success, in every configuration. |
| `Guarantees.FailureIsNotReportedOver` | worker/internal/processor/workflow_processor.go:361-364 | With the lock in every configuration, and without it under `InStep` or `Contained`: at the moment at which an execution is reported completed every requested and every failed task of it has a success. |
| `Guarantees.UnansweredTaskBlocks` | worker/internal/engine/serverless_workflow_engine.go:651-658 | Under `InStep`, processing any event of an execution publishes nothing while a requested task has no success in what was read. |
| `Guarantees.FailureStopsWorkers` | worker/internal/engine/serverless_workflow_engine.go:412-433 | Under `InStep`, processing any event of an execution publishes nothing while a task that failed has no success in what was read. |
| `Guarantees.FailureIsFinal` | worker/internal/processor/workflow_processor.go:993-1009 | Under `LastOnly`, while a failed task has no success, over a whole run, all tasks before it are completed and no event is about a task behind it; in a plain configuration it stays the next task. |
| `Guarantees.DecisionRequestsNewTask` | worker/internal/engine/serverless_workflow_engine.go:651-667 | A worker requests only tasks that the history it read had no request for. |
| `Guarantees.AtMostOneRequest` | worker/internal/processor/workflow_processor.go:361-364 | Workers sharing the workflow's lock request each task at most once per execution, over the whole run and with put-off retries too. |
| `Guarantees.ReapplyingIsHarmless` | worker/internal/processor/workflow_processor.go:391-455 | In a plain configuration and under the lock, applying the taken event to the replay that contains it changes neither completed nor pending tasks. |
| `Guarantees.PublishesForOwnExecution` | worker/internal/processor/workflow_processor.go:645-818 | On any stream, processing an event of one execution publishes only for that execution or for none. |
| `Guarantees.ExecutionsDoNotInterfere` | worker/internal/processor/workflow_processor.go:528-574 | From any system state, a worker's publication leaves the replayed state of every other execution unchanged. |
| `SetTasks.SetTasksLeaveNoTrace` | worker/internal/processor/workflow_processor.go:1069-1123 | In every run a replay gives expressions the same data as the replay without the completions of set tasks. |
| `SetTasks.ReplayedVariable` | worker/internal/engine/serverless_workflow_engine.go:176-608 | A replayed variable has a value if and only if some event of the history writes that value and no later event writes the variable. |
| `SetTasks.ExpressionSeesOutsideOnly` | worker/internal/engine/serverless_workflow_engine.go:1380-1417 | In every run an expression on a replayed state sees a value, under any name but `workflow` and `now`, if and only if a start event, an executor's answer or an outside event wrote it last. |
| `SetTasks.SetVariablesAreLost` | worker/internal/processor/workflow_processor.go:1069-1123 | A run in which the first task, a set task with data, is completed on the state that the worker read, writes its evaluated data there, and every reading replays to no variables at all. |
| `Runs.RunTo` | worker/internal/processor/workflow_processor.go:341-481 | Every reachable task of a definition whose set data does not name `now` is reached in some run. |
| `Runs.CanFinishIff` | worker/internal/processor/workflow_processor.go:957-1057 | In a plain configuration whose set data does not name the function `now`, some run reports an execution completed if and only if the task names are distinct and every task can start. |
| `Exactness.InOrderIffNoDelayedRetries` | executor/internal/executor/try_task_executor.go:471-523 | If no set data names `now` (`NowFree`), every reading of every run is in order if and only if no reachable try task puts off a retry, except under the name of an earlier task, which for a tenant with a stream of its own must be the first. |
| `Exactness.DelayedRetryBreaksOrder` | timer/internal/processor/timer_processor.go:382-415 | Otherwise a run is constructed in which the retry timer completes a task out of turn. |
| `Exactness.NothingStartsEarlyIff` | executor/internal/executor/try_task_executor.go:471-523 | For `Runnable` definitions (names are distinct, all tasks can start and no set data names `now`), in all runs no task of the list is touched before its predecessors completed, if and only if at most the last task adds a retry's name. |
| `Exactness.TaskBehindStarts` | timer/internal/processor/timer_processor.go:382-415 | Otherwise a run is constructed with a failed task without success and an event about the task behind it, published by a worker or, if it has the retry's name, by the retry. |
| `Exactness.FailureIsFinalIff` | executor/internal/executor/try_task_executor.go:471-523 | For `Runnable` definitions, in all runs no task behind a failed one is touched, under the same exact condition. |
| `Exactness.FailureStopsWorkersIff` | worker/internal/engine/serverless_workflow_engine.go:611-690 | For `Runnable` definitions, in all runs workers publish nothing while a task that they read of has failed, and also while one is unanswered, if and only if no put-off retry displaces a task (`InStep`). |
| `Exactness.WorkersGoOnAfterFailure` | timer/internal/processor/timer_processor.go:382-415 | If no set data names `now` (`NowFree`), and a put-off retry adds a name that is not the task behind, and that task is new and can start, then in some run a worker publishes an event about it although the task before it failed and has no success. |
| `Exactness.DelayedRetrySkipsTask` | timer/internal/processor/timer_processor.go:382-415 | If no set data names `now` (`NowFree`), and a put-off retry adds a name of its own and the tasks from the next but one on are new and can start, then some run reports the execution completed without the next task ever having run, whether or not it can start. |
| `Exactness.CompletedMeansAllTasksIff` | worker/internal/processor/workflow_processor.go:993-1017 | For `Runnable` definitions, workflow.completed means in all runs that all tasks completed, if and only if the retries of all tasks but the last have names of tasks. |
| `Exactness.RequestsOnceIffLocked` | worker/internal/processor/workflow_processor.go:361-364 | If no set data names `now` (`NowFree`), no task is requested twice in any run if and only if the workers share the lock or no task that can be reached runs in the executor. |
| `Exactness.TwoWorkersRequestTwice` | worker/internal/processor/workflow_processor.go:341-481 | Without the lock, if no set data names `now`, for every reachable executor task a run is constructed in which two workers request it. |
| `LockTable.OnlyOneInside` | worker/internal/processor/workflow_processor.go:361-364 | In every interleaving at most one goroutine is in the critical section of a workflow. |
| `LockTable.EntriesStay` | worker/internal/processor/workflow_processor.go:484-504 | Entries of the lock table are never removed or overwritten. |
| `LockTable.SameMutexForAll` | worker/internal/processor/workflow_processor.go:484-504 | All lookups of a workflow return the same mutex, whenever and by whomever made. |
| `LockTable.FirstGetsInside` | worker/internal/processor/workflow_processor.go:484-504 | With nobody waiting, a goroutine gets inside the critical section of a workflow without an entry, and makes the entry. |
| `LockTable.NextGetsInside` | worker/internal/processor/workflow_processor.go:484-504 | With an entry whose mutex is free it gets inside with that mutex. |
| `LockTable.LeavingFrees` | worker/internal/processor/workflow_processor.go:361-364 | Leaving frees the mutex and keeps the entry. |
| `LockedWorkers.LockTableImplementsLock` | worker/internal/processor/workflow_processor.go:341-504 | Workers that process events between lock and unlock produce only runs of the locked protocol. |
| `LockedWorkers.SynchronisedWorkersRequestOnce` | worker/internal/processor/workflow_processor.go:341-504 | So they request each task at most once. |
| `Delivery.ShouldProcessEvent` | shared/pkg/eventstreaming/redis_stream.go:643-687 | The filter loops admit an event if and only if each non-empty filter list contains it. |
| `Delivery.FilterAdmits` | shared/pkg/eventstreaming/redis_stream.go:643-687 | No filter admits everything, and a filter of one type, workflow or source exactly that one. |
| `Delivery.FiltersCombine` | shared/pkg/eventstreaming/redis_stream.go:643-687 | The three lists are asked independently, and a longer list admits what its parts admit. |
| `Delivery.ReadDelivers` | shared/pkg/eventstreaming/redis_stream.go:526-555 | Messages are delivered one after the other, each pending and, if wanted, in the hands of a fresh handler. |
| `Delivery.DeliveredIsPendingOrAcked` | shared/pkg/eventstreaming/redis_stream.go:526-555 | In every interleaving each delivered message is pending or acknowledged, never both. |
| `Delivery.AckedIsSettled` | worker/internal/processor/workflow_processor.go:263-329 | An acknowledged message was filtered out, succeeded within the limit, or failed every attempt with its dead letter tried first. |
| `Delivery.AckIsFinal` | shared/pkg/eventstreaming/redis_stream.go:409-420 | An acknowledged message stays so and is never attempted again. |
| `Delivery.Consumer.HandleEvent` | worker/internal/processor/workflow_processor.go:263-329 | The retry loop performs exactly the attempts, dead letter and acknowledgement that the outcomes call for. |
| `Delivery.HandledMessageIsAcked` | timer/internal/processor/timer_processor.go:172-282 | A handled message whose acknowledgement gets through ends acknowledged, as a success or a dead letter according to its attempts. |
| `Delivery.HandlerTries` | worker/internal/processor/workflow_processor.go:263-329 | The handler makes the attempts up to the first success and no more, dead-letters exactly if none succeeds, and a failed acknowledgement leaves the message pending. |
| `Timers.SleepTime` | timer/internal/processor/timer_processor.go:319-343 | The sleep is at most the maximum and never passes the fire time at the head. |
| `Timers.TimerProcessor.RegisterTimer` | timer/internal/processor/timer_processor.go:285-306 | Registering stores the payload under its fire time and keeps all others. |
| `Timers.TimerProcessor.PopIfDue` | timer/internal/processor/timer_processor.go:348-376 | A head that is not due is pushed back, the set is as before and then nothing is due. |
| `Timers.TimerProcessor.PopDueTimers` | timer/internal/processor/timer_processor.go:348-376 | A batch pops and publishes exactly lowest due timers in the order of their scores; one that stops early leaves nothing due. |
| `Timers.PayloadsInOrder` | timer/internal/processor/timer_processor.go:348-376 | Well-formed members are published one by one in their order. |
| `Timers.MalformedIsPassedOver` | timer/internal/processor/timer_processor.go:348-376 | A malformed member is dropped without a publication. |
| `Timers.TimersAreConserved` | timer/internal/processor/timer_processor.go:285-379 | In every interleaving of registrations and schedulers each registered timer is stored, held or fired; firings never exceed registrations, and a timer registered once is in one place only. |
| `Timers.NeverEarly` | timer/internal/processor/timer_processor.go:356-362 | No timer fires before its fire time less the lookahead. |
| `Timers.WaitIsAlmostFull` | worker/internal/processor/wait_scheduler.go:27-50 | A wait ends less than a second plus the lookahead early. |
| `Timers.NotBeforeScheduling` | timer/internal/processor/timer_processor.go:285-379 | No timer is held or fires before its registration. |
| `Timers.FullWaitIff` | worker/internal/processor/wait_scheduler.go:27-50 | A wait registered no earlier than it was scheduled is never cut short, in all runs, if and only if its duration is not positive or cut-off part and lookahead together are not. |
| `Jq.ExtractFromPath` | shared/pkg/jq/evaluator.go:98-131 | The loop returns what descending part by part finds, or fails where that fails. |
| `Jq.EvaluateMap` | shared/pkg/jq/evaluator.go:134-146 | The loop over the map yields the evaluation of the whole map, or fails if some entry fails. |
| `Jq.NamesNowIff` | shared/pkg/jq/evaluator.go:56-131 | An expression yields what stands under `now`, whatever that is, if and only if it is the bare name, with or without one of the two root prefixes. |
| `Jq.EvaluateValue` | shared/pkg/jq/evaluator.go:149-172 | The mutual recursion over maps and lists computes the specified evaluation. |
| `Jq.EvaluationIsPointwise` | shared/pkg/jq/evaluator.go:149-172 | Key sets, list lengths and nesting are kept, and each position holds the evaluation of what was there. |
| `Jq.EvaluationFailsAtALeaf` | shared/pkg/jq/evaluator.go:134-172 | Evaluation fails if and only if some string leaf fails. |
| `Jq.EvaluationOfPlainDataIsIdentity` | shared/pkg/jq/evaluator.go:24-53 | Data without expressions and empty strings comes back unchanged. |
| `CallPaths.SplitPathWithArrays` | executor/internal/executor/call_task_executor.go:584-616 | The character loop yields the parts between dots outside brackets, without empty ones. |
| `CallPaths.SplitInvertsJoin` | executor/internal/executor/call_task_executor.go:584-616 | Splitting inverts joining for all lists of non-empty parts whose brackets close and whose dots are bracketed. |
| `CallPaths.JoinInvertsSplitIffTidy` | executor/internal/executor/call_task_executor.go:584-616 | Joining inverts splitting if and only if every dot outside brackets has a part on both sides. |
| `CallPaths.ExtractValueFromPath` | executor/internal/executor/call_task_executor.go:523-581 | The loop returns the value the parts lead to, fails, or panics on a bracket that closes before it opens. |
| `CallPaths.ExtractionFollowsThePath` | executor/internal/executor/call_task_executor.go:523-581 | Writing fields and array items down as a path and extracting it is direct navigation. |
| `CallPaths.BracketedStep` | executor/internal/executor/call_task_executor.go:523-581 | Empty brackets are the first item, a number with or without plus its item, and anything else leads nowhere. |
| `CallPaths.FieldStep` | executor/internal/executor/call_task_executor.go:523-581 | Without both brackets a part is a field, and only objects have fields. |
| `CallPaths.ClosedBeforeOpened` | executor/internal/executor/call_task_executor.go:523-581 | A bracket that closes before it opens panics. |
| `CallPaths.EvaluatorsAgreeIffNoEmptyPart` | shared/pkg/jq/evaluator.go:98-131 | On bracket-free paths both evaluators agree about all documents if and only if no part is empty. |
| `Int64.WrapProduct` | executor/internal/executor/error_handling_types.go:90-102 | Wrapping a factor first does not change the wrapped product. |
| `Backoff.ToDuration` | executor/internal/executor/error_handling_types.go:90-102 | The stepwise wrapping sum is the exact length wrapped once. |
| `Backoff.ExactInUnits` | executor/internal/executor/error_handling_types.go:90-102 | A day has 24 hours of 60 minutes of 60 seconds of 1000 milliseconds of a million nanoseconds. |
| `Backoff.ApplyBackoffStrategy` | executor/internal/executor/error_handler.go:393-438 | The multiplication loop yields the repeated product cut to 64 bits and to the maximum; linear and constant backoff as specified. |
| `Backoff.ConstantKeepsDelay` | executor/internal/executor/error_handler.go:393-397 | Constant backoff, whatever stands beside it, and a policy without a strategy keep the delay for every attempt count. |
| `Backoff.ExponentialDelay` | executor/internal/executor/error_handler.go:399-422 | Exponential backoff goes before linear and yields the delay times the multiplier to the power of attempts less one, truncated and cut to the maximum; a multiplier that is not positive counts as two. |
| `Backoff.TruncatedIsNearest` | executor/internal/executor/error_handler.go:411-412 | Truncation leaves the nearest whole number on the side of zero. |
| `Backoff.LinearDelay` | executor/internal/executor/error_handler.go:424-432 | Linear backoff adds the increment once per attempt behind the first. |
| `Backoff.CompoundIsPower` | executor/internal/executor/error_handler.go:405-409 | The repeated product is base times multiplier to the power of attempts less one. |
| `Backoff.ExponentialIsCapped` | executor/internal/executor/error_handler.go:399-422 | For up to five attempts, if the fifth delay is in range, the delay is the truncated power, cut to a positive maximum. |
| `Backoff.DelaysGrow` | executor/internal/executor/error_handler.go:399-422 | With a multiplier of at least one, delays never shrink with more attempts while in range. |
| `Backoff.InRangeUpToFive` | executor/internal/executor/error_handler.go:399-422 | All five delays are in range if the fifth is. |
| `Backoff.MaximumIsKept` | executor/internal/executor/error_handler.go:413-419 | A positive maximum is never exceeded, even out of range. |
| `Backoff.LinearIsExactIff` | executor/internal/executor/error_handler.go:424-432 | The linear delay is the exact sum if and only if the sum is in range. |
| `Backoff.ApplyJitter` | executor/internal/executor/error_handler.go:441-458 | The delay is kept without bounds, raised by an amount from the half-open range while both ends fit in 64 bits, and drawing panics if and only if the range does not fit. |
| `Backoff.JitterStaysInRange` | executor/internal/executor/error_handler.go:441-458 | The jittered delays are exactly those from the lower to below the upper bound. |
| `Backoff.JitterPanicsIff` | executor/internal/executor/error_handler.go:441-458 | Drawing panics if and only if the range does not fit in 64 bits. |
| `Backoff.CalculateRetryDelay` | executor/internal/executor/error_handler.go:371-390 | Without jitter the delay is the backed-off one; with proper jitter bounds it exceeds that by an amount within them; without any policy it is zero. |
| `Backoff.JitterIsAdded` | executor/internal/executor/error_handler.go:441-458 | Jitter adds nothing without both bounds, the lower bound for an empty range, and otherwise an amount of the range. |
| `Backoff.DelayIsBounded` | executor/internal/executor/error_handler.go:371-390 | With exponential backoff, maximum and jitter the delay lies in the jitter range above the lesser of power and maximum. |
| `Retry.MatchFilter` | executor/internal/executor/error_handler.go:132-146 | The loop over the filter matches if and only if every property matches. |
| `Retry.MatchValue` | executor/internal/executor/error_handler.go:253-289 | A value matches by equality, by membership in a list, or as text found by the regular expression. |
| `TryResults.TextMatches` | executor/internal/executor/error_handler.go:253-289 | A text matches itself, a pattern found in it, and a list that contains it. |
| `TryResults.OtherMatches` | executor/internal/executor/error_handler.go:253-289 | Other data matches its equal and a list that contains it, no data matches null only, and a status nothing. |
| `TryResults.FilterAsks` | executor/internal/executor/error_handler.go:228-251 | A filter entry for type, title, detail or instance asks for that property. |
| `TryResults.DataFilterAsks` | executor/internal/executor/error_handler.go:228-251 | An entry of any other name asks for the error's data. |
| `TryResults.FiltersTogether` | executor/internal/executor/error_handler.go:132-146 | Several entries all have to match, and none always do. |
| `Retry.StatusFilterCatchesNothing` | executor/internal/executor/error_handler.go:228-289 | A filter on the status matches no error. |
| `Retry.ExceedsRetryLimits` | executor/internal/executor/error_handler.go:339-368 | Limits are exceeded if and only if a positive count, total or attempt duration is reached. |
| `TryResults.ExceededIff` | executor/internal/executor/error_handler.go:339-368 | A positive count that is reached, or a positive total or attempt duration that has elapsed, exceeds the limit, and nothing else does. |
| `Retry.LimitsStayExceeded` | executor/internal/executor/error_handler.go:339-368 | Once exceeded they stay so for any larger attempt count and elapsed time. |
| `Retry.HttpStatusIsExtracted` | executor/internal/executor/error_handler.go:180-199 | The pattern search finds in the message of a rejected response the status that the message was made from. |
| `Retry.HttpErrorIsConverted` | executor/internal/executor/error_handler.go:151-226 | Converting that message gives the status back, with type authentication for 401, authorization for 403 and communication for all others. |
| `TryResults.RejectedIsRaised` | executor/internal/executor/openapi_client.go:136-143 | A status below 200, from 400 on, or from 300 on without redirects, fails the call with the error of that status. |
| `TryResults.OtherBlocksFail` | executor/internal/executor/try_task_executor.go:284-303 | A try block that is no call fails every time with an error 500 that says why. |
| `TryResults.RejectedSays` | executor/internal/executor/openapi_client.go:136-143 | The error of a rejected call carries the client's text with the status, and the fixed title. |
| `TryResults.FirstClassDecides` | executor/internal/executor/error_handler.go:202-226 | The first class of words that occurs in a message, in any letter case, decides the type of the error, and otherwise the status. |
| `TryResults.OtherStatuses` | executor/internal/executor/error_handler.go:180-199 | The status is also found behind `HTTP` and before `status`. |
| `TryResults.WithoutDigits` | executor/internal/executor/error_handler.go:180-199 | A message without digits is an error 500. |
| `Retry.HandleError` | executor/internal/executor/error_handler.go:29-129 | The handler fails if and only if the filter does not match, retries if and only if it matches and no limit is exceeded, and otherwise recovers or ignores by whether there are recovery tasks; the context records the error. |
| `Retry.ExecuteRecoveryTasks` | executor/internal/executor/try_task_executor.go:414-443 | Recovery tasks run in turn up to the first that does not succeed. |
| `Retry.FirstFailure` | executor/internal/executor/try_task_executor.go:414-443 | The first task that does not succeed decides the failure. |
| `Retry.NoFailure` | executor/internal/executor/try_task_executor.go:414-443 | If all succeed the last result is the result. |
| `Retry.React` | executor/internal/executor/try_task_executor.go:181-280 | After a failed attempt the loop goes on if and only if the error escapes the filter or is retried without a positive delay, and panics if and only if the delay does; a retried error otherwise ends it without success, and a caught one that is not retried ends it with success if and only if all recovery tasks recover. |
| `Retry.ExecuteTryBlock` | executor/internal/executor/try_task_executor.go:115-282 | The retry loop terminates and ends as the specification says, for every sequence of responses and every initial count. |
| `TryResults.ReturnedResultIsKept` | executor/internal/executor/try_task_executor.go:142-169 | If the attempts before go on and a call comes back without a Go error, its result, successful or not, is the result. |
| `TryResults.PutOffResult` | executor/internal/executor/try_task_executor.go:188-223 | A retry that has to wait ends the loop without success and says when it comes, or that it could not be scheduled. |
| `TryResults.RecoveredResult` | executor/internal/executor/try_task_executor.go:226-242 | If all recovery tasks recover, the result is the last one's with the error added under the catch variable. |
| `TryResults.FailedRecoveryResult` | executor/internal/executor/try_task_executor.go:226-233 | Otherwise the first that does not is the failure. |
| `TryResults.IgnoredResult` | executor/internal/executor/try_task_executor.go:244-266 | A caught error that is neither retried nor recovered from is a success whose output is the error alone. |
| `TryResults.AttemptsAreUsedUp` | executor/internal/executor/try_task_executor.go:268-280 | Five attempts that all go on end in the failure that says so. |
| `TryResults.InvalidCatchEnds` | executor/internal/executor/try_task_executor.go:178-183 | Without a catch block that decodes, the first failure ends the loop. |
| `TryResults.PanicEnds` | executor/internal/executor/error_handler.go:441-458 | A delay whose jitter cannot be drawn ends the loop in a panic. |
| `Retry.PutsOffIff` | executor/internal/executor/try_task_executor.go:189-226 | For some responses the task puts off a retry if and only if it catches some error and its policy, within the attempt limit, lets one of five attempts wait. |
| `Retry.FixedDelayPutsOffIff` | executor/internal/executor/try_task_executor.go:189-226 | With a fixed delay, that is if it catches some error, the delay is positive and more than one attempt is allowed. |
| `Retry.RunsUntilVerdict` | executor/internal/executor/try_task_executor.go:142-282 | It runs up to the first attempt that does not go on, whose verdict it returns, and otherwise to the fifth. |
| `Retry.RunsAtMostFive` | executor/internal/executor/try_task_executor.go:139-155 | From a fresh start the try block runs at least once and at most five times. |
| `Retry.CaughtIfCatchesAll` | executor/internal/executor/error_handler.go:132-289 | If every entry of the filter matches the errors of all rejected responses, no error of the try block escapes. |
| `Retry.EscapingResponse` | executor/internal/executor/error_handler.go:132-289 | Otherwise some response's error escapes. |
| `Retry.AttemptLimitIsKeptIff` | executor/internal/executor/try_task_executor.go:181-280 | A positive attempt limit is kept for all sequences of responses if and only if it is five or more or every entry of the filter matches the errors of all rejected responses. |
| `Retry.UncaughtErrorIsLost` | executor/internal/executor/try_task_executor.go:268-280 | Errors that escape the filter use up all five runs and are not mentioned in the result. |
| `Retry.UnavailableServiceIsLost` | executor/internal/executor/try_task_executor.go:268-280 | So a service that answers 503 under a filter for authentication errors is called five times where three are allowed. |
| `Retry.ExhaustedRetriesSucceedIff` | executor/internal/executor/error_handler.go:57-96 | The first attempt that meets an exceeded limit of any kind with a caught error is the last, and the task succeeds if and only if all recovery tasks recover. |
| `Retry.UnavailableServiceSucceeds` | executor/internal/executor/error_handler.go:57-96 | So a service that answers 503 to all of three allowed attempts ends in success, with the error as output. |
| `Paging.ApplyWorkflowFilters` | api/internal/services/workflow_service.go:775-852 | The loops keep what passes all filters, in order, and report the filters if and only if there was a workflow. |
| `Paging.FilteredKeepsWhatPasses` | api/internal/services/workflow_service.go:775-852 | Every copy of a workflow that passes all filters is kept, and no other. |
| `Paging.FilteringKeepsOrder` | api/internal/services/workflow_service.go:775-852 | What is kept of two lists together is what is kept of each, in order. |
| `Paging.OneIsKept` | api/internal/services/workflow_service.go:775-852 | A single workflow is kept if and only if it passes the test of every filter. |
| `Paging.PaginateWorkflows` | api/internal/services/workflow_service.go:889-915 | The page holds the items at its place if its offset fits in 64 bits, and slicing panics if and only if the offset wraps below zero. |
| `Paging.WindowHolds` | api/internal/services/workflow_service.go:889-915 | The items at a place are those from its index on, as many as there are up to the limit. |
| `Paging.LimitIs` | api/internal/services/workflow_service.go:889-915 | The limit is the page size, the limit given, or 20. |
| `Paging.PageIsRightIff` | api/internal/services/workflow_service.go:889-915 | A page holds the items at its place if and only if its offset fits or wraps behind the list. |
| `Paging.OffsetPageIsRight` | api/internal/services/workflow_service.go:889-915 | By offset and limit the page always holds the items at its place. |
| `Paging.PagesCoverTheList` | api/internal/services/workflow_service.go:889-915 | Pages 1 to the last, put together, are the list, for every list and page size. |
| `Paging.NewPaginationMeta` | api/internal/models/workflow.go:102-138 | The number of pages is the least that holds the items, the offset lies on the stated page, and while the next offset fits, has-next and has-previous say whether items lie behind and before. |
| `Paging.TotalPagesIsLeast` | api/internal/models/workflow.go:122-125 | The number of pages is the least positive one that holds all items. |
| `Paging.NextPageIff` | api/internal/models/workflow.go:127-137 | Has-next holds before the last page and no other, if and only if the next offset fits in 64 bits or wraps behind the items. |
| `Paging.PreviousPageIff` | api/internal/models/workflow.go:127-137 | Has-previous holds behind the first page and no other, if and only if the offset fits in 64 bits or wraps above zero. |
| `Paging.NextPageHasItems` | api/internal/models/workflow.go:127-137 | A next page is announced if and only if the listing of that page has items. |
| `Paging.OffsetPageNumberIsRightIff` | api/internal/models/workflow.go:113-120 | By offset, the page number fits has-next for every count if and only if the offset is a multiple of the limit and the next offset fits in 64 bits. |

## Left out

- Redis, HTTP, OpenAPI loading, protobuf, logging, metrics, the user interface and the MCP server: I/O and wrappers.
- Database records, event ids and timestamps other than fire times: nothing in the modelled decisions reads them.
- task.failed events and what the engine publishes for a retry timer: no service publishes the first, and retry fields do not survive the timer service; a retry timer with retry fields leaves the modelled state unchanged.
- Streams of other workflows and tenants: `Protocol` is about one workflow of one tenant, with the default tenant's stream beside its own. Streams that cannot be read are skipped by the code; here every listed stream is read.
- A read of several streams is one step: events that are published while it goes on are seen by none of its parts.
- A dead letter loses its tenant.
- Task definitions whose `do` items have several keys, definitions without `do`, and the configuration part of a request's payload.
- Definitions whose set data names the function `now`: the invariants cover them, but the exact conditions that a constructed run shows assume `NowFree`, because whether such a task can start depends on whether some other expression of it fails.
- Decoding the catch blocks of a definition: the decoded try tasks are a parameter of the protocol.
- Go's duration parser: a parameter of the definition. Fire times are whole seconds, as the format writes them.
- workflow.completed and wait timers may be published several times, and a repeated start event makes a failed execution RUNNING again: no claim is made against either.
- Reclaiming of orphaned messages: it is one more delivery of a pending message. Messages that do not parse stay pending.
- Two worker processes: the lock table is per process, so the locked results are about one process.
- Rounding of 64-bit floats in scores and delays: times are integers and multipliers are reals.
- Errors of the try block other than a rejected OpenAPI response, a block that is no map and a block without a call: the call executor turns all others into results. HTTP statuses have three digits.
- The regular expression search of a filter, and the attempt count with which a retry resumes: parameters of the try loop.
- Conditions `when` and `exceptWhen`: the code accepts any, so they do not appear.
- The attempt number in a retry timer's task id and the output entries of a put-off retry's answer; the texts of error messages, which are constructors here.
- Sorting of listings, the tests behind the single filters, and the listing of executions, which is not paged at all.
- Unicode white space and letter case, and integer overflow of an array index in a path.
- Guarantees.CompletedIsPrefix: assumes `InSequence`; `Exactness.InOrderIffNoDelayedRetries` shows that the assumption is exact.
- Exactness.NothingStartsEarlyIff: the condition is exact for distinct names and tasks that can start, like those of FailureIsFinalIff, FailureStopsWorkersIff and CompletedMeansAllTasksIff; where a task cannot start, several retries together may or may not pass it, and no exact condition is stated.
- Guarantees.FailureIsNotReportedOver: without the lock, `InStep` and `Contained`, a worker with an outdated read may request a skipped task between another worker's decision and its report; no exact condition is stated for that.
- Guarantees.CompletesExactlyWhenDone: assumes `InStep`; by `Exactness.DelayedRetrySkipsTask` an execution may be reported without it although a task is missing.
- Guarantees.CompletedMeansAllTasks: says nothing about pending tasks of the stream at that moment, because an unlocked worker may have requested a task again in between; `Guarantees.CompletesExactlyWhenDone` is about the state the worker read.
- Guarantees.ReapplyingIsHarmless: assumes a plain configuration; without it a success may come before the request of its task, and no claim is made.
- Safety.StepKeepsInv: assumes `InStep`; `Guarantees.StepKeepsSourceInv` is the part that holds in every configuration.
- Runs.CanFinishIff: assumes a plain configuration; by `Exactness.DelayedRetrySkipsTask` a list with a task that cannot start may finish without it.
