/** What a worker's step publishes, said in terms of the definition, the state and the clock, and how
    long the wait that it schedules lasts. */
module Publications {
  import opened Values
  import opened Replay
  import opened ReplayLaws
  import opened Worker
  import opened Protocol
  import Timers

  // --- The definition -----------------------------------------------------------------

  /** The i-th item is the first of that name. */
  predicate FirstOf(tasks: seq<TaskItem>, i: nat, name: string) {
    i < |tasks| && tasks[i].name == name && forall k | 0 <= k < i :: tasks[k].name != name
  }

  /** Tasks run in the order of their items, and without items under four fixed names. */
  lemma TasksAreListed(def: Definition)
    ensures def.tasks != [] ==>
              |TaskList(def)| == |def.tasks| && forall i | 0 <= i < |def.tasks| :: TaskList(def)[i] == def.tasks[i].name
    ensures def.tasks == [] ==> TaskList(def) == ["initialize", "processData", "waitStep", "finalize"]
  {
  }

  lemma {:induction false} BodyOfFirst(tasks: seq<TaskItem>, i: nat, name: string)
    requires FirstOf(tasks, i, name)
    ensures FirstBody(tasks, name) == tasks[i].body
  {
    if i > 0 {
      assert tasks[0].name != name;
      BodyOfFirst(tasks[1..], i - 1, name);
    }
  }

  lemma {:induction false} BodyOfNone(tasks: seq<TaskItem>, name: string)
    requires forall i | 0 <= i < |tasks| :: tasks[i].name != name
    ensures FirstBody(tasks, name) == map[] && TypeOf(tasks, name) == "set"
  {
    if tasks != [] {
      assert tasks[0].name != name;
      BodyOfNone(tasks[1..], name);
    }
  }

  /** The body is that of a try task: a `try` that holds a task, and no other task beside it. */
  predicate TriesTask(body: Fields) {
    && "set" !in body && "wait" !in body && "call" !in body && "try" in body && body["try"].Obj?
    && var block := body["try"].fields; "call" in block || "set" in block || "wait" in block
  }

  /** `set` goes before `wait` before `call` before `try`. */
  lemma TypeOfFirst(tasks: seq<TaskItem>, i: nat, name: string)
    requires FirstOf(tasks, i, name)
    ensures var body := tasks[i].body;
            && ("set" in body ==> TypeOf(tasks, name) == "set")
            && ("set" !in body && "wait" in body ==> TypeOf(tasks, name) == "wait")
            && ("set" !in body && "wait" !in body && "call" in body ==> TypeOf(tasks, name) == "call")
            && (TriesTask(body) ==> TypeOf(tasks, name) == "try")
  {
    if i > 0 {
      assert tasks[0].name != name;
      TypeOfFirst(tasks[1..], i - 1, name);
    }
  }

  // --- Durations ----------------------------------------------------------------------

  predicate AllDigits(text: string) {
    forall c | c in text :: '0' <= c <= '9'
  }

  lemma {:induction false} LowerKeepsDigits(n: string, unit: string, lower: string)
    requires AllDigits(n) && |unit| == |lower| == 1 && lower == ToLower(unit)
    ensures ToLower(n + unit) == n + lower
  {
    assert forall i | 0 <= i < |n| :: (n + unit)[i] == n[i] && n[i] in n;
  }

  /** `PTnS`, `PTnM` and `PTnH` are n seconds, minutes and hours; any other text is one second. */
  lemma DurationText(n: string)
    requires n != "" && AllDigits(n)
    ensures GoDuration("PT" + (n + "S")) == n + "s"
    ensures GoDuration("PT" + (n + "M")) == n + "m"
    ensures GoDuration("PT" + (n + "H")) == n + "h"
  {
    assert ("PT" + (n + "S"))[2..] == n + "S" && (n + "S")[|n + "S"| - 1..] == "S";
    assert ("PT" + (n + "M"))[2..] == n + "M" && (n + "M")[|n + "M"| - 1..] == "M";
    assert ("PT" + (n + "H"))[2..] == n + "H" && (n + "H")[|n + "H"| - 1..] == "H";
    LowerKeepsDigits(n, "S", "s");
    LowerKeepsDigits(n, "M", "m");
    LowerKeepsDigits(n, "H", "h");
  }

  lemma OtherDuration(text: string)
    requires |text| < 3 || text[..2] != "PT" || Last(text) !in "SMH"
    ensures GoDuration(text) == "1s"
  {
    if |text| >= 3 && text[..2] == "PT" {
      var rest := text[2..];
      assert rest[|rest| - 1..] == [Last(text)];
      assert Last(text) != 'S' && Last(text) != 'M' && Last(text) != 'H' by {
        assert "SMH"[0] == 'S' && "SMH"[1] == 'M' && "SMH"[2] == 'H';
      }
    }
  }

  // --- What a step publishes ----------------------------------------------------------

  /** The event is for the execution of the state. */
  predicate ForExecution(e: Event, s: State) {
    && e.workflowId == s.workflowId
    && e.executionId == (if s.context.Some? then s.context.value.executionId else "")
    && e.tenantId == (if s.context.Some? then s.context.value.tenantId else "")
  }

  /** The step starts the i-th task, which is of this type. */
  predicate Starts(def: Definition, s: State, i: nat, taskType: string)
    requires i < |def.tasks|
  {
    && FirstOf(def.tasks, i, def.tasks[i].name) && NextTask(def, s) == Some(def.tasks[i].name)
    && TaskType(def, def.tasks[i].name) == taskType
  }

  /** The time at which a timer fires, in nanoseconds. */
  function FireNanos(t: Timer): real {
    t.fireAt * 1_000_000_000.0
  }

  /** A wait task schedules a timer under its name, less than a second before the duration is over and
      not after. */
  lemma WaitIsPublished(def: Definition, s: State, i: nat, clock: Clock, iso: string, d: int)
    requires i < |def.tasks| && Starts(def, s, i, "wait")
    requires var body := def.tasks[i].body;
             && "set" !in body && "wait" in body && body["wait"].Obj?
             && "duration" in body["wait"].fields && body["wait"].fields["duration"] == Str(iso)
    requires def.parseDuration(GoDuration(iso)) == Some(d)
    ensures var outcome := NextStep(def, s, clock);
            && outcome.Publish? && outcome.event.kind.TimerScheduled? && ForExecution(outcome.event, s)
            && outcome.event.data.Obj? && TimerOf(outcome.event.data.fields).Some?
            && var t := TimerOf(outcome.event.data.fields).value;
               && t.taskName == t.taskId == def.tasks[i].name
               && t.workflowId == outcome.event.workflowId && t.executionId == outcome.event.executionId
               && t.tenantId == outcome.event.tenantId
               && (clock.nanos + d - 1_000_000_000) as real < FireNanos(t) <= (clock.nanos + d) as real
  {
    BodyOfFirst(def.tasks, i, def.tasks[i].name);
    DurationIsSome(iso);
    assert StrAt(TaskInput(def, s, def.tasks[i].name, clock), "duration") == Some(GoDuration(iso));
    TimerIsScheduled(s, def.tasks[i].name, d, clock);
  }

  lemma DurationIsSome(iso: string)
    ensures GoDuration(iso) != ""
  {
  }

  lemma TimerIsScheduled(s: State, name: string, d: int, clock: Clock)
    ensures var e := ScheduledEvent(s, name, d, clock);
            && e.kind.TimerScheduled? && ForExecution(e, s) && e.data.Obj? && TimerOf(e.data.fields).Some?
            && var t := TimerOf(e.data.fields).value;
               && t.taskName == t.taskId == name && t.workflowId == e.workflowId
               && t.executionId == e.executionId && t.tenantId == e.tenantId
               && (clock.nanos + d - 1_000_000_000) as real < FireNanos(t) <= (clock.nanos + d) as real
  {
    WholeSeconds(clock.nanos + d);
  }

  /** Its fire time is the one that the statements of module Timers about full waits are about. */
  lemma FireTimeIsPublished(s: State, name: string, d: int, clock: Clock)
    ensures var e := ScheduledEvent(s, name, d, clock);
            && e.data.Obj? && TimerOf(e.data.fields).Some?
            && FireNanos(TimerOf(e.data.fields).value) == Timers.FireTime(clock.nanos, d) as real
  {
    WholeSeconds(clock.nanos + d);
  }

  lemma WholeSeconds(n: int)
    ensures (n - 1_000_000_000) as real < (n / 1_000_000_000) as real * 1_000_000_000.0 <= n as real
  {
    assert n - 1_000_000_000 < n / 1_000_000_000 * 1_000_000_000 <= n;
    assert (n / 1_000_000_000) as real * 1_000_000_000.0 == (n / 1_000_000_000 * 1_000_000_000) as real;
  }

  /** So a worker's wait ends, in every interleaving of the timer service, less than a second plus the
      lookahead before its duration is over. */
  lemma {:induction false} WorkersWaitIsAlmostFull(
    def: Definition, s: State, i: nat, clock: Clock, iso: string, d: int,
    lookahead: int, start: int, actions: seq<Timers.Action>, f: Timers.Firing)
    requires i < |def.tasks| && Starts(def, s, i, "wait")
    requires var body := def.tasks[i].body;
             && "set" !in body && "wait" in body && body["wait"].Obj?
             && "duration" in body["wait"].fields && body["wait"].fields["duration"] == Str(iso)
    requires def.parseDuration(GoDuration(iso)) == Some(d)
    requires f in Timers.ActAll(lookahead, Timers.EmptyService(start), actions).fired
    requires var outcome := NextStep(def, s, clock);
             outcome.Publish? && outcome.event.data.Obj? && TimerOf(outcome.event.data.fields).Some?
             && f.payload.fireAt as real == FireNanos(TimerOf(outcome.event.data.fields).value)
    ensures f.at > clock.nanos + d - 1_000_000_000 - lookahead
  {
    WaitIsPublished(def, s, i, clock, iso, d);
    Timers.NeverEarly(lookahead, start, actions, f);
  }

  /** A set task publishes its success with its evaluated data beside, not inside, a section `data`. */
  lemma SetIsPublished(def: Definition, s: State, i: nat, clock: Clock, config: Fields)
    requires i < |def.tasks| && Starts(def, s, i, "set")
    requires "set" in def.tasks[i].body && def.tasks[i].body["set"] == Obj(config)
    requires !StoresFunction(def, s, def.tasks[i].name, clock)
    ensures var outcome := NextStep(def, s, clock);
            && outcome.Publish? && outcome.event.kind.TaskCompleted? && ForExecution(outcome.event, s)
            && outcome.event.source.WorkflowEngine? && IsSuccess(outcome.event)
            && TaskName(outcome.event.data.fields) == def.tasks[i].name
            && EvaluatedOrKept(config, ExpressionContext(s), clock.rfc3339, Carried(outcome.event))
  {
    BodyOfFirst(def.tasks, i, def.tasks[i].name);
    CarriesSetData(def, s, def.tasks[i].name, clock);
  }

  /** A task of the executor is requested under its name and type, with the input that belongs to it. */
  lemma RequestIsPublished(def: Definition, s: State, name: string, clock: Clock)
    requires NextTask(def, s) == Some(name) && RunsInExecutor(def, name)
    ensures var outcome := NextStep(def, s, clock);
            && outcome.Publish? && outcome.event.kind.TaskRequested? && ForExecution(outcome.event, s)
            && outcome.event.source.WorkerService? && outcome.event.data.Obj?
            && CarriesRequest(outcome.event.data.fields, name, TaskType(def, name), s.workflowId, clock)
  {
    SetBodyIsSet(def.tasks, name);
    RequestCarries(def, s, name, clock);
  }

  predicate CarriesRequest(data: Fields, name: string, taskType: string, wf: string, clock: Clock) {
    && StrAt(data, "task_name") == Some(name) && StrAt(data, "task_type") == Some(taskType)
    && "input" in data && data["input"].Obj?
    && StrAt(data["input"].fields, "task_name") == Some(name)
    && StrAt(data["input"].fields, "workflow_id") == Some(wf)
    && StrAt(data["input"].fields, "timestamp") == Some(clock.rfc3339)
  }

  lemma RequestCarries(def: Definition, s: State, name: string, clock: Clock)
    requires "set" !in FirstBody(def.tasks, name)
    ensures var e := RequestEvent(def, s, name, clock);
            && e.kind.TaskRequested? && ForExecution(e, s) && e.source.WorkerService? && e.data.Obj?
            && CarriesRequest(e.data.fields, name, TaskType(def, name), s.workflowId, clock)
  {
    InputCarries(def, s, name, clock);
  }

  lemma InputCarries(def: Definition, s: State, name: string, clock: Clock)
    requires "set" !in FirstBody(def.tasks, name)
    ensures var input := TaskInput(def, s, name, clock) - {"set_data", "call_config", "task_definition"};
            && StrAt(input, "task_name") == Some(name) && StrAt(input, "workflow_id") == Some(s.workflowId)
            && StrAt(input, "timestamp") == Some(clock.rfc3339)
  {
  }

  /** The report of completion carries the workflow's output. */
  lemma CompletionIsPublished(def: Definition, s: State, clock: Clock)
    requires NextTask(def, s) == None && s.pending == [] && |s.completed| >= |def.tasks|
    ensures var outcome := NextStep(def, s, clock);
            && outcome.Publish? && outcome.event.kind.WorkflowCompleted? && ForExecution(outcome.event, s)
            && outcome.event.data.Obj? && "output" in outcome.event.data.fields
            && (s.output.NoOutput? ==> outcome.event.data.fields["output"] == Obj(map[]))
            && (s.output.SharedWithVariables? ==> outcome.event.data.fields["output"] == Obj(Variables(s)))
            && (s.output.Detached? ==> outcome.event.data.fields["output"] == Obj(s.output.fields))
  {
  }

  // --- Which events count -------------------------------------------------------------

  /** Creations and completions from anyone but executor and engine are skipped. Any other event is
      decided on as if it had come once more at the end of the history that was read, so that it
      counts even if that history lacks it. */
  lemma TakenEventCounts(def: Definition, history: seq<Event>, e: Event, clock: Clock)
    ensures e.kind.WorkflowCreated? ==> Processed(def, history, e, clock) == Quiet
    ensures e.kind.TaskCompleted? && !e.source.ExecutorService? && !e.source.WorkflowEngine? ==>
              Processed(def, history, e, clock) == Quiet
    ensures (e.kind.TaskCompleted? && (e.source.ExecutorService? || e.source.WorkflowEngine?))
            || e.kind.ExecutionStarted? || e.kind.TimerFired? ==>
              Processed(def, history, e, clock) == NextStep(def, Rebuilt(def.id, history + [e]), clock)
  {
    RebuiltSnoc(def.id, history, e);
  }
}
