/** One pass of the worker over one event: read the history, replay it, apply the event again,
    pick the next task and publish at most one event. Follows
    worker/internal/processor/workflow_processor.go and the task selection of
    worker/internal/engine/serverless_workflow_engine.go. */
module Worker {
  import opened Values
  import opened Replay
  import Engine
  import Jq

  // --- Definitions --------------------------------------------------------------------

  /** One item of the `do` section: a map with a single key. */
  datatype TaskItem = TaskItem(name: string, body: Fields)

  /** `parseDuration` is Go's time.ParseDuration, in nanoseconds. */
  datatype Definition = Definition(id: string, tasks: seq<TaskItem>, parseDuration: string -> Option<int>)

  /** Readings of the wall clock: nanoseconds, and its two text forms. */
  datatype Clock = Clock(nanos: int, rfc3339: string, unixNano: string)

  const NANOS_PER_SECOND := 1_000_000_000
  const FALLBACK_TASKS: seq<string> := ["initialize", "processData", "waitStep", "finalize"]

  function ItemNames(tasks: seq<TaskItem>): (names: seq<string>)
    ensures |names| == |tasks|
  {
    seq(|tasks|, i requires 0 <= i < |tasks| => tasks[i].name)
  }

  /** The order in which tasks run. */
  function TaskList(def: Definition): seq<string> {
    if def.tasks == [] then FALLBACK_TASKS else ItemNames(def.tasks)
  }

  function BodyType(body: Fields): Option<string> {
    if "set" in body then Some("set")
    else if "wait" in body then Some("wait")
    else if "call" in body then Some("call")
    else
      var inner := ObjAt(body, "try");
      if inner.Some? && ("call" in inner.value || "set" in inner.value || "wait" in inner.value)
      then Some("try") else None
  }

  /** The type of the first recognised item of that name; `set` when there is none. */
  function TypeOf(tasks: seq<TaskItem>, name: string): (taskType: string)
    ensures taskType == "set" || taskType == "wait" || taskType == "call" || taskType == "try"
  {
    if tasks == [] then "set"
    else if tasks[0].name == name && BodyType(tasks[0].body).Some? then BodyType(tasks[0].body).value
    else TypeOf(tasks[1..], name)
  }

  function TaskType(def: Definition, name: string): string {
    TypeOf(def.tasks, name)
  }

  /** Tasks that the executor service runs; `set` and `wait` are handled without it. */
  predicate RunsInExecutor(def: Definition, name: string) {
    TaskType(def, name) == "call" || TaskType(def, name) == "try"
  }

  function FirstBody(tasks: seq<TaskItem>, name: string): Fields {
    if tasks == [] then map[]
    else if tasks[0].name == name then tasks[0].body
    else FirstBody(tasks[1..], name)
  }

  /** PT2S becomes 2s; anything not understood becomes 1s. */
  function GoDuration(iso: string): string {
    if |iso| < 3 || !("PT" <= iso) then "1s"
    else if Jq.HasSuffix(iso[2..], "S") || Jq.HasSuffix(iso[2..], "M") || Jq.HasSuffix(iso[2..], "H")
    then ToLower(iso[2..])
    else "1s"
  }

  /** Expressions find a Go function under `now`. No document can hold it; Null takes its place,
      which likewise is no object for a path to lead through. */
  const NOW_FUNCTION: Json := Null

  /** The data that expressions of a set task see. */
  function ExpressionContext(s: State): Fields {
    var variables := Variables(s);
    var workflow := (if s.input.Some? then map["input" := Obj(s.input.value)] else map[])
                    + (if s.variables.Some? then map["variables" := Obj(variables)] else map[]);
    s.input.GetOr(map[]) + variables + map["now" := NOW_FUNCTION, "workflow" := Obj(workflow)]
  }

  /** Set data with its expressions evaluated, or as written when evaluation fails. */
  function SetData(config: Json, s: State, clock: Clock): Json {
    if !config.Obj? then config
    else Jq.Evaluated(config, ExpressionContext(s), clock.rfc3339).GetOr(config)
  }

  /** The evaluated set data holds the function, so that the whole task input cannot be encoded. */
  predicate HoldsFunction(config: Json, s: State, clock: Clock) {
    config.Obj? && Jq.Evaluated(config, ExpressionContext(s), clock.rfc3339).Some? && Jq.AnyNamesNow(config)
  }

  /** The fields that a set task writes into the worker's own variables. */
  function SetFields(def: Definition, s: State, name: string, clock: Clock): Fields {
    var body := FirstBody(def.tasks, name);
    if "set" !in body then map[]
    else
      var data := SetData(body["set"], s, clock);
      if data.Obj? then data.fields else map[]
  }

  /** Every entry evaluated, if all of them can be, and otherwise all as they were. */
  predicate EvaluatedOrKept(config: Fields, context: Fields, now: string, result: Fields) {
    && result.Keys == config.Keys
    && (if forall k | k in config :: Jq.Evaluated(config[k], context, now).Some?
        then forall k | k in config :: Jq.Evaluated(config[k], context, now) == Some(result[k])
        else result == config)
  }

  /** The input of the task; empty when it cannot be encoded. */
  function TaskInput(def: Definition, s: State, name: string, clock: Clock): Fields {
    var body := FirstBody(def.tasks, name);
    var wait := ObjAt(body, "wait").GetOr(map[]);
    if "set" in body && HoldsFunction(body["set"], s, clock) then map[] else
    map["task_name" := Str(name), "workflow_id" := Str(s.workflowId), "timestamp" := Str(clock.rfc3339),
        "task_definition" := Obj(body)]
    + (if StrAt(wait, "duration").Some?
       then map["duration" := Str(GoDuration(StrAt(wait, "duration").value))] else map[])
    + (if "set" in body then map["set_data" := SetData(body["set"], s, clock)] else map[])
  }

  // --- Published events ---------------------------------------------------------------

  function ExecutionId(s: State): string {
    if s.context.Some? then s.context.value.executionId else ""
  }

  function TenantId(s: State): string {
    if s.context.Some? then s.context.value.tenantId else ""
  }

  function EventFor(s: State, kind: EventType, source: Source, taskId: string, data: Fields): Event {
    Event(kind, source, TenantId(s), s.workflowId, ExecutionId(s), taskId, Obj(data))
  }

  function RequestEvent(def: Definition, s: State, name: string, clock: Clock): Event {
    var taskId := "task-" + name + "-" + clock.unixNano;
    var input := TaskInput(def, s, name, clock) - {"set_data", "call_config", "task_definition"};
    EventFor(s, TaskRequested, WorkerService, taskId,
             map["task_id" := Str(taskId), "task_name" := Str(name), "task_type" := Str(TaskType(def, name)),
                 "workflow_id" := Str(s.workflowId), "execution_id" := Str(ExecutionId(s)), "input" := Obj(input)])
  }

  /** The completion of a set task. Its output is beside, not inside, a `data` section. */
  function SetCompletedEvent(def: Definition, s: State, name: string, clock: Clock): Event {
    var taskId := "task-" + name + "-" + clock.unixNano;
    var input := Obj(TaskInput(def, s, name, clock));
    EventFor(s, TaskCompleted, WorkflowEngine, taskId,
             map["task_id" := Str(taskId), "task_name" := Str(name), "task_type" := Str("set"),
                 "success" := Bool(true), "input" := input, "output" := input])
  }

  /** The set data inside the output of a completion. */
  function Carried(e: Event): Fields {
    if !e.data.Obj? then map[]
    else ObjAt(ObjAt(e.data.fields, "output").GetOr(map[]), "set_data").GetOr(map[])
  }

  /** The completion carries the evaluated set data, and it has become variables; set data that is no
      object has become nothing. */
  predicate WritesCarried(config: Json, before: State, clock: Clock, e: Event, after: Fields) {
    if config.Obj?
    then EvaluatedOrKept(config.fields, ExpressionContext(before), clock.rfc3339, Carried(e))
         && after == Variables(before) + Carried(e)
    else after == Variables(before)
  }

  lemma SetDataIsEvaluated(config: Fields, s: State, clock: Clock)
    ensures SetData(Obj(config), s, clock).Obj?
    ensures EvaluatedOrKept(config, ExpressionContext(s), clock.rfc3339, SetData(Obj(config), s, clock).fields)
  {
  }

  lemma CarriesSetData(def: Definition, s: State, name: string, clock: Clock)
    requires "set_data" in TaskInput(def, s, name, clock)
    ensures "set" in FirstBody(def.tasks, name)
    ensures WritesCarried(FirstBody(def.tasks, name)["set"], s, clock, SetCompletedEvent(def, s, name, clock),
                          Variables(s) + SetFields(def, s, name, clock))
  {
    var config := FirstBody(def.tasks, name)["set"];
    if config.Obj? {
      SetDataIsEvaluated(config.fields, s, clock);
    } else {
      assert Variables(s) + map[] == Variables(s);
    }
  }

  /** The fire time is written in whole seconds. */
  function ScheduledEvent(s: State, name: string, duration: int, clock: Clock): Event {
    var fireAt := (clock.nanos + duration) / NANOS_PER_SECOND;
    EventFor(s, TimerScheduled, WorkerService, name,
             map["tenant_id" := Str(TenantId(s)), "workflow_id" := Str(s.workflowId),
                 "execution_id" := Str(ExecutionId(s)), "task_id" := Str(name), "task_name" := Str(name),
                 "duration_ms" := Num((duration / 1_000_000) as real), "fire_at" := Num(fireAt as real)])
  }

  function WorkflowCompletedEvent(s: State): Event {
    EventFor(s, WorkflowCompleted, WorkerService, "",
             map["workflow_id" := Str(s.workflowId), "status" := Str("completed"), "output" := Obj(OutputFields(s))])
  }

  // --- The next step ------------------------------------------------------------------

  datatype Outcome = Quiet | Failure | Publish(event: Event)

  /** The task to start: the one whose index is the number of completions, unless it is
      pending or completed already. */
  function NextTask(def: Definition, s: State): Option<string> {
    var list := TaskList(def);
    if |s.completed| >= |list| then None
    else
      var name := list[|s.completed|];
      if HasPending(s.pending, name) || name in CompletedNames(s.completed) then None else Some(name)
  }

  function StartTask(def: Definition, s: State, name: string, clock: Clock): Outcome {
    var input := TaskInput(def, s, name, clock);
    match TaskType(def, name)
    case "set" =>
      if "set_data" in input then Publish(SetCompletedEvent(def, s, name, clock)) else Failure
    case "wait" =>
      var text := StrAt(input, "duration").GetOr("");
      var duration := def.parseDuration(text);
      if text == "" || duration.None? then Failure
      else Publish(ScheduledEvent(s, name, duration.value, clock))
    case _ => Publish(RequestEvent(def, s, name, clock))
  }

  function WaitText(def: Definition, name: string): string {
    var wait := ObjAt(FirstBody(def.tasks, name), "wait").GetOr(map[]);
    if StrAt(wait, "duration").Some? then GoDuration(StrAt(wait, "duration").value) else ""
  }

  /** Whether the definition has what the task needs: set data for a set task, a duration that
      parses for a wait task. */
  predicate CanStart(def: Definition, name: string) {
    match TaskType(def, name)
    case "set" => "set" in FirstBody(def.tasks, name)
    case "wait" => WaitText(def, name) != "" && def.parseDuration(WaitText(def, name)).Some?
    case _ => true
  }

  /** The set data of the task stores the function `now`. */
  predicate StoresFunction(def: Definition, s: State, name: string, clock: Clock) {
    "set" in FirstBody(def.tasks, name) && HoldsFunction(FirstBody(def.tasks, name)["set"], s, clock)
  }

  /** No set data of the definition names the function `now`. */
  predicate NowFree(def: Definition) {
    forall name | name in TaskList(def) && "set" in FirstBody(def.tasks, name) ::
      !Jq.AnyNamesNow(FirstBody(def.tasks, name)["set"])
  }

  lemma {:induction false} SetBodyIsSet(tasks: seq<TaskItem>, name: string)
    ensures "set" in FirstBody(tasks, name) ==> TypeOf(tasks, name) == "set"
  {
    if tasks != [] {
      SetBodyIsSet(tasks[1..], name);
    }
  }

  /** Starting a task fails exactly when the definition lacks what it needs, or when its set data
      evaluates to something that cannot be stored. */
  lemma {:induction false} StartFailsIff(def: Definition, s: State, name: string, clock: Clock)
    ensures StartTask(def, s, name, clock).Failure? <==> !CanStart(def, name) || StoresFunction(def, s, name, clock)
  {
    var input := TaskInput(def, s, name, clock);
    SetBodyIsSet(def.tasks, name);
    if !StoresFunction(def, s, name, clock) {
      assert StrAt(input, "duration").GetOr("") == WaitText(def, name);
      assert "set_data" in input <==> "set" in FirstBody(def.tasks, name);
    }
  }

  function NextStep(def: Definition, s: State, clock: Clock): Outcome {
    match NextTask(def, s)
    case Some(name) => StartTask(def, s, name, clock)
    case None =>
      if s.pending != [] || |s.completed| < |def.tasks| then Quiet
      else Publish(WorkflowCompletedEvent(s))
  }

  /** The event types the worker subscribes to. */
  predicate Subscribed(kind: EventType) {
    kind.WorkflowCreated? || kind.ExecutionStarted? || kind.TaskCompleted? || kind.TimerFired?
  }

  predicate Skips(e: Event) {
    || e.kind.WorkflowCreated?
    || (e.kind.TaskCompleted? && !e.source.ExecutorService? && !e.source.WorkflowEngine?)
  }

  /** The state on which the worker decides: the replayed history, then the event again. */
  function Decided(def: Definition, history: seq<Event>, e: Event): State {
    Apply(Rebuilt(def.id, history), e)
  }

  function Processed(def: Definition, history: seq<Event>, e: Event, clock: Clock): Outcome {
    if Skips(e) then Quiet else NextStep(def, Decided(def, history, e), clock)
  }

  function Emission(outcome: Outcome): seq<Event> {
    if outcome.Publish? then [outcome.event] else []
  }

  // --- Histories ----------------------------------------------------------------------

  function OfWorkflow(events: seq<Event>, wf: string): seq<Event> {
    if events == [] then []
    else
      var last := events[|events| - 1];
      OfWorkflow(events[..|events| - 1], wf) + if last.workflowId == wf then [last] else []
  }

  function OfExecution(events: seq<Event>, x: string): seq<Event> {
    if events == [] then []
    else
      var last := events[|events| - 1];
      OfExecution(events[..|events| - 1], x)
      + if last.executionId != "" && last.executionId == x then [last] else []
  }

  /** The events of an execution in the order of their publication, or all events of the
      workflow for an event without an execution. */
  function History(log: seq<Event>, wf: string, x: string): seq<Event> {
    if x != "" then OfExecution(OfWorkflow(log, wf), x) else OfWorkflow(log, wf)
  }

  /** Events without a tenant or a workflow go to the stream of the default one. */
  function StreamKey(id: string): string {
    if id == "" then "default" else id
  }

  /** One of the streams over which the published events are spread. */
  function StreamOf(log: seq<Event>, tenant: string, wf: string): seq<Event> {
    if log == [] then []
    else
      var last := log[|log| - 1];
      StreamOf(log[..|log| - 1], tenant, wf)
      + if StreamKey(last.tenantId) == tenant && StreamKey(last.workflowId) == wf then [last] else []
  }

  function ByTenant(events: seq<Event>, tenant: string): seq<Event> {
    if events == [] then []
    else
      var last := events[|events| - 1];
      ByTenant(events[..|events| - 1], tenant) + if StreamKey(last.tenantId) == tenant then [last] else []
  }

  /** The events tenant by tenant, each tenant's in their order. */
  function Gathered(events: seq<Event>, tenants: seq<string>): seq<Event> {
    if tenants == [] then []
    else Gathered(events, tenants[..|tenants| - 1]) + ByTenant(events, tenants[|tenants| - 1])
  }

  /** What the worker reads: the streams of all tenants one after the other, in the order in
      which Redis lists them. */
  function Read(log: seq<Event>, wf: string, x: string, tenants: seq<string>): seq<Event> {
    if wf == "" then [] else Gathered(History(log, wf, x), tenants)
  }

  lemma {:induction false} StreamOfWorkflow(log: seq<Event>, tenant: string, wf: string)
    ensures OfWorkflow(StreamOf(log, tenant, wf), wf) == if wf == "" then [] else ByTenant(OfWorkflow(log, wf), tenant)
  {
    if log != [] {
      var front, last := log[..|log| - 1], log[|log| - 1];
      StreamOfWorkflow(front, tenant, wf);
      if StreamKey(last.tenantId) == tenant && StreamKey(last.workflowId) == wf {
        OfWorkflowSnoc(StreamOf(front, tenant, wf), last, wf);
      } else {
        assert StreamOf(front, tenant, wf) + [] == StreamOf(front, tenant, wf);
      }
      if last.workflowId == wf {
        ByTenantSnoc(OfWorkflow(front, wf), last, tenant);
      } else {
        assert OfWorkflow(front, wf) + [] == OfWorkflow(front, wf);
      }
    }
  }

  lemma OfWorkflowSnoc(events: seq<Event>, e: Event, wf: string)
    ensures OfWorkflow(events + [e], wf) == OfWorkflow(events, wf) + if e.workflowId == wf then [e] else []
  {
    assert (events + [e])[..|events|] == events;
  }

  lemma OfExecutionSnoc(events: seq<Event>, e: Event, x: string)
    ensures OfExecution(events + [e], x)
            == OfExecution(events, x) + if e.executionId != "" && e.executionId == x then [e] else []
  {
    assert (events + [e])[..|events|] == events;
  }

  lemma ByTenantSnoc(events: seq<Event>, e: Event, tenant: string)
    ensures ByTenant(events + [e], tenant)
            == ByTenant(events, tenant) + if StreamKey(e.tenantId) == tenant then [e] else []
  {
    assert (events + [e])[..|events|] == events;
  }

  lemma Associates<T>(a: seq<T>, b: seq<T>, c: seq<T>)
    ensures a + b + c == a + (b + c)
  {
  }

  lemma {:induction false} OfExecutionOfConcat(first: seq<Event>, more: seq<Event>, x: string)
    ensures OfExecution(first + more, x) == OfExecution(first, x) + OfExecution(more, x)
  {
    if more == [] {
      assert first + more == first;
    } else {
      var front, last := more[..|more| - 1], more[|more| - 1];
      OfExecutionOfConcat(first, front, x);
      assert first + more == (first + front) + [last] && more == front + [last];
      OfExecutionSnoc(first + front, last, x);
      OfExecutionSnoc(front, last, x);
      var tail := if last.executionId != "" && last.executionId == x then [last] else [];
      Associates(OfExecution(first, x), OfExecution(front, x), tail);
    }
  }

  lemma {:induction false} OfExecutionByTenant(events: seq<Event>, tenant: string, x: string)
    ensures OfExecution(ByTenant(events, tenant), x) == ByTenant(OfExecution(events, x), tenant)
  {
    if events != [] {
      var front, last := events[..|events| - 1], events[|events| - 1];
      OfExecutionByTenant(front, tenant, x);
      if StreamKey(last.tenantId) == tenant {
        OfExecutionSnoc(ByTenant(front, tenant), last, x);
      } else {
        assert ByTenant(front, tenant) + [] == ByTenant(front, tenant);
      }
      if last.executionId != "" && last.executionId == x {
        ByTenantSnoc(OfExecution(front, x), last, tenant);
      } else {
        assert OfExecution(front, x) + [] == OfExecution(front, x);
      }
    }
  }

  lemma {:induction false} OfExecutionGathered(events: seq<Event>, tenants: seq<string>, x: string)
    ensures OfExecution(Gathered(events, tenants), x) == Gathered(OfExecution(events, x), tenants)
  {
    if tenants != [] {
      var front, last := tenants[..|tenants| - 1], tenants[|tenants| - 1];
      OfExecutionGathered(events, front, x);
      OfExecutionByTenant(events, last, x);
      OfExecutionOfConcat(Gathered(events, front), ByTenant(events, last), x);
    }
  }

  // --- The worker as it runs ----------------------------------------------------------

  /** The append-only streams, one per tenant and workflow, and all their events in the order
      of publication. */
  class EventStream {
    var streams: map<(string, string), seq<Event>>
    ghost var log: seq<Event>

    constructor ()
      ensures Valid() && log == []
    {
      streams, log := map[], [];
    }

    function At(tenant: string, wf: string): seq<Event>
      reads this
    {
      if (tenant, wf) in streams then streams[(tenant, wf)] else []
    }

    ghost predicate Valid()
      reads this
    {
      forall tenant, wf :: At(tenant, wf) == StreamOf(log, tenant, wf)
    }

    method Publish(e: Event)
      requires Valid()
      modifies this
      ensures Valid() && log == old(log) + [e]
    {
      var key := (StreamKey(e.tenantId), StreamKey(e.workflowId));
      streams := streams[key := At(key.0, key.1) + [e]];
      log := log + [e];
      assert log[..|log| - 1] == old(log);
    }

    method ReadStream(tenant: string, wf: string) returns (own: seq<Event>)
      ensures own == OfWorkflow(At(tenant, wf), wf)
    {
      var stream := At(tenant, wf);
      own := [];
      for i := 0 to |stream|
        invariant own == OfWorkflow(stream[..i], wf)
      {
        assert stream[..i + 1][..i] == stream[..i];
        if stream[i].workflowId == wf {
          own := own + [stream[i]];
        }
      }
      assert stream[..|stream|] == stream;
    }

    /** `tenants` are the tenants of the workflow's streams as Redis lists them. */
    method GetEventHistory(wf: string, tenants: seq<string>) returns (found: seq<Event>)
      requires Valid()
      ensures found == Read(log, wf, "", tenants)
    {
      found := [];
      for i := 0 to |tenants|
        invariant found == Read(log, wf, "", tenants[..i])
      {
        var own := ReadStream(tenants[i], wf);
        StreamOfWorkflow(log, tenants[i], wf);
        assert tenants[..i + 1][..i] == tenants[..i];
        found := found + own;
      }
      assert tenants[..|tenants|] == tenants;
    }
  }

  class WorkflowProcessor {
    const stream: EventStream
    const definition: Definition

    constructor (stream: EventStream, definition: Definition)
      ensures this.stream == stream && this.definition == definition
    {
      this.stream, this.definition := stream, definition;
    }

    method FetchEventHistoryForExecution(wf: string, x: string, tenants: seq<string>) returns (found: seq<Event>)
      requires stream.Valid() && x != ""
      ensures found == Read(stream.log, wf, x, tenants)
    {
      var all := stream.GetEventHistory(wf, tenants);
      found := [];
      for i := 0 to |all|
        invariant found == OfExecution(all[..i], x)
      {
        assert all[..i + 1][..i] == all[..i];
        if all[i].executionId != "" && all[i].executionId == x {
          found := found + [all[i]];
        }
      }
      assert all[..|all|] == all;
      OfExecutionGathered(OfWorkflow(stream.log, wf), tenants, x);
    }

    method GetNextTask(state: Engine.WorkflowState) returns (next: Option<string>)
      ensures next == NextTask(definition, state.Value())
    {
      var list := TaskList(definition);
      var completedCount := |state.completed|;
      if completedCount >= |list| {
        return None;
      }
      var name := list[completedCount];
      for i := 0 to |state.pending|
        invariant forall j | 0 <= j < i :: state.pending[j].name != name
      {
        if state.pending[i].name == name {
          return None;
        }
      }
      var done := state.IsCompleted(name);
      next := if done then None else Some(name);
    }

    /** Runs a set task on the worker's own copy of the state: its variables change there. */
    method ExecuteSetTask(state: Engine.WorkflowState, setData: Json)
      requires state.Valid()
      modifies state`variables, state.variables
      ensures state.Valid() && state.workflowId == old(state.workflowId) && state.context == old(state.context)
      ensures var written := if setData.Obj? then setData.fields else map[];
              state.Value().variables == Some(Variables(old(state.Value())) + written)
    {
      state.WriteVariables(if setData.Obj? then setData.fields else map[]);
    }

    method CompleteSetTask(state: Engine.WorkflowState, name: string, clock: Clock) returns (ok: bool)
      requires state.Valid() && stream.Valid()
      modifies stream, state`variables, state.variables
      ensures stream.Valid()
      ensures var before := old(state.Value());
              && ok == ("set_data" in TaskInput(definition, before, name, clock))
              && stream.log == old(stream.log)
                 + (if ok then [SetCompletedEvent(definition, before, name, clock)] else [])
              && (ok ==> Variables(state.Value()) == Variables(before) + SetFields(definition, before, name, clock))
      ensures var before, body := old(state.Value()), FirstBody(definition.tasks, name);
              ok ==> var log := stream.log;
                     |log| > 0 && "set" in body
                     && WritesCarried(body["set"], before, clock, log[|log| - 1], Variables(state.Value()))
    {
      var s := state.Value();
      var input := TaskInput(definition, s, name, clock);
      if "set_data" !in input {
        return false;
      }
      ExecuteSetTask(state, input["set_data"]);
      stream.Publish(SetCompletedEvent(definition, s, name, clock));
      CarriesSetData(definition, s, name, clock);
      ok := true;
    }

    /** Publishes what the specification says, and reports whether the pass succeeded. */
    method ExecuteNextStep(state: Engine.WorkflowState, clock: Clock) returns (ok: bool)
      requires state.Valid() && stream.Valid()
      modifies stream, state, state.variables
      ensures stream.Valid()
      ensures var outcome := NextStep(definition, old(state.Value()), clock);
              ok == !outcome.Failure? && stream.log == old(stream.log) + Emission(outcome)
      ensures var before := old(state.Value());
              var next := NextTask(definition, before);
              next.Some? && TaskType(definition, next.value) == "set" && ok ==>
                Variables(state.Value()) == Variables(before) + SetFields(definition, before, next.value, clock)
                && var body, log := FirstBody(definition.tasks, next.value), stream.log;
                   |log| > 0 && "set" in body
                   && WritesCarried(body["set"], before, clock, log[|log| - 1], Variables(state.Value()))
    {
      var s := state.Value();
      var next := GetNextTask(state);
      if next.None? {
        if |state.pending| > 0 || |state.completed| < |definition.tasks| {
          return true;
        }
        stream.Publish(WorkflowCompletedEvent(s));
        state.status := Completed;
        return true;
      }
      var name := next.value;
      var input := TaskInput(definition, s, name, clock);
      var taskType := TaskType(definition, name);
      if taskType == "set" {
        ok := CompleteSetTask(state, name, clock);
        return;
      }
      if taskType == "wait" {
        var text := StrAt(input, "duration").GetOr("");
        if text == "" {
          return false;
        }
        var duration := definition.parseDuration(text);
        if duration.None? {
          return false;
        }
        stream.Publish(ScheduledEvent(s, name, duration.value, clock));
        return true;
      }
      stream.Publish(RequestEvent(definition, s, name, clock));
      return true;
    }

    method ProcessWorkflowEvent(e: Event, clock: Clock, tenants: seq<string>) returns (ok: bool)
      requires stream.Valid()
      modifies stream
      ensures stream.Valid()
      ensures var read := Read(old(stream.log), e.workflowId, e.executionId, tenants);
              var outcome := Processed(definition, read, e, clock);
              ok == !outcome.Failure? && stream.log == old(stream.log) + Emission(outcome)
    {
      if e.kind.WorkflowCreated? {
        return true;
      }
      if e.source.WorkerService? && e.kind.TaskCompleted? {
        return true;
      }
      if e.kind.TaskCompleted? && !e.source.ExecutorService? && !e.source.WorkflowEngine? {
        return true;
      }
      var events;
      if e.executionId != "" {
        events := FetchEventHistoryForExecution(e.workflowId, e.executionId, tenants);
      } else {
        events := stream.GetEventHistory(e.workflowId, tenants);
      }
      var state := Engine.RebuildState(definition.id, events);
      state.ProcessEvent(e);
      ok := ExecuteNextStep(state, clock);
    }
  }
}
