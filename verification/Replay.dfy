/** Events on a workflow's stream and the workflow state they replay to: the meaning of
    worker/internal/engine/serverless_workflow_engine.go as functions on values. */
module Replay {
  import opened Values

  // --- Events -------------------------------------------------------------------------

  /** `OtherType` stands for every type the engine ignores. */
  datatype EventType =
    | WorkflowCreated | ExecutionStarted
    | TaskRequested | TaskCompleted
    | TimerScheduled | TimerFired
    | StepCompleted | WorkflowCompleted | WorkflowFailed
    | OtherType(name: string)

  datatype Source = Api | WorkerService | WorkflowEngine | ExecutorService | TimerService | OtherSource(name: string)

  datatype Event = Event(
    kind: EventType, source: Source, tenantId: string, workflowId: string, executionId: string,
    taskId: string, data: Json)

  /** The first non-empty name among the three places the engine looks in. */
  function TaskName(data: Fields): string {
    var direct := StrAt(data, "task_name");
    if direct.Some? && direct.value != "" then direct.value
    else
      var nested := NestedName(data, "data");
      if nested != "" then nested else NestedName(data, "event")
  }

  function NestedName(data: Fields, section: string): string {
    var inner := ObjAt(data, section);
    if inner.None? then "" else
    var name := StrAt(inner.value, "task_name");
    if name.Some? then name.value else ""
  }

  /** A completion without a boolean `success` counts as successful. */
  predicate Succeeded(data: Fields) {
    "success" in data && data["success"].Bool? ==> data["success"].b
  }

  predicate IsRetryTimer(data: Fields) {
    "retry_type" in data && data["retry_type"] == Str("task_retry")
  }

  /** The events that the engine handles as the completion of a task. */
  predicate IsCompletion(e: Event) {
    e.data.Obj? && (e.kind.TaskCompleted? || (e.kind.TimerFired? && !IsRetryTimer(e.data.fields)))
  }

  predicate IsSuccess(e: Event) {
    IsCompletion(e) && Succeeded(e.data.fields)
  }

  predicate IsRequest(e: Event) {
    e.kind.TaskRequested? && e.data.Obj?
  }

  /** The name under which a request enters the pending list. */
  function RequestedName(data: Fields): string {
    var name := StrAt(data, "task_name");
    if name.Some? then name.value else ""
  }

  // --- State --------------------------------------------------------------------------

  datatype Status = Created | Running | Completed | Failed

  datatype CompletedTask = CompletedTask(name: string, input: Option<Fields>, output: Option<Fields>)

  datatype PendingTask = PendingTask(
    name: string, taskType: string, queue: string, activityName: string, input: Option<Fields>)

  datatype Context = Context(executionId: string, tenantId: string, correlationId: string, trigger: string)

  /** The output is absent, the same object as the variables, or an object of its own. */
  datatype OutputRef = NoOutput | SharedWithVariables | Detached(fields: Fields)

  datatype State = State(
    workflowId: string,
    currentStep: string,
    status: Status,
    variables: Option<Fields>,
    input: Option<Fields>,
    output: OutputRef,
    context: Option<Context>,
    completed: seq<CompletedTask>,
    pending: seq<PendingTask>)

  function Variables(s: State): Fields {
    if s.variables.Some? then s.variables.value else map[]
  }

  function OutputFields(s: State): Fields {
    match s.output
    case NoOutput => map[]
    case SharedWithVariables => Variables(s)
    case Detached(fields) => fields
  }

  function CompletedNames(tasks: seq<CompletedTask>): (names: seq<string>)
    ensures |names| == |tasks|
  {
    seq(|tasks|, i requires 0 <= i < |tasks| => tasks[i].name)
  }

  predicate HasPending(pending: seq<PendingTask>, name: string) {
    exists i | 0 <= i < |pending| :: pending[i].name == name
  }

  /** The list without the first task of that name. */
  function RemovePending(pending: seq<PendingTask>, name: string): seq<PendingTask> {
    if pending == [] then []
    else if pending[0].name == name then pending[1..]
    else [pending[0]] + RemovePending(pending[1..], name)
  }

  // --- Replay -------------------------------------------------------------------------

  function EmptyState(definitionId: string): State {
    State(definitionId, "", Created, None, None, NoOutput, None, [], [])
  }

  function ApplyStarted(s: State, e: Event): State {
    var routed := if e.workflowId != "" then e.workflowId else s.workflowId;
    var s1 := s.(status := Running, workflowId := routed);
    if !e.data.Obj? then s1
    else
      var data := e.data.fields;
      var context := Context(e.executionId, e.tenantId,
                             StrAt(data, "correlation_id").GetOr(""), StrAt(data, "started_by").GetOr(""));
      var s2 := s1.(context := Some(context));
      var input := ObjAt(data, "input");
      if input.None? then s2
      else s2.(input := input, variables := Some(Variables(s) + input.value))
  }

  function ApplyRequested(s: State, e: Event): State {
    if !e.data.Obj? then s
    else
      var data := e.data.fields;
      s.(pending := s.pending + [PendingTask(RequestedName(data), StrAt(data, "task_type").GetOr(""),
                                             StrAt(data, "queue").GetOr(""), StrAt(data, "activity_name").GetOr(""),
                                             ObjAt(data, "input"))])
  }

  function FailureFields(data: Fields): Fields {
    map["error_message" := Str(StrAt(data, "error").GetOr("")), "failed_task" := Str(TaskName(data))]
  }

  /** The output that a completion carries in its nested `data` section. */
  function NestedOutput(data: Fields, key: string): Option<Fields> {
    var section := ObjAt(data, "data");
    if section.Some? then ObjAt(section.value, key) else None
  }

  function ApplyCompletion(s: State, data: Fields): State {
    var name := TaskName(data);
    if !Succeeded(data) then
      s.(status := Failed, variables := Some(Variables(s) + FailureFields(data)))
    else
      var output := NestedOutput(data, "output");
      var task := CompletedTask(name, NestedOutput(data, "input"), output);
      var variables := if output.Some? then Some(Variables(s) + output.value) else s.variables;
      s.(pending := RemovePending(s.pending, name),
         variables := variables,
         completed := if name in CompletedNames(s.completed) then s.completed else s.completed + [task],
         output := if variables.Some? then SharedWithVariables else s.output)
  }

  function NameFields(name: string): Fields {
    map["workflow_name" := Str(name)]
  }

  function StepFields(data: Fields): Fields {
    if "result" in data then map["last_step_result" := data["result"]] else map[]
  }

  function ErrorFields(data: Fields): Fields {
    (if "error" in data then map["error_message" := data["error"]] else map[])
    + (if "error_code" in data then map["error_code" := data["error_code"]] else map[])
  }

  function Apply(s: State, e: Event): State {
    match e.kind
    case WorkflowCreated =>
      var s1 := s.(status := Created);
      if e.data.Obj? && StrAt(e.data.fields, "name").Some?
      then s1.(variables := Some(Variables(s) + NameFields(StrAt(e.data.fields, "name").value)))
      else s1
    case ExecutionStarted => ApplyStarted(s, e)
    case TaskRequested => ApplyRequested(s, e)
    case TaskCompleted => if e.data.Obj? then ApplyCompletion(s, e.data.fields) else s
    case TimerFired =>
      // A retry timer changes nothing in the state; what it publishes is not modelled.
      if e.data.Obj? && !IsRetryTimer(e.data.fields) then ApplyCompletion(s, e.data.fields) else s
    case StepCompleted =>
      if !e.data.Obj? then s
      else
        var data := e.data.fields;
        var s1 := s.(currentStep := StrAt(data, "step_name").GetOr(s.currentStep));
        if "result" in data then s1.(variables := Some(Variables(s) + StepFields(data))) else s1
    case WorkflowCompleted =>
      var s1 := s.(status := Completed);
      if e.data.Obj? && ObjAt(e.data.fields, "output").Some?
      then s1.(output := Detached(ObjAt(e.data.fields, "output").value)) else s1
    case WorkflowFailed =>
      var s1 := s.(status := Failed);
      if e.data.Obj? then s1.(variables := Some(Variables(s) + ErrorFields(e.data.fields))) else s1
    case _ => s
  }

  /** The state after a whole history, oldest event first. */
  function Rebuilt(definitionId: string, history: seq<Event>): State {
    if history == [] then EmptyState(definitionId)
    else Apply(Rebuilt(definitionId, history[..|history| - 1]), history[|history| - 1])
  }

  lemma RebuiltSnoc(definitionId: string, history: seq<Event>, e: Event)
    ensures Rebuilt(definitionId, history + [e]) == Apply(Rebuilt(definitionId, history), e)
  {
    assert (history + [e])[..|history|] == history;
  }
}
