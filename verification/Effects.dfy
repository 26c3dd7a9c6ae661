/** What each event does to the state that a history replays to, said field by field in terms of
    the event's own data. */
module Effects {
  import opened Values
  import opened Replay
  import opened Protocol

  /** The data has this text under the key. */
  predicate Says(data: Fields, key: string, text: string) {
    key in data && data[key] == Str(text)
  }

  /** The text under the key, if there is one. */
  predicate ReadsAs(data: Fields, key: string, text: string) {
    if key in data && data[key].Str? then data[key].s == text else text == ""
  }

  // --- Names --------------------------------------------------------------------------

  predicate SaysInside(data: Fields, section: string, name: string) {
    section in data && data[section].Obj? && Says(data[section].fields, "task_name", name)
  }

  predicate SilentInside(data: Fields, section: string) {
    section in data && data[section].Obj? ==> ReadsAs(data[section].fields, "task_name", "")
  }

  /** A completion is for the task named in it, or else in its section `data`, or else in its
      section `event`. */
  lemma NameOfCompletion(data: Fields, name: string)
    requires name != ""
    ensures Says(data, "task_name", name) ==> TaskName(data) == name
    ensures ReadsAs(data, "task_name", "") && SaysInside(data, "data", name) ==> TaskName(data) == name
    ensures ReadsAs(data, "task_name", "") && SilentInside(data, "data") && SaysInside(data, "event", name) ==>
              TaskName(data) == name
  {
  }

  // --- Pending tasks ------------------------------------------------------------------

  /** The first pending task of that name goes, and only that one. */
  lemma {:induction false} FirstIsRemoved(pending: seq<PendingTask>, name: string, i: nat)
    requires i < |pending| && pending[i].name == name && forall k | 0 <= k < i :: pending[k].name != name
    ensures RemovePending(pending, name) == pending[..i] + pending[i + 1..]
  {
    if i > 0 {
      FirstIsRemoved(pending[1..], name, i - 1);
      assert pending[..i] == [pending[0]] + pending[1..][..i - 1];
      assert pending[1..][i..] == pending[i + 1..];
    }
  }

  /** A request is pending afterwards with what it says of itself; nothing else changes. */
  lemma RequestIsPending(
    id: string, h: seq<Event>, e: Event, name: string, taskType: string, queue: string, activity: string)
    requires e.kind.TaskRequested? && e.data.Obj?
    requires ReadsAs(e.data.fields, "task_name", name) && ReadsAs(e.data.fields, "task_type", taskType)
    requires ReadsAs(e.data.fields, "queue", queue) && ReadsAs(e.data.fields, "activity_name", activity)
    ensures var data, before := e.data.fields, Rebuilt(id, h);
            var input := if "input" in data && data["input"].Obj? then Some(data["input"].fields) else None;
            Rebuilt(id, h + [e])
            == before.(pending := before.pending + [PendingTask(name, taskType, queue, activity, input)])
  {
    RebuiltSnoc(id, h, e);
  }

  /** A history without events replays to a state that nothing has happened to. */
  lemma NothingReplayed(id: string)
    ensures Rebuilt(id, []) == State(id, "", Created, None, None, NoOutput, None, [], [])
  {
  }

  // --- Start --------------------------------------------------------------------------

  /** A start event makes the execution run, gives it its identity, and its input becomes both the
      recorded input and variables. */
  lemma StartIsApplied(id: string, h: seq<Event>, e: Event, correlation: string, trigger: string)
    requires e.kind.ExecutionStarted? && e.data.Obj?
    requires ReadsAs(e.data.fields, "correlation_id", correlation) && ReadsAs(e.data.fields, "started_by", trigger)
    ensures var data, before, after := e.data.fields, Rebuilt(id, h), Rebuilt(id, h + [e]);
            && after.status == Running
            && after.context == Some(Context(e.executionId, e.tenantId, correlation, trigger))
            && after.workflowId == (if e.workflowId != "" then e.workflowId else before.workflowId)
            && after.completed == before.completed && after.pending == before.pending
            && (if "input" in data && data["input"].Obj?
                then after.input == Some(data["input"].fields)
                     && Variables(after) == Variables(before) + data["input"].fields
                else after.input == before.input && after.variables == before.variables)
  {
    RebuiltSnoc(id, h, e);
  }

  // --- Answers of the executor --------------------------------------------------------

  /** What an answer carries. */
  lemma AnswerCarries(request: Event, success: bool, output: Fields, error: string)
    requires IsRequest(request)
    ensures var e := AnswerEvent(request, success, output, error);
            e.kind.TaskCompleted? && e.data.Obj?
            && var data := e.data.fields;
               Says(data, "task_name", RequestedName(request.data.fields)) && Says(data, "error", error)
               && "success" in data && data["success"] == Bool(success)
               && NestedOutput(data, "output") == Some(output)
               && NestedOutput(data, "input") == Some(ObjAt(request.data.fields, "input").GetOr(map[]))
  {
  }

  /** A successful answer merges the output into the variables, and the workflow's output is that
      of its variables. */
  lemma AnswerIsMerged(id: string, h: seq<Event>, request: Event, output: Fields, error: string)
    requires IsRequest(request)
    ensures var before, after := Rebuilt(id, h), Rebuilt(id, h + [AnswerEvent(request, true, output, error)]);
            && Variables(after) == Variables(before) + output && after.output == SharedWithVariables
            && after.input == before.input && after.context == before.context && after.status == before.status
  {
    AnswerCarries(request, true, output, error);
    RebuiltSnoc(id, h, AnswerEvent(request, true, output, error));
  }

  /** It takes the first pending task of the request's name away, and adds the task to the completed
      ones, unless it is there, with this output and the request's input. */
  lemma AnswerIsRecorded(
    id: string, h: seq<Event>, request: Event, output: Fields, error: string, name: string, input: Fields)
    requires IsRequest(request) && name != "" && Says(request.data.fields, "task_name", name)
    requires "input" in request.data.fields && request.data.fields["input"] == Obj(input)
    ensures var before, after := Rebuilt(id, h), Rebuilt(id, h + [AnswerEvent(request, true, output, error)]);
            && after.pending == RemovePending(before.pending, name)
            && after.completed == if name in CompletedNames(before.completed) then before.completed
                                  else before.completed + [CompletedTask(name, Some(input), Some(output))]
  {
    var e := AnswerEvent(request, true, output, error);
    AnswerCarries(request, true, output, error);
    RebuiltSnoc(id, h, e);
    assert Apply(Rebuilt(id, h), e) == ApplyCompletion(Rebuilt(id, h), e.data.fields);
  }

  /** An answer without success fails the workflow, says which task and why, and leaves its lists
      alone. */
  lemma FailureIsRecorded(id: string, h: seq<Event>, request: Event, output: Fields, error: string, name: string)
    requires IsRequest(request) && name != "" && Says(request.data.fields, "task_name", name)
    ensures var before, after := Rebuilt(id, h), Rebuilt(id, h + [AnswerEvent(request, false, output, error)]);
            && Variables(after) == Variables(before) + map["error_message" := Str(error), "failed_task" := Str(name)]
            && after == before.(status := Failed, variables := after.variables)
  {
    AnswerCarries(request, false, output, error);
    RebuiltSnoc(id, h, AnswerEvent(request, false, output, error));
  }

  // --- Timers -------------------------------------------------------------------------

  /** A timer that fires completes its task and writes nothing. */
  lemma FiringIsRecorded(id: string, h: seq<Event>, t: Timer)
    requires t.taskName != ""
    ensures var before, after := Rebuilt(id, h), Rebuilt(id, h + [FiredEvent(t)]);
            && after.variables == before.variables && after.status == before.status
            && after.pending == RemovePending(before.pending, t.taskName)
            && after.completed == if t.taskName in CompletedNames(before.completed) then before.completed
                                  else before.completed + [CompletedTask(t.taskName, None, None)]
  {
    RebuiltSnoc(id, h, FiredEvent(t));
  }

  /** A timer that says that it is for a retry changes nothing. */
  lemma RetryTimerIsIgnored(id: string, h: seq<Event>, e: Event)
    requires e.kind.TimerFired? && e.data.Obj? && Says(e.data.fields, "retry_type", "task_retry")
    ensures Rebuilt(id, h + [e]) == Rebuilt(id, h)
  {
    RebuiltSnoc(id, h, e);
  }

  // --- The other events ---------------------------------------------------------------

  /** Without the data that they look for, the other events set the status at most. */
  lemma SilentEvents(id: string, h: seq<Event>, e: Event)
    requires e.data.Obj?
    ensures var data, before, after := e.data.fields, Rebuilt(id, h), Rebuilt(id, h + [e]);
            && (e.kind.WorkflowCreated? && ("name" in data ==> !data["name"].Str?) ==>
                  after == before.(status := Created))
            && (e.kind.StepCompleted? && "result" !in data && ("step_name" in data ==> !data["step_name"].Str?) ==>
                  after == before)
            && (e.kind.WorkflowCompleted? && ("output" in data ==> !data["output"].Obj?) ==>
                  after == before.(status := Completed))
            && (e.kind.WorkflowFailed? && "error" !in data && "error_code" !in data ==>
                  after.(variables := before.variables) == before.(status := Failed)
                  && Variables(after) == Variables(before))
  {
    RebuiltSnoc(id, h, e);
    assert Variables(Rebuilt(id, h)) + map[] == Variables(Rebuilt(id, h));
  }

  lemma CreationIsApplied(id: string, h: seq<Event>, e: Event, name: string)
    requires e.kind.WorkflowCreated? && e.data.Obj? && Says(e.data.fields, "name", name)
    ensures var before := Rebuilt(id, h);
            Rebuilt(id, h + [e])
            == before.(status := Created, variables := Some(Variables(before) + map["workflow_name" := Str(name)]))
  {
    RebuiltSnoc(id, h, e);
  }

  lemma StepIsApplied(id: string, h: seq<Event>, e: Event, step: string, result: Json)
    requires e.kind.StepCompleted? && e.data.Obj? && Says(e.data.fields, "step_name", step)
    requires "result" in e.data.fields && e.data.fields["result"] == result
    ensures var before := Rebuilt(id, h);
            Rebuilt(id, h + [e])
            == before.(currentStep := step, variables := Some(Variables(before) + map["last_step_result" := result]))
  {
    RebuiltSnoc(id, h, e);
  }

  lemma CompletionIsApplied(id: string, h: seq<Event>, e: Event, output: Fields)
    requires e.kind.WorkflowCompleted? && e.data.Obj?
    requires "output" in e.data.fields && e.data.fields["output"] == Obj(output)
    ensures Rebuilt(id, h + [e]) == Rebuilt(id, h).(status := Completed, output := Detached(output))
  {
    RebuiltSnoc(id, h, e);
    ReportIsApplied(Rebuilt(id, h), e, output);
  }

  lemma ReportIsApplied(s: State, e: Event, output: Fields)
    requires e.kind.WorkflowCompleted? && e.data.Obj? && ObjAt(e.data.fields, "output") == Some(output)
    ensures Apply(s, e) == s.(status := Completed, output := Detached(output))
  {
  }

  lemma WorkflowFailureIsApplied(id: string, h: seq<Event>, e: Event, error: Json, code: Json)
    requires e.kind.WorkflowFailed? && e.data.Obj?
    requires "error" in e.data.fields && e.data.fields["error"] == error
    requires "error_code" in e.data.fields && e.data.fields["error_code"] == code
    ensures var before := Rebuilt(id, h);
            Rebuilt(id, h + [e])
            == before.(status := Failed,
                       variables := Some(Variables(before) + map["error_message" := error, "error_code" := code]))
  {
    RebuiltSnoc(id, h, e);
    ErrorIsWritten(e.data.fields, error, code);
    ErrorIsApplied(Rebuilt(id, h), e);
  }

  lemma ErrorIsApplied(s: State, e: Event)
    requires e.kind.WorkflowFailed? && e.data.Obj?
    ensures Apply(s, e) == s.(status := Failed, variables := Some(Variables(s) + ErrorFields(e.data.fields)))
  {
  }

  lemma ErrorIsWritten(data: Fields, error: Json, code: Json)
    requires "error" in data && data["error"] == error && "error_code" in data && data["error_code"] == code
    ensures ErrorFields(data) == map["error_message" := error, "error_code" := code]
  {
  }

  /** What is said by half is applied by half. */
  lemma HalfFailures(id: string, h: seq<Event>, e: Event)
    requires e.kind.WorkflowFailed? && e.data.Obj?
    ensures var data, before, after := e.data.fields, Rebuilt(id, h), Rebuilt(id, h + [e]);
            && ("error" in data && "error_code" !in data ==>
                  Variables(after) == Variables(before) + map["error_message" := data["error"]])
            && ("error" !in data && "error_code" in data ==>
                  Variables(after) == Variables(before) + map["error_code" := data["error_code"]])
  {
    RebuiltSnoc(id, h, e);
    ErrorIsApplied(Rebuilt(id, h), e);
    HalfErrors(e.data.fields);
  }

  lemma HalfSteps(id: string, h: seq<Event>, e: Event)
    requires e.kind.StepCompleted? && e.data.Obj?
    ensures var data, before, after := e.data.fields, Rebuilt(id, h), Rebuilt(id, h + [e]);
            && ("result" !in data && "step_name" in data && data["step_name"].Str? ==>
                  after == before.(currentStep := data["step_name"].s))
            && ("result" in data && "step_name" !in data ==>
                  after.currentStep == before.currentStep
                  && Variables(after) == Variables(before) + map["last_step_result" := data["result"]])
  {
    RebuiltSnoc(id, h, e);
  }

  lemma HalfErrors(data: Fields)
    ensures "error" in data && "error_code" !in data ==> ErrorFields(data) == map["error_message" := data["error"]]
    ensures "error" !in data && "error_code" in data ==> ErrorFields(data) == map["error_code" := data["error_code"]]
  {
  }

  /** An event whose data is no object sets the status at most, and a start also the routing. */
  lemma EventsWithoutData(id: string, h: seq<Event>, e: Event)
    requires !e.data.Obj?
    ensures var before, after := Rebuilt(id, h), Rebuilt(id, h + [e]);
            && (e.kind.WorkflowCreated? ==> after == before.(status := Created))
            && (e.kind.WorkflowCompleted? ==> after == before.(status := Completed))
            && (e.kind.WorkflowFailed? ==> after == before.(status := Failed))
            && (e.kind.ExecutionStarted? ==>
                  after == before.(status := Running,
                                   workflowId := if e.workflowId != "" then e.workflowId else before.workflowId))
  {
    RebuiltSnoc(id, h, e);
    ApplyWithoutData(Rebuilt(id, h), e);
  }

  lemma ApplyWithoutData(s: State, e: Event)
    requires !e.data.Obj?
    ensures e.kind.WorkflowCreated? ==> Apply(s, e) == s.(status := Created)
    ensures e.kind.WorkflowCompleted? ==> Apply(s, e) == s.(status := Completed)
    ensures e.kind.WorkflowFailed? ==> Apply(s, e) == s.(status := Failed)
    ensures var routed := if e.workflowId != "" then e.workflowId else s.workflowId;
            e.kind.ExecutionStarted? ==> Apply(s, e) == s.(status := Running, workflowId := routed)
  {
    match e.kind {
      case WorkflowCreated =>
      case WorkflowCompleted =>
      case WorkflowFailed =>
      case ExecutionStarted => assert Apply(s, e) == ApplyStarted(s, e);
      case _ =>
    }
  }

  /** Events of other types, scheduled timers, and events without an object for data write nothing. */
  lemma OthersAreIgnored(id: string, h: seq<Event>, e: Event)
    requires var k := e.kind;
             || k.TimerScheduled? || k.OtherType?
             || (!e.data.Obj? && (k.TaskRequested? || k.TaskCompleted? || k.TimerFired? || k.StepCompleted?))
    ensures Rebuilt(id, h + [e]) == Rebuilt(id, h)
  {
    RebuiltSnoc(id, h, e);
  }
}
