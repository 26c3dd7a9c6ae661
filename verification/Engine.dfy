/** The engine's mutable workflow state and its event handlers, in the form of
    worker/internal/engine/serverless_workflow_engine.go: one state object that every handler
    updates in place, with its variables in an object the output may alias. */
module Engine {
  import opened Values
  import opened Replay

  /** A protobuf struct: a reference to a mutable table of fields. */
  class Struct {
    var fields: Fields

    constructor (fields: Fields)
      ensures this.fields == fields
    {
      this.fields := fields;
    }
  }

  class WorkflowState {
    var workflowId: string
    var currentStep: string
    var status: Status
    var variables: Struct?
    var input: Struct?
    var output: Struct?
    var context: Option<Context>
    var completed: seq<CompletedTask>
    var pending: seq<PendingTask>

    /** The recorded input is never the object that handlers write to. */
    ghost predicate Valid()
      reads this
    {
      input != null ==> input != variables
    }

    /** The value the object stands for. */
    function Value(): State
      reads this, variables, input, output
    {
      State(workflowId, currentStep, status,
            if variables == null then None else Some(variables.fields),
            if input == null then None else Some(input.fields),
            if output == null then NoOutput
            else if output == variables then SharedWithVariables
            else Detached(output.fields),
            context, completed, pending)
    }

    constructor (definitionId: string)
      ensures Valid() && Value() == EmptyState(definitionId)
      ensures variables == null && input == null && output == null
    {
      workflowId, currentStep, status := definitionId, "", Created;
      variables, input, output := null, null, null;
      context, completed, pending := None, [], [];
    }

    /** Every structure that is reachable afterwards was reachable before or is new. */
    twostate predicate Owned()
      reads this
    {
      && (variables == old(variables) || fresh(variables))
      && (input == old(input) || fresh(input))
      && (output == old(output) || output == variables || fresh(output))
    }

    method WriteVariables(values: Fields)
      requires Valid()
      modifies this`variables, variables
      ensures Valid() && Owned()
      ensures Value() == old(Value()).(variables := Some(Variables(old(Value())) + values))
    {
      if variables == null {
        variables := new Struct(map[]);
      }
      variables.fields := variables.fields + values;
    }

    method ProcessStarted(e: Event)
      requires Valid()
      modifies this, variables
      ensures Valid() && Owned()
      ensures Value() == ApplyStarted(old(Value()), e)
    {
      status := Running;
      if e.workflowId != "" {
        workflowId := e.workflowId;
      }
      if e.data.Obj? {
        var data := e.data.fields;
        context := Some(Context(e.executionId, e.tenantId,
                                StrAt(data, "correlation_id").GetOr(""), StrAt(data, "started_by").GetOr("")));
        var given := ObjAt(data, "input");
        if given.Some? {
          input := new Struct(given.value);
          WriteVariables(given.value);
        }
      }
    }

    method ProcessRequested(e: Event)
      requires Valid()
      modifies this`pending
      ensures Value() == ApplyRequested(old(Value()), e)
    {
      if e.data.Obj? {
        var data := e.data.fields;
        var task := PendingTask(StrAt(data, "task_name").GetOr(""), StrAt(data, "task_type").GetOr(""),
                                StrAt(data, "queue").GetOr(""), StrAt(data, "activity_name").GetOr(""),
                                ObjAt(data, "input"));
        pending := pending + [task];
      }
    }

    method RemoveFromPending(name: string)
      modifies this`pending
      ensures pending == RemovePending(old(pending), name)
    {
      for i := 0 to |pending|
        invariant pending == old(pending)
        invariant RemovePending(pending, name) == pending[..i] + RemovePending(pending[i..], name)
      {
        if pending[i].name == name {
          pending := pending[..i] + pending[i + 1..];
          return;
        }
        assert pending[..i] + [pending[i]] == pending[..i + 1];
      }
      assert pending[|pending|..] == [] && pending[..|pending|] == pending;
    }

    method IsCompleted(name: string) returns (found: bool)
      ensures found == (name in CompletedNames(completed))
    {
      for i := 0 to |completed|
        invariant name !in CompletedNames(completed)[..i]
      {
        assert CompletedNames(completed)[i] == completed[i].name;
        if completed[i].name == name {
          return true;
        }
        assert CompletedNames(completed)[..i + 1] == CompletedNames(completed)[..i] + [completed[i].name];
      }
      assert CompletedNames(completed)[..|completed|] == CompletedNames(completed);
      found := false;
    }

    method ProcessCompletion(data: Fields)
      requires Valid()
      modifies this, variables
      ensures Valid() && Owned()
      ensures Value() == ApplyCompletion(old(Value()), data)
    {
      var name := TaskName(data);
      if !Succeeded(data) {
        status := Failed;
        WriteVariables(FailureFields(data));
        return;
      }
      RemoveFromPending(name);
      var taskOutput := NestedOutput(data, "output");
      var task := CompletedTask(name, NestedOutput(data, "input"), taskOutput);
      if taskOutput.Some? {
        WriteVariables(taskOutput.value);
      }
      var already := IsCompleted(name);
      if !already {
        completed := completed + [task];
      }
      if variables != null {
        output := variables;
      }
    }

    method ProcessEvent(e: Event)
      requires Valid()
      modifies this, variables
      ensures Valid() && Owned()
      ensures Value() == Apply(old(Value()), e)
    {
      match e.kind {
        case WorkflowCreated =>
          status := Created;
          if e.data.Obj? && StrAt(e.data.fields, "name").Some? {
            WriteVariables(NameFields(StrAt(e.data.fields, "name").value));
          }
        case ExecutionStarted => ProcessStarted(e);
        case TaskRequested => ProcessRequested(e);
        case TaskCompleted =>
          if e.data.Obj? {
            ProcessCompletion(e.data.fields);
          }
        case TimerFired =>
          if e.data.Obj? && !IsRetryTimer(e.data.fields) {
            ProcessCompletion(e.data.fields);
          }
        case StepCompleted =>
          if e.data.Obj? {
            currentStep := StrAt(e.data.fields, "step_name").GetOr(currentStep);
            if "result" in e.data.fields {
              WriteVariables(StepFields(e.data.fields));
            }
          }
        case WorkflowCompleted =>
          status := Completed;
          if e.data.Obj? && ObjAt(e.data.fields, "output").Some? {
            output := new Struct(ObjAt(e.data.fields, "output").value);
          }
        case WorkflowFailed =>
          status := Failed;
          if e.data.Obj? {
            WriteVariables(ErrorFields(e.data.fields));
          }
        case _ =>
      }
    }
  }

  /** Replays a history into a new state object. */
  method RebuildState(definitionId: string, events: seq<Event>) returns (state: WorkflowState)
    ensures fresh(state) && state.Valid()
    ensures state.variables != null ==> fresh(state.variables)
    ensures state.Value() == Rebuilt(definitionId, events)
  {
    state := new WorkflowState(definitionId);
    for i := 0 to |events|
      invariant fresh(state) && state.Valid()
      invariant state.variables != null ==> fresh(state.variables)
      invariant state.Value() == Rebuilt(definitionId, events[..i])
    {
      state.ProcessEvent(events[i]);
      assert events[..i + 1] == events[..i] + [events[i]];
      RebuiltSnoc(definitionId, events[..i], events[i]);
    }
    assert events[..|events|] == events;
  }
}
