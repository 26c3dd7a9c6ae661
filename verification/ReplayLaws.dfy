/** What a replayed state says about its history, for every history. */
module ReplayLaws {
  import opened Values
  import opened Replay

  function Last<T>(s: seq<T>): T
    requires s != []
  {
    s[|s| - 1]
  }

  function Front<T>(s: seq<T>): seq<T>
    requires s != []
  {
    s[..|s| - 1]
  }

  // --- Completed tasks ----------------------------------------------------------------

  /** The names of the successful completions, in history order. */
  function Successes(history: seq<Event>): seq<string> {
    if history == [] then []
    else Successes(Front(history)) +
         (if IsSuccess(Last(history)) then [TaskName(Last(history).data.fields)] else [])
  }

  /** The list without repetitions, each element where it first occurs. */
  function Dedup(names: seq<string>): seq<string> {
    if names == [] then []
    else
      var earlier := Dedup(Front(names));
      if Last(names) in earlier then earlier else earlier + [Last(names)]
  }

  predicate Distinct(names: seq<string>) {
    forall i, j | 0 <= i < j < |names| :: names[i] != names[j]
  }

  lemma {:induction false} DoneIsDistinct(names: seq<string>)
    ensures Distinct(Dedup(names))
  {
    if names != [] {
      DoneIsDistinct(Front(names));
    }
  }

  /** The completed list of an execution's history. */
  function Done(history: seq<Event>): seq<string> {
    Dedup(Successes(history))
  }

  function FirstIndex(names: seq<string>, name: string): nat
    requires name in names
  {
    if names[0] == name then 0 else 1 + FirstIndex(names[1..], name)
  }

  lemma {:induction false} FirstIndexOfConcat(names: seq<string>, more: seq<string>, name: string)
    requires name in names
    ensures FirstIndex(names + more, name) == FirstIndex(names, name) < |names|
    decreases |names|
  {
    if names[0] != name {
      assert (names + more)[1..] == names[1..] + more;
      FirstIndexOfConcat(names[1..], more, name);
    }
  }

  lemma {:induction false} FirstIndexOfNew(names: seq<string>, name: string)
    requires name !in names
    ensures FirstIndex(names + [name], name) == |names|
    decreases |names|
  {
    if names != [] {
      assert (names + [name])[1..] == names[1..] + [name];
      FirstIndexOfNew(names[1..], name);
    }
  }

  /** Dedup keeps exactly the elements, once each, ordered by their first occurrence. */
  lemma {:induction false} DedupKeepsFirstOccurrences(names: seq<string>)
    ensures forall n :: n in Dedup(names) <==> n in names
    ensures forall i, j | 0 <= i < j < |Dedup(names)| ::
              FirstIndex(names, Dedup(names)[i]) < FirstIndex(names, Dedup(names)[j])
  {
    if names != [] {
      var front, last := Front(names), Last(names);
      DedupKeepsFirstOccurrences(front);
      assert names == front + [last];
      forall n | n in front ensures FirstIndex(names, n) == FirstIndex(front, n) < |front| {
        FirstIndexOfConcat(front, [last], n);
      }
      if last !in front {
        FirstIndexOfNew(front, last);
      }
      forall i, j | 0 <= i < j < |Dedup(names)|
        ensures FirstIndex(names, Dedup(names)[i]) < FirstIndex(names, Dedup(names)[j])
      {
        assert Dedup(names)[i] == Dedup(front)[i] && Dedup(front)[i] in Dedup(front);
        if j < |Dedup(front)| {
          assert Dedup(names)[j] == Dedup(front)[j] && Dedup(front)[j] in Dedup(front);
        }
      }
    }
  }

  lemma DoneSnoc(history: seq<Event>, e: Event)
    ensures Done(history + [e]) ==
            if IsSuccess(e) && TaskName(e.data.fields) !in Done(history)
            then Done(history) + [TaskName(e.data.fields)] else Done(history)
  {
    assert Front(history + [e]) == history;
    if IsSuccess(e) {
      var s := Successes(history + [e]);
      assert Front(s) == Successes(history) && Last(s) == TaskName(e.data.fields);
    } else {
      assert Successes(history) + [] == Successes(history);
    }
  }

  lemma OnlySuccessCompletes(s: State, e: Event)
    requires !IsSuccess(e)
    ensures Apply(s, e).completed == s.completed
  {
  }

  lemma SuccessCompletesOnce(s: State, e: Event)
    requires IsSuccess(e)
    ensures var done, name := CompletedNames(s.completed), TaskName(e.data.fields);
            CompletedNames(Apply(s, e).completed) == if name in done then done else done + [name]
  {
    assert Apply(s, e) == ApplyCompletion(s, e.data.fields);
  }

  /** The replayed completed list is the deduplicated list of successful completions. */
  lemma {:induction false} CompletedIsDone(id: string, history: seq<Event>)
    ensures CompletedNames(Rebuilt(id, history).completed) == Done(history)
  {
    if history != [] {
      var before, e := Front(history), Last(history);
      assert history == before + [e];
      CompletedIsDone(id, before);
      DoneSnoc(before, e);
      if IsSuccess(e) {
        SuccessCompletesOnce(Rebuilt(id, before), e);
      } else {
        OnlySuccessCompletes(Rebuilt(id, before), e);
      }
    }
  }

  lemma {:induction false} SuccessIsDone(history: seq<Event>, e: Event)
    requires e in history && IsSuccess(e)
    ensures TaskName(e.data.fields) in Done(history)
  {
    assert history == Front(history) + [Last(history)];
    DoneSnoc(Front(history), Last(history));
    if e in Front(history) {
      SuccessIsDone(Front(history), e);
    }
  }

  lemma {:induction false} DoneIsSuccess(history: seq<Event>, name: string) returns (i: nat)
    requires name in Done(history)
    ensures i < |history| && IsSuccess(history[i]) && TaskName(history[i].data.fields) == name
  {
    if history != [] {
      assert history == Front(history) + [Last(history)];
      DoneSnoc(Front(history), Last(history));
    }
    if name in Done(Front(history)) {
      i := DoneIsSuccess(Front(history), name);
    } else {
      i := |history| - 1;
    }
  }

  /** Applying an event again after a replay that contains it leaves the completed list alone. */
  lemma ReapplyingKeepsCompleted(id: string, history: seq<Event>, e: Event)
    requires e in history
    ensures Apply(Rebuilt(id, history), e).completed == Rebuilt(id, history).completed
  {
    if IsSuccess(e) {
      SuccessIsDone(history, e);
      CompletedIsDone(id, history);
    }
  }

  // --- Status and variables -----------------------------------------------------------

  /** The status an event sets, when it sets one. */
  function StatusSet(e: Event): Option<Status> {
    match e.kind
    case WorkflowCreated => Some(Created)
    case ExecutionStarted => Some(Running)
    case WorkflowCompleted => Some(Completed)
    case WorkflowFailed => Some(Failed)
    case _ => if IsCompletion(e) && !IsSuccess(e) then Some(Failed) else None
  }

  /** The variables an event writes. */
  function Writes(e: Event): Fields {
    if !e.data.Obj? then map[]
    else
      var data := e.data.fields;
      match e.kind
      case WorkflowCreated =>
        if StrAt(data, "name").Some? then NameFields(StrAt(data, "name").value) else map[]
      case ExecutionStarted => ObjAt(data, "input").GetOr(map[])
      case StepCompleted => StepFields(data)
      case WorkflowFailed => ErrorFields(data)
      case _ =>
        if !IsCompletion(e) then map[]
        else if IsSuccess(e) then NestedOutput(data, "output").GetOr(map[])
        else FailureFields(data)
  }

  lemma ApplySetsStatus(s: State, e: Event)
    ensures Apply(s, e).status == StatusSet(e).GetOr(s.status)
  {
  }

  lemma CompletionWrites(s: State, e: Event)
    requires IsCompletion(e)
    ensures Variables(Apply(s, e)) == Variables(s) + Writes(e)
  {
    assert Apply(s, e) == ApplyCompletion(s, e.data.fields);
    assert Variables(s) + map[] == Variables(s);
  }

  lemma ApplyWrites(s: State, e: Event)
    ensures Variables(Apply(s, e)) == Variables(s) + Writes(e)
  {
    if IsCompletion(e) {
      CompletionWrites(s, e);
    } else {
      assert Variables(s) + map[] == Variables(s);
    }
  }

  /** The status is the one set by the last event that sets one. */
  lemma {:induction false} StatusIsLastSet(id: string, history: seq<Event>, k: nat)
    requires k <= |history|
    requires forall j | k <= j < |history| :: StatusSet(history[j]).None?
    requires k == 0 || StatusSet(history[k - 1]).Some?
    ensures Rebuilt(id, history).status == if k == 0 then Created else StatusSet(history[k - 1]).value
  {
    if history != [] {
      ApplySetsStatus(Rebuilt(id, Front(history)), Last(history));
      if k < |history| {
        StatusIsLastSet(id, Front(history), k);
      }
    }
  }

  /** Every variable holds what its last writer wrote, and is absent when nothing wrote it. */
  lemma {:induction false} VariableIsLastWritten(id: string, history: seq<Event>, name: string, k: nat)
    requires k <= |history|
    requires forall j | k <= j < |history| :: name !in Writes(history[j])
    requires k == 0 || name in Writes(history[k - 1])
    ensures Lookup(Variables(Rebuilt(id, history)), name)
            == if k == 0 then None else Some(Writes(history[k - 1])[name])
  {
    if history != [] {
      ApplyWrites(Rebuilt(id, Front(history)), Last(history));
      if k < |history| {
        VariableIsLastWritten(id, Front(history), name, k);
      }
    }
  }

  // --- Pending tasks ------------------------------------------------------------------

  function Count(pending: seq<PendingTask>, name: string): nat {
    if pending == [] then 0 else (if pending[0].name == name then 1 else 0) + Count(pending[1..], name)
  }

  lemma {:induction false} CountAppend(pending: seq<PendingTask>, task: PendingTask, name: string)
    ensures Count(pending + [task], name) == Count(pending, name) + if task.name == name then 1 else 0
    decreases |pending|
  {
    if pending == [] {
      assert (pending + [task])[1..] == [];
    } else {
      assert (pending + [task])[1..] == pending[1..] + [task];
      CountAppend(pending[1..], task, name);
    }
  }

  lemma {:induction false} CountRemoved(pending: seq<PendingTask>, removed: string, name: string)
    ensures Count(RemovePending(pending, removed), name)
            == if removed == name && Count(pending, name) > 0 then Count(pending, name) - 1 else Count(pending, name)
  {
    if pending != [] && pending[0].name != removed {
      CountRemoved(pending[1..], removed, name);
      assert RemovePending(pending, removed)[1..] == RemovePending(pending[1..], removed);
    }
  }

  lemma {:induction false} CountedIsPending(pending: seq<PendingTask>, name: string)
    ensures HasPending(pending, name) <==> Count(pending, name) > 0
  {
    if pending != [] {
      CountedIsPending(pending[1..], name);
      forall i | 0 <= i < |pending| && pending[i].name == name ensures Count(pending, name) > 0 {
        if i > 0 {
          assert pending[1..][i - 1].name == name;
        }
      }
    }
  }

  lemma {:induction false} RemovingAbsent(pending: seq<PendingTask>, name: string)
    requires !HasPending(pending, name)
    ensures RemovePending(pending, name) == pending
  {
    if pending != [] {
      assert pending[0].name != name;
      assert forall i | 0 <= i < |pending[1..]| :: pending[1..][i] == pending[i + 1];
      RemovingAbsent(pending[1..], name);
    }
  }

  /** Requests of `name` that no later success has answered; a success answers one of them. */
  function Outstanding(history: seq<Event>, name: string): nat {
    if history == [] then 0
    else
      var before, e := Outstanding(Front(history), name), Last(history);
      if IsRequest(e) && RequestedName(e.data.fields) == name then before + 1
      else if IsSuccess(e) && TaskName(e.data.fields) == name && before > 0 then before - 1
      else before
  }

  lemma PendingAfter(s: State, e: Event, name: string)
    ensures Count(Apply(s, e).pending, name) ==
            if IsRequest(e) && RequestedName(e.data.fields) == name then Count(s.pending, name) + 1
            else if IsSuccess(e) && TaskName(e.data.fields) == name && Count(s.pending, name) > 0
            then Count(s.pending, name) - 1
            else Count(s.pending, name)
  {
    if IsRequest(e) {
      var task := PendingTask(RequestedName(e.data.fields), StrAt(e.data.fields, "task_type").GetOr(""),
                              StrAt(e.data.fields, "queue").GetOr(""),
                              StrAt(e.data.fields, "activity_name").GetOr(""), ObjAt(e.data.fields, "input"));
      assert Apply(s, e).pending == s.pending + [task];
      CountAppend(s.pending, task, name);
    } else if IsSuccess(e) {
      assert Apply(s, e) == ApplyCompletion(s, e.data.fields);
      CountRemoved(s.pending, TaskName(e.data.fields), name);
    } else {
      assert Apply(s, e).pending == s.pending;
    }
  }

  /** The pending list holds each name as often as the history leaves it outstanding. */
  lemma {:induction false} PendingIsOutstanding(id: string, history: seq<Event>, name: string)
    ensures Count(Rebuilt(id, history).pending, name) == Outstanding(history, name)
  {
    if history != [] {
      PendingIsOutstanding(id, Front(history), name);
      PendingAfter(Rebuilt(id, Front(history)), Last(history), name);
    }
  }

  predicate Requests(e: Event, name: string) {
    IsRequest(e) && RequestedName(e.data.fields) == name
  }

  /** A requested task never gets lost: after any replay it is pending or completed. */
  lemma {:induction false} RequestedStaysVisible(history: seq<Event>, e: Event, name: string)
    requires e in history && Requests(e, name)
    ensures Outstanding(history, name) > 0 || name in Done(history)
  {
    assert history == Front(history) + [Last(history)];
    DoneSnoc(Front(history), Last(history));
    if e in Front(history) {
      RequestedStaysVisible(Front(history), e, name);
    }
  }

  function RequestCount(history: seq<Event>, name: string): nat {
    if history == [] then 0
    else RequestCount(Front(history), name) + if Requests(Last(history), name) then 1 else 0
  }

  lemma {:induction false} OutstandingIsBounded(history: seq<Event>, name: string)
    ensures Outstanding(history, name) <= RequestCount(history, name)
    ensures RequestCount(history, name) > 0 <==> exists i :: 0 <= i < |history| && Requests(history[i], name)
  {
    if history != [] {
      OutstandingIsBounded(Front(history), name);
      assert history == Front(history) + [Last(history)];
      forall i | 0 <= i < |history| && Requests(history[i], name) ensures RequestCount(history, name) > 0 {
        if i < |Front(history)| {
          assert Requests(Front(history)[i], name);
        }
      }
      if RequestCount(Front(history), name) > 0 {
        var i :| 0 <= i < |Front(history)| && Requests(Front(history)[i], name);
        assert Requests(history[i], name);
      } else if Requests(Last(history), name) {
        assert Requests(history[|history| - 1], name);
      }
    }
  }

  // --- Context ------------------------------------------------------------------------

  /** The execution-started event whose data the engine reads. */
  predicate IsStart(e: Event) {
    e.kind.ExecutionStarted? && e.data.Obj?
  }

  lemma OnlyStartsGiveContext(s: State, e: Event)
    requires !IsStart(e)
    ensures Apply(s, e).context == s.context
  {
  }

  /** The tenant is that of some start event. */
  lemma {:induction false} TenantComesFromStart(id: string, history: seq<Event>)
    ensures Rebuilt(id, history).context.Some? ==>
              exists e :: e in history && IsStart(e) && e.tenantId == Rebuilt(id, history).context.value.tenantId
  {
    if history != [] {
      assert history == Front(history) + [Last(history)];
      TenantComesFromStart(id, Front(history));
      if !IsStart(Last(history)) {
        OnlyStartsGiveContext(Rebuilt(id, Front(history)), Last(history));
      } else {
        assert Last(history) in history;
      }
    }
  }

  /** A history of one execution in one workflow gives the state that execution's identity
      as soon as it contains the start event, and none before. */
  lemma {:induction false} ContextComesFromStart(id: string, history: seq<Event>, wf: string, x: string)
    requires wf != ""
    requires forall e | e in history :: e.executionId == x && e.workflowId == wf
    ensures (exists e :: e in history && IsStart(e)) <==> Rebuilt(id, history).context.Some?
    ensures Rebuilt(id, history).context.Some? ==>
              Rebuilt(id, history).context.value.executionId == x && Rebuilt(id, history).workflowId == wf
  {
    if history != [] {
      assert history == Front(history) + [Last(history)];
      ContextComesFromStart(id, Front(history), wf, x);
      var s, e := Rebuilt(id, Front(history)), Last(history);
      if IsStart(e) {
        assert e in history;
      } else {
        OnlyStartsGiveContext(s, e);
      }
    }
  }
}
