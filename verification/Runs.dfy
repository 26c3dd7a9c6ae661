/** Runs that exist: workflows that can finish do finish in some run, and the conditions of the
    protocol's guarantees are exact. */
module Runs {
  import opened Values
  import opened Replay
  import opened ReplayLaws
  import opened Worker
  import opened Reads
  import opened Protocol
  import opened Progress
  import opened Safety
  import opened Guarantees

  const MIDNIGHT := Clock(0, "1970-01-01T00:00:00Z", "0")

  function StartOf(cfg: Config, x: string): Event {
    Event(ExecutionStarted, Api, cfg.tenant, cfg.wf, x, "", Obj(map[]))
  }

  /** Redis may list the default tenant's stream first. */
  function DefaultFirst(cfg: Config): seq<string> {
    if TwoStreams(cfg) then ["default", Own(cfg)] else ["default"]
  }

  /** The execution has completed these tasks and everything is at rest. */
  ghost predicate AtRest(cfg: Config, x: string, s: System, done: seq<string>) {
    && s.inflight == map[] && |s.stream| > 0 && s.stream[0] == StartOf(cfg, x)
    && DoneBy(cfg, s.stream, x) == done
    && forall name :: OwnOutstanding(cfg, s.stream, x, name) == 0
  }

  predicate AllOwn(cfg: Config, stream: seq<Event>) {
    forall e | e in stream :: OfTenant(cfg, e.tenantId)
  }

  lemma DefaultFirstLists(cfg: Config, steps: seq<Step>)
    requires cfg.wf != ""
    ensures Lists(After(cfg, steps).stream, cfg.wf, DefaultFirst(cfg))
  {
    SourceInvHolds(cfg, steps);
    var stream := After(cfg, steps).stream;
    forall e | e in stream ensures StreamKey(e.tenantId) in DefaultFirst(cfg) {
      TenantsOf(cfg, stream, e);
    }
  }

  // --- Single steps -------------------------------------------------------------------

  lemma RunDeliver(cfg: Config, steps: seq<Step>, w: nat, i: nat)
    requires Enabled(cfg, After(cfg, steps), Deliver(w, i, DefaultFirst(cfg)))
    ensures var s := After(cfg, steps);
            After(cfg, steps + [Deliver(w, i, DefaultFirst(cfg))])
            == s.(inflight := s.inflight[w := Flight(i, |s.stream|, DefaultFirst(cfg))])
  {
    AfterSnoc(cfg, steps, Deliver(w, i, DefaultFirst(cfg)));
  }

  lemma RunCommit(cfg: Config, steps: seq<Step>, w: nat, clock: Clock)
    requires var s := After(cfg, steps);
             w in s.inflight && s.inflight[w].index < |s.stream| && s.inflight[w].seen <= |s.stream|
    ensures var s := After(cfg, steps);
            After(cfg, steps + [Commit(w, clock)])
            == s.(inflight := s.inflight - {w},
                  stream := s.stream + Emission(Decision(cfg, s.stream, s.inflight[w], clock)))
  {
    AfterSnoc(cfg, steps, Commit(w, clock));
  }

  lemma RunExecute(cfg: Config, steps: seq<Step>, i: nat, success: bool)
    requires Enabled(cfg, After(cfg, steps), Execute(i, success, map[], ""))
    ensures var s := After(cfg, steps);
            After(cfg, steps + [Execute(i, success, map[], "")])
            == s.(stream := s.stream + [AnswerEvent(s.stream[i], success, map[], "")])
  {
    AfterSnoc(cfg, steps, Execute(i, success, map[], ""));
  }

  lemma RunDelay(cfg: Config, steps: seq<Step>, i: nat)
    requires Enabled(cfg, After(cfg, steps), Delay(i, 0.0))
    ensures var s := After(cfg, steps);
            After(cfg, steps + [Delay(i, 0.0)])
            == s.(stream := s.stream + [RetryEvent(s.stream[i], 0.0)])
  {
    AfterSnoc(cfg, steps, Delay(i, 0.0));
  }

  lemma RunTimer(cfg: Config, steps: seq<Step>, i: nat) returns (more: seq<Step>, fired: Event)
    requires Enabled(cfg, After(cfg, steps), Register(i))
    ensures var s := After(cfg, steps);
            && After(cfg, steps + more).stream == s.stream + [fired] && After(cfg, steps + more).inflight == s.inflight
            && fired == FiredEvent(TimerOf(s.stream[i].data.fields).value)
  {
    var t := TimerOf(After(cfg, steps).stream[i].data.fields).value;
    AfterSnoc(cfg, steps, Register(i));
    AfterSnoc(cfg, steps + [Register(i)], Fire(t));
    assert steps + [Register(i)] + [Fire(t)] == steps + [Register(i), Fire(t)];
    more, fired := [Register(i), Fire(t)], FiredEvent(t);
  }

  // --- One worker pass ----------------------------------------------------------------

  /** What a worker decides on that takes the start event again. */
  lemma TakenAgain(cfg: Config, x: string, stream: seq<Event>)
    requires cfg.wf != "" && x != "" && |stream| > 0 && stream[0] == StartOf(cfg, x)
    requires Sourced(cfg, stream) && Lists(stream, cfg.wf, DefaultFirst(cfg))
    ensures var s := Decided(cfg.def, Read(stream, cfg.wf, x, DefaultFirst(cfg)), StartOf(cfg, x));
            && Decision(cfg, stream, Flight(0, |stream|, DefaultFirst(cfg)), MIDNIGHT) == NextStep(cfg.def, s, MIDNIGHT)
            && CompletedAsBy(cfg, stream, x, s)
            && ExecutionId(s) == x && s.workflowId == cfg.wf && OfTenant(cfg, TenantId(s))
  {
    assert stream[..|stream|] == stream;
    DecidedState(cfg, stream, Flight(0, |stream|, DefaultFirst(cfg)));
  }

  /** A worker that takes the start event again decides on an execution at rest. */
  lemma RestingState(cfg: Config, x: string, steps: seq<Step>, done: seq<string>)
    requires cfg.wf != "" && x != "" && AtRest(cfg, x, After(cfg, steps), done)
    ensures var stream := After(cfg, steps).stream;
            var s := Decided(cfg.def, Read(stream, cfg.wf, x, DefaultFirst(cfg)), StartOf(cfg, x));
            && CompletedAsBy(cfg, stream, x, s) && s.pending == []
            && ExecutionId(s) == x && s.workflowId == cfg.wf && OfTenant(cfg, TenantId(s))
            && Decision(cfg, stream, Flight(0, |stream|, DefaultFirst(cfg)), MIDNIGHT) == NextStep(cfg.def, s, MIDNIGHT)
  {
    var stream, tenants := After(cfg, steps).stream, DefaultFirst(cfg);
    SourceInvHolds(cfg, steps);
    DefaultFirstLists(cfg, steps);
    TakenAgain(cfg, x, stream);
    RestingPending(cfg, x, stream, tenants);
    NoSuccessKeepsPending(Rebuilt(cfg.def.id, Read(stream, cfg.wf, x, tenants)), StartOf(cfg, x));
  }

  lemma RestingPending(cfg: Config, x: string, stream: seq<Event>, tenants: seq<string>)
    requires cfg.wf != "" && x != "" && Sourced(cfg, stream) && Lists(stream, cfg.wf, tenants)
    requires forall name :: OwnOutstanding(cfg, stream, x, name) == 0
    ensures Rebuilt(cfg.def.id, Read(stream, cfg.wf, x, tenants)).pending == []
  {
    RequestsOfExecutionAreOwn(cfg, stream, x);
    forall name ensures Outstanding(Read(stream, cfg.wf, x, tenants), name) == 0 {
      OutstandingInReads(History(stream, cfg.wf, x), tenants, Own(cfg), name);
      assert OwnOutstanding(cfg, stream, x, name) == 0;
    }
    NothingPending(cfg.def.id, Read(stream, cfg.wf, x, tenants));
  }

  /** The state that a worker decides on which takes the start event again. */
  function StateOf(cfg: Config, x: string, stream: seq<Event>): State {
    Decided(cfg.def, Read(stream, cfg.wf, x, DefaultFirst(cfg)), StartOf(cfg, x))
  }

  lemma WorkerPass(cfg: Config, x: string, steps: seq<Step>, done: seq<string>)
    returns (more: seq<Step>, state: State, outcome: Outcome)
    requires cfg.wf != "" && x != "" && AtRest(cfg, x, After(cfg, steps), done)
    ensures state == StateOf(cfg, x, After(cfg, steps).stream) && outcome == NextStep(cfg.def, state, MIDNIGHT)
    ensures CompletedAsBy(cfg, After(cfg, steps).stream, x, state) && state.pending == []
    ensures ExecutionId(state) == x && state.workflowId == cfg.wf && OfTenant(cfg, TenantId(state))
    ensures After(cfg, steps + more) ==
            After(cfg, steps).(stream := After(cfg, steps).stream + Emission(outcome))
  {
    RestingState(cfg, x, steps, done);
    more := OnePass(cfg, x, steps, done);
    state := StateOf(cfg, x, After(cfg, steps).stream);
    outcome := NextStep(cfg.def, state, MIDNIGHT);
  }

  lemma OnePass(cfg: Config, x: string, steps: seq<Step>, done: seq<string>) returns (more: seq<Step>)
    requires cfg.wf != "" && x != "" && AtRest(cfg, x, After(cfg, steps), done)
    ensures var s := After(cfg, steps);
            After(cfg, steps + more) == s.(stream := s.stream
              + Emission(Decision(cfg, s.stream, Flight(0, |s.stream|, DefaultFirst(cfg)), MIDNIGHT)))
  {
    var s, tenants := After(cfg, steps), DefaultFirst(cfg);
    DefaultFirstLists(cfg, steps);
    RunDeliver(cfg, steps, 0, 0);
    RunCommit(cfg, steps + [Deliver(0, 0, tenants)], 0, MIDNIGHT);
    more := [Deliver(0, 0, tenants)] + [Commit(0, MIDNIGHT)];
    Associates(steps, [Deliver(0, 0, tenants)], [Commit(0, MIDNIGHT)]);
    assert s.inflight[0 := Flight(0, |s.stream|, tenants)] - {0} == map[];
  }

  lemma NextIsTask(cfg: Config, stream: seq<Event>, x: string, s: State, done: seq<string>)
    requires CompletedAsBy(cfg, stream, x, s) && DoneBy(cfg, stream, x) == done
    requires |done| < |TaskList(cfg.def)| && TaskList(cfg.def)[|done|] !in done
    requires !HasPending(s.pending, TaskList(cfg.def)[|done|])
    ensures NextTask(cfg.def, s) == Some(TaskList(cfg.def)[|done|])
  {
  }

  /** One worker pass over an execution at rest, which starts the next task. */
  lemma TaskStarts(cfg: Config, x: string, steps: seq<Step>, done: seq<string>)
    returns (pass: seq<Step>, state: State, e: Event)
    requires cfg.wf != "" && x != "" && AtRest(cfg, x, After(cfg, steps), done)
    requires |done| < |TaskList(cfg.def)| && TaskList(cfg.def)[|done|] !in done
    requires CanStart(cfg.def, TaskList(cfg.def)[|done|]) && NowFree(cfg.def)
    ensures state == StateOf(cfg, x, After(cfg, steps).stream)
    ensures StartTask(cfg.def, state, TaskList(cfg.def)[|done|], MIDNIGHT) == Publish(e)
    ensures ExecutionId(state) == x && state.workflowId == cfg.wf && OfTenant(cfg, TenantId(state))
    ensures After(cfg, steps + pass) == After(cfg, steps).(stream := After(cfg, steps).stream + [e])
  {
    var outcome;
    pass, state, outcome := WorkerPass(cfg, x, steps, done);
    NextIsTask(cfg, After(cfg, steps).stream, x, state, done);
    StartFailsIff(cfg.def, state, TaskList(cfg.def)[|done|], MIDNIGHT);
    assert TaskList(cfg.def)[|done|] in TaskList(cfg.def);
    StartIsNotQuiet(cfg.def, state, TaskList(cfg.def)[|done|]);
    e := outcome.event;
  }

  lemma StartIsNotQuiet(def: Definition, s: State, name: string)
    ensures !StartTask(def, s, name, MIDNIGHT).Quiet?
  {
  }

  // --- Completing tasks ---------------------------------------------------------------

  predicate IsOf(cfg: Config, e: Event, x: string) {
    e.workflowId == cfg.wf && e.executionId == x
  }

  /** A success completes a new task and leaves nothing outstanding that was not before. */
  lemma SuccessAdds(cfg: Config, stream: seq<Event>, x: string, e: Event)
    requires x != "" && IsOf(cfg, e, x) && IsSuccess(e) && TaskName(e.data.fields) !in DoneBy(cfg, stream, x)
    ensures DoneBy(cfg, stream + [e], x) == DoneBy(cfg, stream, x) + [TaskName(e.data.fields)]
    ensures forall name :: OwnOutstanding(cfg, stream + [e], x, name) <= OwnOutstanding(cfg, stream, x, name)
    ensures OfTenant(cfg, e.tenantId) ==>
              OwnOutstanding(cfg, stream + [e], x, TaskName(e.data.fields))
              <= if OwnOutstanding(cfg, stream, x, TaskName(e.data.fields)) > 0
                 then OwnOutstanding(cfg, stream, x, TaskName(e.data.fields)) - 1 else 0
  {
    DoneBySnoc(cfg, stream, e, x);
    forall name ensures OwnOutstanding(cfg, stream + [e], x, name) <= OwnOutstanding(cfg, stream, x, name) {
      OwnOutstandingSnoc(cfg, stream, e, x, name);
    }
    OwnOutstandingSnoc(cfg, stream, e, x, TaskName(e.data.fields));
  }

  /** A request leaves its task outstanding once more, and completes nothing. */
  lemma RequestAdds(cfg: Config, stream: seq<Event>, x: string, e: Event, task: string)
    requires x != "" && IsOf(cfg, e, x) && OfTenant(cfg, e.tenantId) && Requests(e, task)
    ensures DoneBy(cfg, stream + [e], x) == DoneBy(cfg, stream, x)
    ensures forall name ::
              OwnOutstanding(cfg, stream + [e], x, name)
              == OwnOutstanding(cfg, stream, x, name) + if name == task then 1 else 0
  {
    DoneBySnoc(cfg, stream, e, x);
    forall name
      ensures OwnOutstanding(cfg, stream + [e], x, name)
              == OwnOutstanding(cfg, stream, x, name) + if name == task then 1 else 0
    {
      OwnOutstandingSnoc(cfg, stream, e, x, name);
    }
  }

  /** Any other event changes neither. */
  lemma OtherAdds(cfg: Config, stream: seq<Event>, x: string, e: Event)
    requires x != "" && !IsSuccess(e) && !IsRequest(e)
    ensures DoneBy(cfg, stream + [e], x) == DoneBy(cfg, stream, x)
    ensures forall name :: OwnOutstanding(cfg, stream + [e], x, name) == OwnOutstanding(cfg, stream, x, name)
  {
    DoneBySnoc(cfg, stream, e, x);
    forall name ensures OwnOutstanding(cfg, stream + [e], x, name) == OwnOutstanding(cfg, stream, x, name) {
      OwnOutstandingSnoc(cfg, stream, e, x, name);
    }
  }

  /** From rest, some further steps complete the next task, all in the tenant's stream. */
  lemma TaskCanComplete(cfg: Config, x: string, steps: seq<Step>, done: seq<string>) returns (more: seq<Step>)
    requires cfg.wf != "" && x != "" && AtRest(cfg, x, After(cfg, steps), done)
    requires |done| < |TaskList(cfg.def)| && TaskList(cfg.def)[|done|] !in done
    requires CanStart(cfg.def, TaskList(cfg.def)[|done|]) && NowFree(cfg.def)
    ensures AtRest(cfg, x, After(cfg, steps + more), done + [TaskList(cfg.def)[|done|]])
    ensures AllOwn(cfg, After(cfg, steps).stream) ==> AllOwn(cfg, After(cfg, steps + more).stream)
  {
    var name := TaskList(cfg.def)[|done|];
    var pass, state, e := TaskStarts(cfg, x, steps, done);
    var taskType := TaskType(cfg.def, name);
    if taskType == "set" {
      SetCompletes(cfg, x, steps, pass, done, state, e, name);
      more := pass;
    } else if taskType == "wait" {
      WaitShape(cfg, state, name, e);
      more := WaitCompletes(cfg, x, steps, pass, done, e, name);
    } else {
      RequestShape(cfg.def, state, name, MIDNIGHT);
      more := AnswerCompletes(cfg, x, steps, pass, done, e, name);
    }
  }

  lemma SetCompletes(
    cfg: Config, x: string, steps: seq<Step>, pass: seq<Step>, done: seq<string>, state: State, e: Event, name: string)
    requires x != "" && AtRest(cfg, x, After(cfg, steps), done) && name !in done
    requires After(cfg, steps + pass) == After(cfg, steps).(stream := After(cfg, steps).stream + [e])
    requires ExecutionId(state) == x && state.workflowId == cfg.wf && OfTenant(cfg, TenantId(state))
    requires TaskType(cfg.def, name) == "set" && StartTask(cfg.def, state, name, MIDNIGHT) == Publish(e)
    ensures AtRest(cfg, x, After(cfg, steps + pass), done + [name]) && OfTenant(cfg, e.tenantId)
  {
    SetCompletedShape(cfg.def, state, name, MIDNIGHT);
    SuccessAdds(cfg, After(cfg, steps).stream, x, e);
  }

  /** The event schedules the wait of a task. */
  predicate SchedulesWait(cfg: Config, e: Event, x: string, name: string) {
    && e.kind.TimerScheduled? && IsOf(cfg, e, x) && OfTenant(cfg, e.tenantId)
    && e.data.Obj? && TimerOf(e.data.fields).Some?
    && var t := TimerOf(e.data.fields).value;
       t.taskName == name && t.workflowId == cfg.wf && t.executionId == x && OfTenant(cfg, t.tenantId)
  }

  lemma WaitShape(cfg: Config, s: State, name: string, e: Event)
    requires s.workflowId == cfg.wf && OfTenant(cfg, TenantId(s))
    requires TaskType(cfg.def, name) == "wait" && StartTask(cfg.def, s, name, MIDNIGHT) == Publish(e)
    ensures SchedulesWait(cfg, e, ExecutionId(s), name)
  {
    var text := StrAt(TaskInput(cfg.def, s, name, MIDNIGHT), "duration").GetOr("");
    ScheduledShape(s, name, cfg.def.parseDuration(text).value, MIDNIGHT);
  }

  lemma WaitCompletes(
    cfg: Config, x: string, steps: seq<Step>, pass: seq<Step>, done: seq<string>, e: Event, name: string)
    returns (more: seq<Step>)
    requires x != "" && AtRest(cfg, x, After(cfg, steps), done) && name !in done
    requires After(cfg, steps + pass) == After(cfg, steps).(stream := After(cfg, steps).stream + [e])
    requires SchedulesWait(cfg, e, x, name)
    ensures AtRest(cfg, x, After(cfg, steps + more), done + [name])
    ensures AllOwn(cfg, After(cfg, steps).stream) ==> AllOwn(cfg, After(cfg, steps + more).stream)
  {
    var fired;
    more, fired := WaitRuns(cfg, x, steps, pass, e, name);
    WaitFires(cfg, x, e, name);
    FiringRests(cfg, x, After(cfg, steps), After(cfg, steps + more), done, e, fired, name);
  }

  lemma WaitRuns(cfg: Config, x: string, steps: seq<Step>, pass: seq<Step>, e: Event, name: string)
    returns (more: seq<Step>, fired: Event)
    requires After(cfg, steps + pass) == After(cfg, steps).(stream := After(cfg, steps).stream + [e])
    requires SchedulesWait(cfg, e, x, name)
    ensures fired == FiredEvent(TimerOf(e.data.fields).value)
    ensures After(cfg, steps + more).stream == After(cfg, steps).stream + [e] + [fired]
    ensures After(cfg, steps + more).inflight == After(cfg, steps).inflight
  {
    var stream := After(cfg, steps).stream;
    assert After(cfg, steps + pass).stream[|stream|] == e;
    var tail;
    tail, fired := RunTimer(cfg, steps + pass, |stream|);
    more := pass + tail;
    Associates(steps, pass, tail);
  }

  lemma WaitFires(cfg: Config, x: string, e: Event, name: string)
    requires SchedulesWait(cfg, e, x, name)
    ensures var fired := FiredEvent(TimerOf(e.data.fields).value);
            IsOf(cfg, fired, x) && OfTenant(cfg, fired.tenantId) && IsSuccess(fired)
            && TaskName(fired.data.fields) == name
  {
    FiredShape(TimerOf(e.data.fields).value);
  }

  lemma FiringRests(
    cfg: Config, x: string, s: System, s': System, done: seq<string>, e: Event, fired: Event, name: string)
    requires x != "" && AtRest(cfg, x, s, done) && name !in done
    requires s'.stream == s.stream + [e] + [fired] && s'.inflight == s.inflight && SchedulesWait(cfg, e, x, name)
    requires IsOf(cfg, fired, x) && IsSuccess(fired) && TaskName(fired.data.fields) == name
    ensures AtRest(cfg, x, s', done + [name])
  {
    OtherAdds(cfg, s.stream, x, e);
    SuccessAdds(cfg, s.stream + [e], x, fired);
  }

  lemma AnswerCompletes(
    cfg: Config, x: string, steps: seq<Step>, pass: seq<Step>, done: seq<string>, e: Event, name: string)
    returns (more: seq<Step>)
    requires x != "" && cfg.wf != "" && AtRest(cfg, x, After(cfg, steps), done) && name !in done
    requires After(cfg, steps + pass) == After(cfg, steps).(stream := After(cfg, steps).stream + [e])
    requires Requests(e, name) && IsOf(cfg, e, x) && OfTenant(cfg, e.tenantId)
    ensures AtRest(cfg, x, After(cfg, steps + more), done + [name])
    ensures AllOwn(cfg, After(cfg, steps).stream) ==> AllOwn(cfg, After(cfg, steps + more).stream)
  {
    more := AnswerRuns(cfg, steps, pass, e);
    AnswerShape(e, true, map[], "");
    AnswerRests(cfg, x, After(cfg, steps), After(cfg, steps + more), done, e, AnswerEvent(e, true, map[], ""), name);
  }

  lemma AnswerRuns(cfg: Config, steps: seq<Step>, pass: seq<Step>, e: Event) returns (more: seq<Step>)
    requires After(cfg, steps + pass) == After(cfg, steps).(stream := After(cfg, steps).stream + [e])
    requires IsRequest(e)
    ensures var s := After(cfg, steps);
            After(cfg, steps + more) == s.(stream := s.stream + [e] + [AnswerEvent(e, true, map[], "")])
  {
    var stream := After(cfg, steps).stream;
    assert After(cfg, steps + pass).stream[|stream|] == e;
    RunExecute(cfg, steps + pass, |stream|, true);
    more := pass + [Execute(|stream|, true, map[], "")];
    Associates(steps, pass, [Execute(|stream|, true, map[], "")]);
  }

  lemma AnswerRests(
    cfg: Config, x: string, s: System, s': System, done: seq<string>, e: Event, answer: Event, name: string)
    requires x != "" && AtRest(cfg, x, s, done) && name !in done
    requires s'.stream == s.stream + [e] + [answer] && s'.inflight == s.inflight
    requires Requests(e, name) && IsOf(cfg, e, x) && OfTenant(cfg, e.tenantId)
    requires IsOf(cfg, answer, x) && IsSuccess(answer) && OfTenant(cfg, answer.tenantId)
    requires TaskName(answer.data.fields) == name
    ensures AtRest(cfg, x, s', done + [name])
  {
    RequestAdds(cfg, s.stream, x, e, name);
    SuccessAdds(cfg, s.stream + [e], x, answer);
  }

  lemma BeginRun(cfg: Config, x: string) returns (steps: seq<Step>)
    requires cfg.wf != "" && x != ""
    ensures After(cfg, steps).stream == [StartOf(cfg, x)] && AtRest(cfg, x, After(cfg, steps), [])
  {
    var start := StartOf(cfg, x);
    steps := [Start(start)];
    AfterSnoc(cfg, [], Start(start));
    assert [] + [Start(start)] == steps;
    OtherAdds(cfg, [], x, start);
    assert [] + [start] == [start];
  }

  /** Every task that can be reached is reached in some run. */
  lemma {:induction false} RunTo(cfg: Config, x: string, k: nat) returns (steps: seq<Step>)
    requires cfg.wf != "" && x != "" && k <= |TaskList(cfg.def)| && Distinct(TaskList(cfg.def)[..k])
    requires forall i | 0 <= i < k :: CanStart(cfg.def, TaskList(cfg.def)[i])
    requires NowFree(cfg.def)
    ensures AtRest(cfg, x, After(cfg, steps), TaskList(cfg.def)[..k]) && AllOwn(cfg, After(cfg, steps).stream)
  {
    var list := TaskList(cfg.def);
    if k == 0 {
      steps := BeginRun(cfg, x);
    } else {
      LastIsNew(list, k);
      var done := list[..k - 1];
      var first := RunTo(cfg, x, k - 1);
      assert |done| == k - 1;
      var more := TaskCanComplete(cfg, x, first, done);
      steps := first + more;
    }
  }

  lemma LastIsNew(list: seq<string>, k: nat)
    requires 0 < k <= |list| && Distinct(list[..k])
    ensures Distinct(list[..k - 1]) && list[k - 1] !in list[..k - 1]
    ensures list[..k - 1] + [list[k - 1]] == list[..k]
  {
    assert forall i | 0 <= i < k :: list[..k][i] == list[i];
    assert forall i | 0 <= i < k - 1 :: list[..k - 1][i] == list[..k][i];
  }

  // --- Which workflows can finish -----------------------------------------------------

  /** The run reports the execution completed. */
  ghost predicate Finishes(cfg: Config, steps: seq<Step>, x: string) {
    exists n | 0 <= n < |After(cfg, steps).stream| :: Completes(After(cfg, steps).stream[n], x)
  }

  predicate Completes(e: Event, x: string) {
    e.kind.WorkflowCompleted? && e.executionId == x
  }

  /** Where no put-off retry adds a name of its own and no set data names the function `now`, an
      execution can be reported completed exactly when the task names are distinct and the
      definition has what every task needs to start. */
  lemma CanFinishIff(cfg: Config, x: string)
    requires Plain(cfg) && NowFree(cfg.def) && x != ""
    ensures (exists steps :: Finishes(cfg, steps, x))
            <==> Distinct(TaskList(cfg.def)) && forall name | name in TaskList(cfg.def) :: CanStart(cfg.def, name)
  {
    var list := TaskList(cfg.def);
    if steps :| Finishes(cfg, steps, x) {
      FinishedTasksCouldStart(cfg, steps, x);
    }
    if Distinct(list) && forall name | name in list :: CanStart(cfg.def, name) {
      assert list[..|list|] == list;
      assert forall i | 0 <= i < |list| :: list[i] in list;
      var before := RunTo(cfg, x, |list|);
      var steps := EnoughIsCompletion(cfg, x, before, list);
    }
  }

  /** At rest with as many completed tasks as the list has, the execution is reported completed. */
  lemma EnoughIsCompletion(cfg: Config, x: string, before: seq<Step>, done: seq<string>) returns (steps: seq<Step>)
    requires cfg.wf != "" && x != "" && AtRest(cfg, x, After(cfg, before), done) && |done| >= |TaskList(cfg.def)|
    ensures Finishes(cfg, steps, x)
    ensures var stream := After(cfg, steps).stream;
            |stream| > 0 && Completes(Last(stream), x) && DoneBy(cfg, Front(stream), x) == done
  {
    var pass, state, outcome := WorkerPass(cfg, x, before, done);
    steps := before + pass;
    var stream := After(cfg, before).stream;
    assert After(cfg, steps).stream == stream + [outcome.event];
    assert Front(stream + [outcome.event]) == stream;
    assert Completes(After(cfg, steps).stream[|stream|], x);
  }

  lemma FinishedTasksCouldStart(cfg: Config, steps: seq<Step>, x: string)
    requires Plain(cfg) && x != "" && Finishes(cfg, steps, x)
    ensures Distinct(TaskList(cfg.def)) && forall name | name in TaskList(cfg.def) :: CanStart(cfg.def, name)
  {
    var stream := After(cfg, steps).stream;
    var n :| 0 <= n < |stream| && Completes(stream[n], x);
    PlainIsInStep(cfg);
    InvHolds(cfg, steps);
    OrderedAt(cfg, stream, n);
    forall name | name in TaskList(cfg.def) ensures CanStart(cfg.def, name) {
      DoneCanStart(cfg, stream[..n], x, name);
    }
  }

  /** A completed task could start. */
  lemma {:induction false} DoneCanStart(cfg: Config, stream: seq<Event>, x: string, name: string)
    requires Plain(cfg) && Ordered(cfg, stream) && x != "" && name in DoneBy(cfg, stream, x)
    ensures CanStart(cfg.def, name)
  {
    var front, e := Front(stream), Last(stream);
    assert stream == front + [e];
    DoneBySnoc(cfg, front, e, x);
    if name in DoneBy(cfg, front, x) {
      DoneCanStart(cfg, front, x, name);
    } else {
      SuccessIsDue(cfg, front, e);
      if RetryDue(cfg, front, x, name) {
        RetryIsDone(cfg, front, x, name);
      }
    }
  }
}
