/** Where the protocol's guarantees end: each condition is shown to be exact by a run that breaks
    the guarantee without it. */
module Exactness {
  import opened Values
  import opened Replay
  import opened ReplayLaws
  import opened Worker
  import opened Reads
  import opened Protocol
  import opened Progress
  import opened Safety
  import opened Guarantees
  import opened Runs

  // --- A run with a put-off retry -----------------------------------------------------

  /** The task is requested, puts off a retry, answers that it failed so far, and the retry's
      timer fires. */
  datatype PutOff = PutOff(base: seq<Event>, request: Event, retry: Event, answer: Event, fired: Event) {
    function Stream(): seq<Event> {
      base + [request] + [retry] + [answer] + [fired]
    }
  }

  ghost predicate IsPutOff(cfg: Config, x: string, j: nat, p: PutOff)
    requires j < |TaskList(cfg.def)|
  {
    var list := TaskList(cfg.def);
    && |p.base| > 0 && p.base[0] == StartOf(cfg, x) && AllOwn(cfg, p.base)
    && DoneBy(cfg, p.base, x) == list[..j] && (forall name :: OwnOutstanding(cfg, p.base, x, name) == 0)
    && Requests(p.request, list[j]) && IsOf(cfg, p.request, x) && OfTenant(cfg, p.request.tenantId)
    && p.retry.kind.TimerScheduled? && IsOf(cfg, p.retry, x) && StreamKey(p.retry.tenantId) == "default"
    && Subject(p.retry) == Some(RetryName(list[j]))
    && FailedAnswer(p.answer, list[j]) && IsOf(cfg, p.answer, x) && OfTenant(cfg, p.answer.tenantId)
    && p.fired.kind.TimerFired? && IsSuccess(p.fired) && TaskName(p.fired.data.fields) == RetryName(list[j])
    && IsOf(cfg, p.fired, x) && StreamKey(p.fired.tenantId) == "default"
  }

  lemma RetryFires(cfg: Config, x: string, j: nat) returns (steps: seq<Step>, p: PutOff)
    requires cfg.wf != "" && x != "" && j < |TaskList(cfg.def)| && PutsOffAt(cfg, j) && NowFree(cfg.def)
    ensures IsPutOff(cfg, x, j, p) && After(cfg, steps).stream == p.Stream() && After(cfg, steps).inflight == map[]
  {
    var list := TaskList(cfg.def);
    assert forall i | 0 <= i < j :: list[..j][i] == list[..j + 1][i] && list[..j + 1][j] == list[j];
    var before := RunTo(cfg, x, j);
    var pass, state, request := TaskStarts(cfg, x, before, list[..j]);
    RequestShape(cfg.def, state, list[j], MIDNIGHT);
    steps, p := PutOffRun(cfg, x, j, before, pass, request);
  }

  lemma PutOffRun(cfg: Config, x: string, j: nat, before: seq<Step>, pass: seq<Step>, request: Event)
    returns (steps: seq<Step>, p: PutOff)
    requires cfg.wf != "" && x != "" && j < |TaskList(cfg.def)| && PutsOffAt(cfg, j)
    requires AtRest(cfg, x, After(cfg, before), TaskList(cfg.def)[..j]) && AllOwn(cfg, After(cfg, before).stream)
    requires After(cfg, before + pass) == After(cfg, before).(stream := After(cfg, before).stream + [request])
    requires Requests(request, TaskList(cfg.def)[j]) && IsOf(cfg, request, x) && OfTenant(cfg, request.tenantId)
    ensures IsPutOff(cfg, x, j, p) && After(cfg, steps).stream == p.Stream() && After(cfg, steps).inflight == map[]
  {
    var base := After(cfg, before).stream;
    var retry, answer := RetryEvent(request, 0.0), AnswerEvent(request, false, map[], "");
    RetryShape(request, 0.0);
    AnswerShape(request, false, map[], "");
    var answered := PutOffAnswered(cfg, before + pass, base, request);
    assert After(cfg, answered).stream[|base| + 1] == retry;
    var tail, fired := RunTimer(cfg, answered, |base| + 1);
    FiredShape(TimerOf(retry.data.fields).value);
    steps, p := answered + tail, PutOff(base, request, retry, answer, fired);
  }

  lemma PutOffAnswered(cfg: Config, before: seq<Step>, base: seq<Event>, request: Event) returns (steps: seq<Step>)
    requires After(cfg, before).stream == base + [request] && IsRequest(request)
    requires PutsOff(cfg, RequestedName(request.data.fields))
    ensures After(cfg, steps) == After(cfg, before).(stream := base + [request]
              + [RetryEvent(request, 0.0)] + [AnswerEvent(request, false, map[], "")])
  {
    var put := before + [Delay(|base|, 0.0)];
    RunDelay(cfg, before, |base|);
    RunExecute(cfg, put, |base|, false);
    steps := put + [Execute(|base|, false, map[], "")];
  }

  /** Its completed tasks: nothing new up to the answer, then the retry's name. */
  lemma PutOffCompletes(cfg: Config, x: string, j: nat, p: PutOff)
    requires x != "" && j < |TaskList(cfg.def)| && IsPutOff(cfg, x, j, p)
    ensures var list := TaskList(cfg.def);
            && DoneBy(cfg, p.base + [p.request], x) == list[..j]
            && DoneBy(cfg, p.base + [p.request] + [p.retry] + [p.answer], x) == list[..j]
            && DoneBy(cfg, p.Stream(), x)
               == if RetryName(list[j]) in list[..j] then list[..j] else list[..j] + [RetryName(list[j])]
  {
    NothingCompletes(cfg, p.base, p.request, x);
    NothingCompletes(cfg, p.base + [p.request], p.retry, x);
    NothingCompletes(cfg, p.base + [p.request] + [p.retry], p.answer, x);
    DoneBySnoc(cfg, p.base + [p.request] + [p.retry] + [p.answer], p.fired, x);
  }

  lemma NothingCompletes(cfg: Config, stream: seq<Event>, e: Event, x: string)
    requires x != "" && !IsSuccess(e)
    ensures DoneBy(cfg, stream + [e], x) == DoneBy(cfg, stream, x)
  {
    DoneBySnoc(cfg, stream, e, x);
  }

  lemma PutOffFailed(cfg: Config, x: string, j: nat, p: PutOff)
    requires cfg.wf != "" && x != "" && j < |TaskList(cfg.def)| && IsPutOff(cfg, x, j, p)
    ensures HasFailed(History(p.Stream(), cfg.wf, x), TaskList(cfg.def)[j])
  {
    var history := History(p.Stream(), cfg.wf, x);
    HistoryMembers(p.Stream(), cfg.wf, x);
    assert p.Stream()[|p.base| + 2] == p.answer;
    assert p.answer in history;
    var i :| 0 <= i < |history| && history[i] == p.answer;
    assert FailedAnswer(history[i], TaskList(cfg.def)[j]);
  }

  lemma TaskIsNew(def: Definition, j: nat)
    requires j < |TaskList(def)| && Reachable(def, j)
    ensures TaskList(def)[j] !in TaskList(def)[..j]
  {
    var upto := TaskList(def)[..j + 1];
    forall i | 0 <= i < j ensures TaskList(def)[i] != TaskList(def)[j] {
      assert upto[i] != upto[j];
    }
  }

  // --- Order --------------------------------------------------------------------------

  /** The order guarantee of CompletedIsPrefix, for one run. */
  ghost predicate InOrder(cfg: Config, steps: seq<Step>) {
    forall n: nat, x, tenants | n <= |After(cfg, steps).stream| && x != ""
      && Lists(After(cfg, steps).stream[..n], cfg.wf, tenants) ::
      CompletedAt(cfg, steps, n, x, tenants) <= TaskList(cfg.def)
  }

  /** All replays of all runs are in order exactly when no reachable try task puts off a retry, but
      under the name of an earlier task, which for a tenant with a stream of its own is the first. */
  lemma InOrderIffNoDelayedRetries(cfg: Config)
    requires cfg.wf != "" && NowFree(cfg.def)
    ensures (forall steps :: InOrder(cfg, steps)) <==> InSequence(cfg)
  {
    if InSequence(cfg) {
      forall steps ensures InOrder(cfg, steps) {
        forall n: nat, x, tenants | n <= |After(cfg, steps).stream| && x != ""
                                    && Lists(After(cfg, steps).stream[..n], cfg.wf, tenants)
          ensures CompletedAt(cfg, steps, n, x, tenants) <= TaskList(cfg.def)
        {
          CompletedIsPrefix(cfg, steps, n, x, tenants);
        }
      }
    } else {
      var j :| 0 <= j < |TaskList(cfg.def)| && DisordersAt(cfg, j);
      var steps := DelayedRetryBreaksOrder(cfg, "execution", j);
    }
  }

  /** A put-off retry's timer fires as the completion of a task out of turn. */
  lemma DelayedRetryBreaksOrder(cfg: Config, x: string, j: nat) returns (steps: seq<Step>)
    requires cfg.wf != "" && x != "" && j < |TaskList(cfg.def)| && DisordersAt(cfg, j) && NowFree(cfg.def)
    ensures !InOrder(cfg, steps)
  {
    var p;
    steps, p := RetryFires(cfg, x, j);
    DefaultFirstLists(cfg, steps);
    if DelayAt(cfg, j) {
      NewNameBreaksOrder(cfg, x, j, p);
    } else {
      StreamsBreakOrder(cfg, x, j, p);
    }
    ReplayOutOfOrder(cfg, x, steps);
  }

  lemma ReplayOutOfOrder(cfg: Config, x: string, steps: seq<Step>)
    requires x != "" && Lists(After(cfg, steps).stream, cfg.wf, DefaultFirst(cfg))
    requires var replayed := Rebuilt(cfg.def.id, Read(After(cfg, steps).stream, cfg.wf, x, DefaultFirst(cfg)));
             !(CompletedNames(replayed.completed) <= TaskList(cfg.def))
    ensures !InOrder(cfg, steps)
  {
    var stream := After(cfg, steps).stream;
    assert stream[..|stream|] == stream;
    assert !(CompletedAt(cfg, steps, |stream|, x, DefaultFirst(cfg)) <= TaskList(cfg.def));
  }

  /** The put-off retry's timer fires as the completion of a task that is not next in the list. */
  lemma NewNameBreaksOrder(cfg: Config, x: string, j: nat, p: PutOff)
    requires cfg.wf != "" && x != "" && j < |TaskList(cfg.def)| && DelayAt(cfg, j) && IsPutOff(cfg, x, j, p)
    requires Lists(p.Stream(), cfg.wf, DefaultFirst(cfg))
    ensures var replayed := Rebuilt(cfg.def.id, Read(p.Stream(), cfg.wf, x, DefaultFirst(cfg)));
            !(CompletedNames(replayed.completed) <= TaskList(cfg.def))
  {
    var list := TaskList(cfg.def);
    var names := CompletedNames(Rebuilt(cfg.def.id, Read(p.Stream(), cfg.wf, x, DefaultFirst(cfg))).completed);
    ReplayHasDone(cfg, p.Stream(), x, DefaultFirst(cfg));
    PutOffCompletes(cfg, x, j, p);
    TaskIsNew(cfg.def, j);
    RetryIsLonger(list[j]);
    assert |names| == j + 1 && names[j] in names && list[j] !in names;
  }

  /** Read before the tenant's own stream, the retry comes before all tasks. */
  lemma StreamsBreakOrder(cfg: Config, x: string, j: nat, p: PutOff)
    requires cfg.wf != "" && x != "" && j < |TaskList(cfg.def)| && DisordersAt(cfg, j) && !DelayAt(cfg, j)
    requires IsPutOff(cfg, x, j, p)
    ensures var replayed := Rebuilt(cfg.def.id, Read(p.Stream(), cfg.wf, x, DefaultFirst(cfg)));
            !(CompletedNames(replayed.completed) <= TaskList(cfg.def))
  {
    var list, h := TaskList(cfg.def), History(p.Stream(), cfg.wf, x);
    var found := Read(p.Stream(), cfg.wf, x, DefaultFirst(cfg));
    var rest, mine := ByTenant(h, "default"), ByTenant(h, Own(cfg));
    GatheredTwo(h, "default", Own(cfg));
    DefaultStreamOf(cfg, x, j, p);
    DoneGrows(rest, mine);
    CompletedIsDone(cfg.def.id, found);
    assert Done(rest)[0] == Done(found)[0] == RetryName(list[j]);
    assert list[0] == list[..1][0];
  }

  lemma GatheredTwo(events: seq<Event>, a: string, b: string)
    ensures Gathered(events, [a, b]) == ByTenant(events, a) + ByTenant(events, b)
  {
    assert [a, b][..1] == [a] && [a][..0] == [];
    assert Gathered(events, [a]) == Gathered(events, []) + ByTenant(events, a);
    assert [] + ByTenant(events, a) == ByTenant(events, a);
  }

  lemma TenantSnoc(cfg: Config, stream: seq<Event>, e: Event, x: string, tenant: string)
    requires x != ""
    ensures ByTenant(History(stream + [e], cfg.wf, x), tenant)
            == ByTenant(History(stream, cfg.wf, x), tenant)
               + if IsOf(cfg, e, x) && StreamKey(e.tenantId) == tenant then [e] else []
  {
    var h := History(stream, cfg.wf, x);
    HistorySnoc(stream, e, cfg.wf, x);
    if IsOf(cfg, e, x) {
      ByTenantSnoc(h, e, tenant);
    } else {
      assert h + [] == h && ByTenant(h, tenant) + [] == ByTenant(h, tenant);
    }
  }

  /** The default tenant's stream holds the retry and its firing, and nothing else. */
  lemma DefaultStreamOf(cfg: Config, x: string, j: nat, p: PutOff)
    requires cfg.wf != "" && x != "" && j < |TaskList(cfg.def)| && IsPutOff(cfg, x, j, p) && TwoStreams(cfg)
    ensures Done(ByTenant(History(p.Stream(), cfg.wf, x), "default")) == [RetryName(TaskList(cfg.def)[j])]
  {
    OwnHasNoDefault(cfg, p.base, x);
    TenantSnocs(cfg, p, x);
    OnlyFiringCompletes(p.retry, p.fired);
  }

  lemma OwnHasNoDefault(cfg: Config, stream: seq<Event>, x: string)
    requires x != "" && AllOwn(cfg, stream) && TwoStreams(cfg)
    ensures ByTenant(History(stream, cfg.wf, x), "default") == []
  {
    HistoryMembers(stream, cfg.wf, x);
    NoEvents(History(stream, cfg.wf, x), "default");
  }

  lemma TenantSnocs(cfg: Config, p: PutOff, x: string)
    requires x != "" && ByTenant(History(p.base, cfg.wf, x), "default") == []
    requires StreamKey(p.request.tenantId) != "default" && StreamKey(p.answer.tenantId) != "default"
    requires IsOf(cfg, p.retry, x) && StreamKey(p.retry.tenantId) == "default"
    requires IsOf(cfg, p.fired, x) && StreamKey(p.fired.tenantId) == "default"
    ensures ByTenant(History(p.Stream(), cfg.wf, x), "default") == [p.retry] + [p.fired]
  {
    var s1, s2 := p.base + [p.request], p.base + [p.request] + [p.retry];
    TenantSnoc(cfg, p.base, p.request, x, "default");
    TenantSnoc(cfg, s1, p.retry, x, "default");
    TenantSnoc(cfg, s2, p.answer, x, "default");
    TenantSnoc(cfg, s2 + [p.answer], p.fired, x, "default");
  }

  lemma OnlyFiringCompletes(retry: Event, fired: Event)
    requires !IsSuccess(retry) && IsSuccess(fired)
    ensures Done([retry] + [fired]) == [TaskName(fired.data.fields)]
  {
    DoneSnoc([], retry);
    assert [] + [retry] == [retry];
    DoneSnoc([retry], fired);
  }

  lemma {:induction false} DoneGrows(h: seq<Event>, more: seq<Event>)
    ensures Done(h) <= Done(h + more)
  {
    if more == [] {
      assert h + more == h;
    } else {
      DoneGrows(h, Front(more));
      assert h + more == (h + Front(more)) + [Last(more)];
      DoneSnoc(h + Front(more), Last(more));
    }
  }

  /** Names are distinct, every task can start, and no set data names the function `now`. */
  predicate Runnable(cfg: Config) {
    && cfg.wf != "" && NowFree(cfg.def)
    && Distinct(TaskList(cfg.def)) && forall name | name in TaskList(cfg.def) :: CanStart(cfg.def, name)
  }

  lemma RunnableReaches(cfg: Config, j: nat)
    requires Runnable(cfg) && j < |TaskList(cfg.def)|
    ensures Reachable(cfg.def, j) && TaskList(cfg.def)[j] !in TaskList(cfg.def)[..j]
    ensures AddsName(cfg, j) ==> DelayAt(cfg, j)
    ensures forall i | 0 <= i < |TaskList(cfg.def)| && TaskList(cfg.def)[i] == TaskList(cfg.def)[j] :: i == j
  {
    var list := TaskList(cfg.def);
    assert list[..|list|] == list;
    DistinctUpTo(list, |list|, j + 1);
    NewAt(list, |list|, j);
    assert forall i | 0 <= i < j :: list[i] in list;
  }

  /** Every event of the run about a task of the list comes in turn. */
  ghost predicate AllInTurn(cfg: Config, steps: seq<Step>) {
    forall n | 0 <= n < |After(cfg, steps).stream| :: StartsInTurn(cfg, After(cfg, steps).stream, n)
  }

  /** In all runs no task of the list starts early exactly when at most the last task adds a retry's
      name of its own. */
  lemma NothingStartsEarlyIff(cfg: Config)
    requires Runnable(cfg)
    ensures (forall steps :: AllInTurn(cfg, steps)) <==> LastOnly(cfg)
  {
    if LastOnly(cfg) {
      forall steps ensures AllInTurn(cfg, steps) {
        forall n | 0 <= n < |After(cfg, steps).stream| ensures StartsInTurn(cfg, After(cfg, steps).stream, n) {
          NothingStartsEarly(cfg, steps, n);
        }
      }
    } else {
      var j :| 0 <= j < |TaskList(cfg.def)| && AddsName(cfg, j) && j + 1 != |TaskList(cfg.def)|;
      var steps, n := TaskBehindStarts(cfg, "execution", j);
      OutOfTurn(cfg, After(cfg, steps).stream, n, j);
      assert !AllInTurn(cfg, steps);
    }
  }

  /** An event about the task behind the j-th before the j-th is completed. */
  lemma OutOfTurn(cfg: Config, stream: seq<Event>, n: nat, j: nat)
    requires Runnable(cfg) && j + 1 < |TaskList(cfg.def)| && n < |stream|
    requires Subject(stream[n]) == Some(TaskList(cfg.def)[j + 1])
    requires TaskList(cfg.def)[j] !in DoneBy(cfg, stream[..n], stream[n].executionId)
    ensures !StartsInTurn(cfg, stream, n)
  {
    RunnableReaches(cfg, j + 1);
  }

  /** A run in which the j-th task failed and has no success, and an event is about the task behind:
      the retry's own timer when it has that name, and otherwise what a worker publishes. */
  lemma TaskBehindStarts(cfg: Config, x: string, j: nat) returns (steps: seq<Step>, n: nat)
    requires Runnable(cfg) && x != "" && j + 1 < |TaskList(cfg.def)| && AddsName(cfg, j)
    ensures n < |After(cfg, steps).stream| && BehindAt(cfg, After(cfg, steps).stream, x, j, n)
  {
    var p;
    RunnableReaches(cfg, j);
    if TaskList(cfg.def)[j + 1] == RetryName(TaskList(cfg.def)[j]) {
      steps, p := RetryFires(cfg, x, j);
      n := |p.base| + 1;
      RetryIsBehind(cfg, x, j, p);
    } else {
      var e;
      steps, p, e := BehindIsStarted(cfg, x, j);
      n := |p.Stream()|;
      EventIsBehind(cfg, x, j, p, e);
    }
  }

  /** The n-th event is about the task behind the j-th, which has failed and has no success. */
  ghost predicate BehindAt(cfg: Config, stream: seq<Event>, x: string, j: nat, n: nat)
    requires j + 1 < |TaskList(cfg.def)| && n < |stream|
  {
    var list := TaskList(cfg.def);
    && stream[n].executionId == x && Subject(stream[n]) == Some(list[j + 1])
    && list[j] !in DoneBy(cfg, stream[..n], x)
    && HasFailed(History(stream, cfg.wf, x), list[j]) && list[j] !in DoneBy(cfg, stream, x)
  }

  lemma RetryIsBehind(cfg: Config, x: string, j: nat, p: PutOff)
    requires Runnable(cfg) && x != "" && j + 1 < |TaskList(cfg.def)| && AddsName(cfg, j) && IsPutOff(cfg, x, j, p)
    requires TaskList(cfg.def)[j + 1] == RetryName(TaskList(cfg.def)[j])
    ensures BehindAt(cfg, p.Stream(), x, j, |p.base| + 1)
  {
    RunnableReaches(cfg, j);
    PutOffIsOpen(cfg, x, j, p);
    RetryBeforeDone(cfg, x, j, p);
  }

  lemma RetryBeforeDone(cfg: Config, x: string, j: nat, p: PutOff)
    requires x != "" && j < |TaskList(cfg.def)| && IsPutOff(cfg, x, j, p)
    requires TaskList(cfg.def)[j] !in TaskList(cfg.def)[..j]
    ensures var stream, n := p.Stream(), |p.base| + 1;
            n < |stream| && stream[n] == p.retry && TaskList(cfg.def)[j] !in DoneBy(cfg, stream[..n], x)
  {
    PutOffCompletes(cfg, x, j, p);
    assert p.Stream()[..|p.base| + 1] == p.base + [p.request];
  }

  lemma EventIsBehind(cfg: Config, x: string, j: nat, p: PutOff, e: Event)
    requires Runnable(cfg) && x != "" && j + 1 < |TaskList(cfg.def)| && AddsName(cfg, j) && IsPutOff(cfg, x, j, p)
    requires Subject(e) == Some(TaskList(cfg.def)[j + 1]) && e.executionId == x
    ensures BehindAt(cfg, p.Stream() + [e], x, j, |p.Stream()|)
  {
    RunnableReaches(cfg, j);
    PutOffIsOpen(cfg, x, j, p);
    assert (p.Stream() + [e])[..|p.Stream()|] == p.Stream();
    BehindLeavesFailed(cfg, x, p.Stream(), e, TaskList(cfg.def)[j], TaskList(cfg.def)[j + 1]);
  }

  lemma BehindLeavesFailed(cfg: Config, x: string, stream: seq<Event>, e: Event, name: string, behind: string)
    requires x != "" && Subject(e) == Some(behind) && behind != name
    requires HasFailed(History(stream, cfg.wf, x), name) && name !in DoneBy(cfg, stream, x)
    ensures HasFailed(History(stream + [e], cfg.wf, x), name) && name !in DoneBy(cfg, stream + [e], x)
  {
    SuccessSubject(e);
    DoneBySnoc(cfg, stream, e, x);
    HistorySnoc(stream, e, cfg.wf, x);
    if e.workflowId == cfg.wf && e.executionId == x {
      FailedStays(History(stream, cfg.wf, x), [e], name);
    } else {
      FailedStays(History(stream, cfg.wf, x), [], name);
    }
  }

  lemma SuccessSubject(e: Event)
    ensures IsSuccess(e) ==> Subject(e) == Some(TaskName(e.data.fields))
  {
  }

  lemma FailedStays(history: seq<Event>, more: seq<Event>, name: string)
    requires HasFailed(history, name)
    ensures HasFailed(history + more, name)
  {
    var i :| 0 <= i < |history| && FailedAnswer(history[i], name);
    assert (history + more)[i] == history[i];
  }

  // --- Failure ------------------------------------------------------------------------

  /** Every failure of the run stands. */
  ghost predicate AllFailuresStand(cfg: Config, steps: seq<Step>) {
    forall x, name | x != "" :: FailureStands(cfg, After(cfg, steps).stream, x, name)
  }

  /** In all runs no task behind a failed one is touched, exactly when at most the last task adds a
      retry's name of its own. */
  lemma FailureIsFinalIff(cfg: Config)
    requires Runnable(cfg)
    ensures (forall steps :: AllFailuresStand(cfg, steps)) <==> LastOnly(cfg)
  {
    if LastOnly(cfg) {
      forall steps ensures AllFailuresStand(cfg, steps) {
        forall x, name | x != "" ensures FailureStands(cfg, After(cfg, steps).stream, x, name) {
          FailureIsFinal(cfg, steps, x, name);
        }
      }
    } else {
      var j :| 0 <= j < |TaskList(cfg.def)| && AddsName(cfg, j) && j + 1 != |TaskList(cfg.def)|;
      var steps, n := TaskBehindStarts(cfg, "execution", j);
      FailureFalls(cfg, After(cfg, steps).stream, n, j);
      assert !AllFailuresStand(cfg, steps);
    }
  }

  lemma FailureFalls(cfg: Config, stream: seq<Event>, n: nat, j: nat)
    requires Runnable(cfg) && j + 1 < |TaskList(cfg.def)| && n < |stream|
    requires var x, name := stream[n].executionId, TaskList(cfg.def)[j];
             HasFailed(History(stream, cfg.wf, x), name) && name !in DoneBy(cfg, stream, x)
    requires Subject(stream[n]) == Some(TaskList(cfg.def)[j + 1])
    ensures !FailureStands(cfg, stream, stream[n].executionId, TaskList(cfg.def)[j])
  {
    RunnableReaches(cfg, j);
    RunnableReaches(cfg, j + 1);
    assert !NothingBehind(cfg, stream, stream[n].executionId, j);
  }

  /** In the run, no worker publishes anything while a task that it read of is open. */
  ghost predicate OpenTasksBlock(cfg: Config, steps: seq<Step>) {
    var s := After(cfg, steps);
    forall w, clock, name | w in s.inflight && ReadOpen(cfg, s.stream, s.inflight[w], name) ::
      Decision(cfg, s.stream, s.inflight[w], clock) == Quiet
  }

  /** In the run, no worker publishes anything while a task that it read of has failed. */
  ghost predicate FailuresBlock(cfg: Config, steps: seq<Step>) {
    var s := After(cfg, steps);
    forall w, clock, name | w in s.inflight && ReadFailed(cfg, s.stream, s.inflight[w], name) ::
      Decision(cfg, s.stream, s.inflight[w], clock) == Quiet
  }

  /** In all runs executions stand still behind open tasks, and behind failed ones, exactly when no
      put-off retry displaces a task: a retry's name of its own is that of the task behind, or
      no task is behind. */
  lemma FailureStopsWorkersIff(cfg: Config)
    requires Runnable(cfg)
    ensures (forall steps :: FailuresBlock(cfg, steps)) <==> InStep(cfg)
    ensures (forall steps :: OpenTasksBlock(cfg, steps)) <==> InStep(cfg)
  {
    if InStep(cfg) {
      forall steps ensures OpenTasksBlock(cfg, steps) && FailuresBlock(cfg, steps) {
        EverythingBlocks(cfg, steps);
      }
    } else {
      var j :| 0 <= j < |TaskList(cfg.def)| && AddsName(cfg, j) && j + 1 != |TaskList(cfg.def)|
               && TaskList(cfg.def)[j + 1] != RetryName(TaskList(cfg.def)[j]);
      RunnableReaches(cfg, j);
      RunnableReaches(cfg, j + 1);
      var steps, f, p, e := WorkersGoOnAfterFailure(cfg, "execution", j);
      SourceInvHolds(cfg, steps);
      FailedIsOpen(cfg, After(cfg, steps), 0, TaskList(cfg.def)[j]);
      assert !FailuresBlock(cfg, steps) && !OpenTasksBlock(cfg, steps);
    }
  }

  lemma EverythingBlocks(cfg: Config, steps: seq<Step>)
    requires InStep(cfg)
    ensures OpenTasksBlock(cfg, steps) && FailuresBlock(cfg, steps)
  {
    var s := After(cfg, steps);
    forall w, clock, name | w in s.inflight && ReadOpen(cfg, s.stream, s.inflight[w], name)
      ensures Decision(cfg, s.stream, s.inflight[w], clock) == Quiet
    {
      UnansweredTaskBlocks(cfg, steps, w, clock, name);
    }
    forall w, clock, name | w in s.inflight && ReadFailed(cfg, s.stream, s.inflight[w], name)
      ensures Decision(cfg, s.stream, s.inflight[w], clock) == Quiet
    {
      FailureStopsWorkers(cfg, steps, w, clock, name);
    }
  }

  /** The task failed and is not completed, and one place more is taken. */
  lemma PutOffIsOpen(cfg: Config, x: string, j: nat, p: PutOff)
    requires cfg.wf != "" && x != "" && j < |TaskList(cfg.def)| && DelayAt(cfg, j) && IsPutOff(cfg, x, j, p)
    ensures var list, done := TaskList(cfg.def), DoneBy(cfg, p.Stream(), x);
            && RetryName(list[j]) != list[j] && done == list[..j] + [RetryName(list[j])]
            && HasFailed(History(p.Stream(), cfg.wf, x), list[j]) && list[j] !in done
  {
    PutOffCompletes(cfg, x, j, p);
    PutOffFailed(cfg, x, j, p);
    TaskIsNew(cfg.def, j);
    RetryIsLonger(TaskList(cfg.def)[j]);
  }

  /** A put-off retry lets the worker go on past the failed task: after the retry's timer fired, a
      worker publishes an event about the task behind, although the task failed and has no
      success. */
  lemma WorkersGoOnAfterFailure(cfg: Config, x: string, j: nat)
    returns (steps: seq<Step>, f: Flight, p: PutOff, e: Event)
    requires cfg.wf != "" && x != "" && j + 1 < |TaskList(cfg.def)| && DelayAt(cfg, j)
    requires TaskList(cfg.def)[j + 1] !in TaskList(cfg.def)[..j + 1]
    requires TaskList(cfg.def)[j + 1] != RetryName(TaskList(cfg.def)[j])
    requires CanStart(cfg.def, TaskList(cfg.def)[j + 1]) && NowFree(cfg.def)
    ensures var s, list := After(cfg, steps), TaskList(cfg.def);
            && s.inflight == map[0 := f] && s.stream == p.Stream() && IsPutOff(cfg, x, j, p)
            && ReadFailed(cfg, s.stream, f, list[j]) && s.stream[f.index].executionId == x && f.seen == |s.stream|
            && Decision(cfg, s.stream, f, MIDNIGHT) == Publish(e)
            && Subject(e) == Some(list[j + 1]) && e.executionId == x
  {
    var before;
    before, p := RetryFires(cfg, x, j);
    var stream := After(cfg, before).stream;
    f := Flight(0, |stream|, DefaultFirst(cfg));
    steps := before + [Deliver(0, 0, DefaultFirst(cfg))];
    DefaultFirstLists(cfg, before);
    SourceInvHolds(cfg, before);
    assert stream[0] == StartOf(cfg, x);
    RunDeliver(cfg, before, 0, 0);
    PutOffIsOpen(cfg, x, j, p);
    PutOffNext(cfg, x, j, p, TaskList(cfg.def)[j + 1]);
    e := GoesOn(cfg, x, stream, TaskList(cfg.def)[j + 1]);
    assert stream[..|stream|] == stream;
  }

  /** So an event about the task behind follows the failure. */
  lemma BehindIsStarted(cfg: Config, x: string, j: nat) returns (steps: seq<Step>, p: PutOff, e: Event)
    requires Runnable(cfg) && x != "" && j + 1 < |TaskList(cfg.def)| && AddsName(cfg, j)
    requires TaskList(cfg.def)[j + 1] != RetryName(TaskList(cfg.def)[j])
    ensures IsPutOff(cfg, x, j, p) && After(cfg, steps).stream == p.Stream() + [e]
    ensures Subject(e) == Some(TaskList(cfg.def)[j + 1]) && e.executionId == x
  {
    var before, f;
    RunnableReaches(cfg, j);
    before, f, p, e := WorkersGoOnAfterFailure(cfg, x, j);
    RunCommit(cfg, before, 0, MIDNIGHT);
    steps := before + [Commit(0, MIDNIGHT)];
  }

  lemma PutOffNext(cfg: Config, x: string, j: nat, p: PutOff, next: string)
    requires cfg.wf != "" && x != "" && j < |TaskList(cfg.def)| && DelayAt(cfg, j) && IsPutOff(cfg, x, j, p)
    requires next !in TaskList(cfg.def)[..j + 1] && next != RetryName(TaskList(cfg.def)[j])
    ensures |DoneBy(cfg, p.Stream(), x)| == j + 1 && next !in DoneBy(cfg, p.Stream(), x)
    ensures OwnOutstanding(cfg, p.Stream(), x, next) == 0
  {
    PutOffIsOpen(cfg, x, j, p);
    NextIsNew(TaskList(cfg.def), j, RetryName(TaskList(cfg.def)[j]), next);
    PutOffLeaves(cfg, x, j, p, next);
  }

  lemma NextIsNew(list: seq<string>, j: nat, retry: string, next: string)
    requires j < |list| && next !in list[..j + 1] && next != retry
    ensures next !in list[..j] + [retry] && next != list[j]
  {
    assert list[..j + 1] == list[..j] + [list[j]];
  }

  /** A worker that takes the start event again goes on with a task that is neither completed nor
      outstanding. */
  lemma GoesOn(cfg: Config, x: string, stream: seq<Event>, next: string) returns (e: Event)
    requires cfg.wf != "" && x != "" && |stream| > 0 && stream[0] == StartOf(cfg, x)
    requires Sourced(cfg, stream) && Lists(stream, cfg.wf, DefaultFirst(cfg))
    requires var done, list := DoneBy(cfg, stream, x), TaskList(cfg.def);
             |done| < |list| && list[|done|] == next && next !in done && OwnOutstanding(cfg, stream, x, next) == 0
    requires CanStart(cfg.def, next) && NowFree(cfg.def)
    ensures Decision(cfg, stream, Flight(0, |stream|, DefaultFirst(cfg)), MIDNIGHT) == Publish(e)
    ensures Subject(e) == Some(next) && e.executionId == x
  {
    var s := StateOf(cfg, x, stream);
    TakenAgain(cfg, x, stream);
    NotPending(cfg, stream, x, DefaultFirst(cfg), next);
    NextIsTask(cfg, stream, x, s, DoneBy(cfg, stream, x));
    StartIsNotQuiet(cfg.def, s, next);
    StartFailsIff(cfg.def, s, next, MIDNIGHT);
    assert next in TaskList(cfg.def);
    e := StartTask(cfg.def, s, next, MIDNIGHT).event;
    StartSubject(cfg.def, s, next);
  }

  /** What starting a task publishes is about that task. */
  lemma StartSubject(def: Definition, s: State, name: string)
    ensures var outcome := StartTask(def, s, name, MIDNIGHT);
            outcome.Publish? ==> Subject(outcome.event) == Some(name) && outcome.event.executionId == ExecutionId(s)
  {
    match TaskType(def, name) {
      case "set" => SetCompletedShape(def, s, name, MIDNIGHT);
      case "wait" =>
        var text := StrAt(TaskInput(def, s, name, MIDNIGHT), "duration").GetOr("");
        var duration := def.parseDuration(text);
        if duration.Some? {
          ScheduledShape(s, name, duration.value, MIDNIGHT);
        }
      case _ => RequestShape(def, s, name, MIDNIGHT);
    }
  }

  lemma PutOffLeaves(cfg: Config, x: string, j: nat, p: PutOff, name: string)
    requires x != "" && j < |TaskList(cfg.def)| && IsPutOff(cfg, x, j, p)
    ensures OwnOutstanding(cfg, p.Stream(), x, name) <= if name == TaskList(cfg.def)[j] then 1 else 0
  {
    OwnOutstandingSnoc(cfg, p.base, p.request, x, name);
    OwnOutstandingSnoc(cfg, p.base + [p.request], p.retry, x, name);
    OwnOutstandingSnoc(cfg, p.base + [p.request] + [p.retry], p.answer, x, name);
    OwnOutstandingSnoc(cfg, p.base + [p.request] + [p.retry] + [p.answer], p.fired, x, name);
  }

  lemma NotPending(cfg: Config, stream: seq<Event>, x: string, tenants: seq<string>, name: string)
    requires cfg.wf != "" && x != "" && Sourced(cfg, stream) && Lists(stream, cfg.wf, tenants)
    requires OwnOutstanding(cfg, stream, x, name) == 0
    ensures !HasPending(Apply(Rebuilt(cfg.def.id, Read(stream, cfg.wf, x, tenants)), StartOf(cfg, x)).pending, name)
  {
    var found := Read(stream, cfg.wf, x, tenants);
    RequestsOfExecutionAreOwn(cfg, stream, x);
    OutstandingInReads(History(stream, cfg.wf, x), tenants, Own(cfg), name);
    PendingIsOutstanding(cfg.def.id, found, name);
    CountedIsPending(Rebuilt(cfg.def.id, found).pending, name);
    NoSuccessKeepsPending(Rebuilt(cfg.def.id, found), StartOf(cfg, x));
  }

  // --- Completion ---------------------------------------------------------------------

  /** The tasks from the k-th on are new and can start. */
  predicate TailCanRun(cfg: Config, k: nat, done: seq<string>)
    requires k <= |TaskList(cfg.def)|
  {
    var tail := TaskList(cfg.def)[k..];
    Distinct(tail) && forall name | name in tail :: name !in done && CanStart(cfg.def, name)
  }

  /** A put-off retry takes the place of the next task: once it fired and its task succeeded, the
      execution goes on with the task after the next, and is reported completed although the next
      task never ran and may not even be able to start. */
  lemma DelayedRetrySkipsTask(cfg: Config, x: string, j: nat) returns (steps: seq<Step>)
    requires cfg.wf != "" && x != "" && j + 1 < |TaskList(cfg.def)| && DelayAt(cfg, j)
    requires var list := TaskList(cfg.def);
             && TailCanRun(cfg, j + 2, list[..j + 1] + [RetryName(list[j])])
             && list[j + 1] !in list[..j + 1] + [RetryName(list[j])] + list[j + 2..]
    requires NowFree(cfg.def)
    ensures var stream := After(cfg, steps).stream;
            && Finishes(cfg, steps, x) && |stream| > 0 && Completes(Last(stream), x)
            && TaskList(cfg.def)[j + 1] !in DoneBy(cfg, Front(stream), x)
  {
    var list := TaskList(cfg.def);
    var before, p := RetryFires(cfg, x, j);
    var shifted := PutOffSucceeds(cfg, x, j, before, p);
    var done := list[..j] + [RetryName(list[j])] + [list[j]];
    ShiftedTail(cfg, j, RetryName(list[j]), done);
    var tail := TailRuns(cfg, x, shifted, done);
    steps := EnoughIsCompletion(cfg, x, shifted + tail, done + list[|done|..]);
  }

  /** The retry's name and the j-th task in the other order. */
  lemma ShiftedTail(cfg: Config, j: nat, retry: string, done: seq<string>)
    requires j + 1 < |TaskList(cfg.def)| && done == TaskList(cfg.def)[..j] + [retry] + [TaskList(cfg.def)[j]]
    requires var list := TaskList(cfg.def);
             && TailCanRun(cfg, j + 2, list[..j + 1] + [retry])
             && list[j + 1] !in list[..j + 1] + [retry] + list[j + 2..]
    ensures |done| == j + 2 && TailCanRun(cfg, j + 2, done)
    ensures TaskList(cfg.def)[j + 1] !in done + TaskList(cfg.def)[j + 2..]
  {
    var list := TaskList(cfg.def);
    assert list[..j + 1] == list[..j] + [list[j]];
    assert forall name :: name in done <==> name in list[..j + 1] + [retry];
  }

  lemma PutOffSucceeds(cfg: Config, x: string, j: nat, before: seq<Step>, p: PutOff) returns (steps: seq<Step>)
    requires cfg.wf != "" && x != "" && j < |TaskList(cfg.def)| && DelayAt(cfg, j) && IsPutOff(cfg, x, j, p)
    requires After(cfg, before).stream == p.Stream() && After(cfg, before).inflight == map[]
    ensures var list := TaskList(cfg.def);
            AtRest(cfg, x, After(cfg, steps), list[..j] + [RetryName(list[j])] + [list[j]])
  {
    var list, name, stream := TaskList(cfg.def), TaskList(cfg.def)[j], p.Stream();
    assert stream[|p.base|] == p.request;
    RunExecute(cfg, before, |p.base|, true);
    steps := before + [Execute(|p.base|, true, map[], "")];
    var answer := AnswerEvent(p.request, true, map[], "");
    AnswerShape(p.request, true, map[], "");
    PutOffSettles(cfg, x, j, p, answer);
    assert (stream + [answer])[0] == p.base[0];
  }

  lemma PutOffSettles(cfg: Config, x: string, j: nat, p: PutOff, answer: Event)
    requires cfg.wf != "" && x != "" && j < |TaskList(cfg.def)| && DelayAt(cfg, j) && IsPutOff(cfg, x, j, p)
    requires IsOf(cfg, answer, x) && IsSuccess(answer) && OfTenant(cfg, answer.tenantId)
    requires TaskName(answer.data.fields) == TaskList(cfg.def)[j]
    ensures var list := TaskList(cfg.def);
            DoneBy(cfg, p.Stream() + [answer], x) == list[..j] + [RetryName(list[j])] + [list[j]]
    ensures forall n :: OwnOutstanding(cfg, p.Stream() + [answer], x, n) == 0
  {
    PutOffIsOpen(cfg, x, j, p);
    SuccessAdds(cfg, p.Stream(), x, answer);
    forall n ensures OwnOutstanding(cfg, p.Stream() + [answer], x, n) == 0 {
      PutOffIsSettled(cfg, x, j, p, answer, n);
    }
  }

  lemma PutOffIsSettled(cfg: Config, x: string, j: nat, p: PutOff, answer: Event, n: string)
    requires x != "" && j < |TaskList(cfg.def)| && IsPutOff(cfg, x, j, p)
    requires IsOf(cfg, answer, x) && IsSuccess(answer) && OfTenant(cfg, answer.tenantId)
    requires TaskName(answer.data.fields) == TaskList(cfg.def)[j]
    ensures OwnOutstanding(cfg, p.Stream() + [answer], x, n) == 0
  {
    PutOffLeaves(cfg, x, j, p, n);
    OwnOutstandingSnoc(cfg, p.Stream(), answer, x, n);
  }

  lemma {:induction false} TailRuns(cfg: Config, x: string, steps: seq<Step>, done: seq<string>)
    returns (more: seq<Step>)
    requires cfg.wf != "" && x != "" && |done| <= |TaskList(cfg.def)|
    requires AtRest(cfg, x, After(cfg, steps), done) && TailCanRun(cfg, |done|, done) && NowFree(cfg.def)
    ensures AtRest(cfg, x, After(cfg, steps + more), done + TaskList(cfg.def)[|done|..])
    decreases |TaskList(cfg.def)| - |done|
  {
    var list := TaskList(cfg.def);
    if |done| == |list| {
      more := [];
      assert steps + [] == steps;
      assert done + list[|done|..] == done;
    } else {
      var name := list[|done|];
      TailShrinks(cfg, |done|, done);
      var first := TaskCanComplete(cfg, x, steps, done);
      var rest := TailRuns(cfg, x, steps + first, done + [name]);
      more := first + rest;
      Associates(steps, first, rest);
      TailJoins(list, done);
    }
  }

  lemma TailJoins(list: seq<string>, done: seq<string>)
    requires |done| < |list|
    ensures done + [list[|done|]] + list[|done| + 1..] == done + list[|done|..]
  {
  }

  lemma TailShrinks(cfg: Config, k: nat, done: seq<string>)
    requires k < |TaskList(cfg.def)| && TailCanRun(cfg, k, done)
    ensures TaskList(cfg.def)[k] !in done && CanStart(cfg.def, TaskList(cfg.def)[k])
    ensures TailCanRun(cfg, k + 1, done + [TaskList(cfg.def)[k]])
  {
    var tail, rest := TaskList(cfg.def)[k..], TaskList(cfg.def)[k + 1..];
    assert tail[0] == TaskList(cfg.def)[k] && tail[0] in tail;
    assert forall i | 0 <= i < |rest| :: rest[i] == tail[i + 1] && tail[i + 1] != tail[0];
    assert forall name | name in rest :: name in tail;
  }

  /** In the run, every execution that is reported completed has completed all its tasks. */
  ghost predicate CompletesWhole(cfg: Config, steps: seq<Step>) {
    var stream := After(cfg, steps).stream;
    forall n, name | 0 <= n < |stream| && stream[n].kind.WorkflowCompleted? && name in TaskList(cfg.def) ::
      name in DoneBy(cfg, stream[..n], stream[n].executionId)
  }

  /** In all runs workflow.completed means that all tasks are completed, exactly when the put-off
      retries of all tasks but the last have names of tasks. */
  lemma CompletedMeansAllTasksIff(cfg: Config)
    requires Runnable(cfg)
    ensures (forall steps :: CompletesWhole(cfg, steps)) <==> Contained(cfg)
  {
    if Contained(cfg) {
      RunnableHasTasks(cfg);
      forall steps ensures CompletesWhole(cfg, steps) {
        forall n, name | 0 <= n < |After(cfg, steps).stream| && After(cfg, steps).stream[n].kind.WorkflowCompleted?
                         && name in TaskList(cfg.def)
          ensures name in DoneBy(cfg, After(cfg, steps).stream[..n], After(cfg, steps).stream[n].executionId)
        {
          CompletedMeansListed(cfg, steps, n);
        }
      }
    } else {
      var j :| 0 <= j < |TaskList(cfg.def)| - 1 && PutsOff(cfg, TaskList(cfg.def)[j])
               && RetryName(TaskList(cfg.def)[j]) !in TaskList(cfg.def);
      StraySkips(cfg, j);
      var steps := DelayedRetrySkipsTask(cfg, "execution", j);
      SkippedIsMissing(cfg, steps, "execution", TaskList(cfg.def)[j + 1]);
    }
  }

  /** The fallback tasks cannot start. */
  lemma RunnableHasTasks(cfg: Config)
    requires Runnable(cfg)
    ensures cfg.def.tasks != []
  {
    assert TaskList(cfg.def)[0] in TaskList(cfg.def);
  }

  lemma StraySkips(cfg: Config, j: nat)
    requires Runnable(cfg) && j + 1 < |TaskList(cfg.def)| && PutsOff(cfg, TaskList(cfg.def)[j])
    requires RetryName(TaskList(cfg.def)[j]) !in TaskList(cfg.def)
    ensures DelayAt(cfg, j)
    ensures var list := TaskList(cfg.def);
            && TailCanRun(cfg, j + 2, list[..j + 1] + [RetryName(list[j])])
            && list[j + 1] !in list[..j + 1] + [RetryName(list[j])] + list[j + 2..]
  {
    var list := TaskList(cfg.def);
    RunnableReaches(cfg, j);
    RunnableReaches(cfg, j + 1);
    assert list == list[..j + 1] + [list[j + 1]] + list[j + 2..];
    assert forall name | name in list[j + 2..] :: name in list;
  }

  lemma SkippedIsMissing(cfg: Config, steps: seq<Step>, x: string, name: string)
    requires var stream := After(cfg, steps).stream;
             |stream| > 0 && Completes(Last(stream), x) && name !in DoneBy(cfg, Front(stream), x)
    requires name in TaskList(cfg.def)
    ensures !CompletesWhole(cfg, steps)
  {
    var stream := After(cfg, steps).stream;
    assert stream[..|stream| - 1] == Front(stream);
  }

  // --- The lock is needed -------------------------------------------------------------

  /** No run requests a task twice for the same execution. */
  ghost predicate RequestsOnce(cfg: Config, steps: seq<Step>) {
    forall x, name | x != "" :: Requested(cfg, After(cfg, steps).stream, x, name) <= 1
  }

  /** Some task that can be reached runs in the executor. */
  predicate CallsExecutor(def: Definition) {
    exists j | 0 <= j < |TaskList(def)| :: ExecutorTaskAt(def, j)
  }

  predicate ExecutorTaskAt(def: Definition, j: nat)
    requires j < |TaskList(def)|
  {
    Reachable(def, j) && RunsInExecutor(def, TaskList(def)[j])
  }

  /** No task is ever requested twice exactly when the workers share the workflow's lock or no
      task that can be reached runs in the executor. */
  lemma RequestsOnceIffLocked(cfg: Config)
    requires cfg.wf != "" && NowFree(cfg.def)
    ensures (forall steps :: RequestsOnce(cfg, steps)) <==> cfg.locked || !CallsExecutor(cfg.def)
  {
    if cfg.locked {
      forall steps ensures RequestsOnce(cfg, steps) {
        forall x, name | x != "" ensures Requested(cfg, After(cfg, steps).stream, x, name) <= 1 {
          AtMostOneRequest(cfg, steps, x, name);
        }
      }
    } else if !CallsExecutor(cfg.def) {
      forall steps ensures RequestsOnce(cfg, steps) {
        forall x, name | x != "" ensures Requested(cfg, After(cfg, steps).stream, x, name) <= 1 {
          NothingIsRequested(cfg, steps, x, name);
        }
      }
    } else {
      var j :| 0 <= j < |TaskList(cfg.def)| && ExecutorTaskAt(cfg.def, j);
      var steps := TwoWorkersRequestTwice(cfg, "execution", j);
    }
  }

  lemma NothingIsRequested(cfg: Config, steps: seq<Step>, x: string, name: string)
    requires cfg.wf != "" && x != "" && !CallsExecutor(cfg.def)
    ensures Requested(cfg, After(cfg, steps).stream, x, name) == 0
  {
    forall j | 0 <= j < |TaskList(cfg.def)| ensures !DelayAt(cfg, j) {
      assert !ExecutorTaskAt(cfg.def, j);
    }
    PlainIsInStep(cfg);
    InvHolds(cfg, steps);
    var stream := After(cfg, steps).stream;
    if Asked(cfg, stream, x, name) {
      AskedInTurn(cfg, stream, x, name);
      var first := PlaceOf(cfg, stream, x, name);
      assert ExecutorTaskAt(cfg.def, first);
    }
  }

  /** Without the lock, two workers that both read before either publishes request twice. */
  lemma TwoWorkersRequestTwice(cfg: Config, x: string, j: nat) returns (steps: seq<Step>)
    requires cfg.wf != "" && x != "" && !cfg.locked && NowFree(cfg.def)
    requires j < |TaskList(cfg.def)| && ExecutorTaskAt(cfg.def, j)
    ensures !RequestsOnce(cfg, steps)
  {
    var name, list := TaskList(cfg.def)[j], TaskList(cfg.def);
    assert forall i | 0 <= i < j :: list[..j][i] == list[..j + 1][i];
    var started := RunTo(cfg, x, j);
    var stream := After(cfg, started).stream;
    var request := NextRequest(cfg, x, started, j);
    steps := BothCommit(cfg, started, request);
    RequestedSnoc(cfg, stream, request, x, name);
    RequestedSnoc(cfg, stream + [request], request, x, name);
    assert Requested(cfg, After(cfg, steps).stream, x, name) > 1;
  }

  lemma NextRequest(cfg: Config, x: string, steps: seq<Step>, j: nat) returns (request: Event)
    requires cfg.wf != "" && x != "" && j < |TaskList(cfg.def)| && ExecutorTaskAt(cfg.def, j)
    requires AtRest(cfg, x, After(cfg, steps), TaskList(cfg.def)[..j])
    ensures var stream := After(cfg, steps).stream;
            Decision(cfg, stream, Flight(0, |stream|, DefaultFirst(cfg)), MIDNIGHT) == Publish(request)
    ensures Requests(request, TaskList(cfg.def)[j]) && IsOf(cfg, request, x)
  {
    var name, stream := TaskList(cfg.def)[j], After(cfg, steps).stream;
    RestingState(cfg, x, steps, TaskList(cfg.def)[..j]);
    var state := Decided(cfg.def, Read(stream, cfg.wf, x, DefaultFirst(cfg)), StartOf(cfg, x));
    TaskIsNew(cfg.def, j);
    NextIsTask(cfg, stream, x, state, TaskList(cfg.def)[..j]);
    request := RequestEvent(cfg.def, state, name, MIDNIGHT);
    RequestShape(cfg.def, state, name, MIDNIGHT);
    assert stream[..|stream|] == stream;
  }

  lemma BothCommit(cfg: Config, started: seq<Step>, e: Event) returns (steps: seq<Step>)
    requires var s := After(cfg, started);
             && s.inflight == map[] && Enabled(cfg, s, Deliver(0, 0, DefaultFirst(cfg))) && !cfg.locked
             && Decision(cfg, s.stream, Flight(0, |s.stream|, DefaultFirst(cfg)), MIDNIGHT) == Publish(e)
    ensures After(cfg, steps).stream == After(cfg, started).stream + [e] + [e]
  {
    var s, tenants := After(cfg, started), DefaultFirst(cfg);
    var f := Flight(0, |s.stream|, tenants);
    RunDeliver(cfg, started, 0, 0);
    var one := started + [Deliver(0, 0, tenants)];
    RunDeliver(cfg, one, 1, 0);
    var both := one + [Deliver(1, 0, tenants)];
    RunCommit(cfg, both, 0, MIDNIGHT);
    var once := both + [Commit(0, MIDNIGHT)];
    assert (s.stream + [e])[..f.seen] == s.stream[..f.seen];
    RunCommit(cfg, once, 1, MIDNIGHT);
    steps := once + [Commit(1, MIDNIGHT)];
  }
}
