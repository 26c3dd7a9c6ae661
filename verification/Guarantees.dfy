/** The guarantees of the protocol, as statements about every run. */
module Guarantees {
  import opened Values
  import opened Replay
  import opened ReplayLaws
  import opened Worker
  import opened Protocol
  import opened Reads
  import opened Progress
  import opened Safety

  // --- Order --------------------------------------------------------------------------

  /** The completed list that replaying the first `n` events gives for an execution, read in the
      order of `tenants`. */
  ghost function CompletedAt(cfg: Config, steps: seq<Step>, n: nat, x: string, tenants: seq<string>): seq<string>
    requires n <= |After(cfg, steps).stream|
  {
    CompletedNames(Rebuilt(cfg.def.id, Read(After(cfg, steps).stream[..n], cfg.wf, x, tenants)).completed)
  }

  /** A put-off retry of the j-th task adds a name of its own, or, in a stream of its own, the
      name of an earlier task other than the first. */
  ghost predicate DisordersAt(cfg: Config, j: nat)
    requires j < |TaskList(cfg.def)|
  {
    var list := TaskList(cfg.def);
    PutsOffAt(cfg, j) && RetryName(list[j]) !in list[..if TwoStreams(cfg) && j > 0 then 1 else j]
  }

  ghost predicate InSequence(cfg: Config) {
    cfg.wf != "" && !exists j | 0 <= j < |TaskList(cfg.def)| :: DisordersAt(cfg, j)
  }

  lemma InSequenceIsPlain(cfg: Config)
    requires InSequence(cfg)
    ensures Plain(cfg)
  {
    var list := TaskList(cfg.def);
    forall j | 0 <= j < |list| ensures !DelayAt(cfg, j) {
      assert !DisordersAt(cfg, j);
      assert forall name | name in list[..1] && j > 0 :: name in list[..j];
    }
  }

  /** Outside the tenant's stream only retries fire, and under names completed before. */
  lemma {:induction false} StraysAreRetries(cfg: Config, stream: seq<Event>, x: string)
    requires Plain(cfg) && Ordered(cfg, stream) && x != ""
    ensures StraysRepeat(History(stream, cfg.wf, x), Own(cfg))
    ensures forall e | e in History(stream, cfg.wf, x) && IsStray(e, Own(cfg)) ::
              IsRetryName(cfg, TaskName(e.data.fields))
  {
    if stream != [] {
      var front, e := Front(stream), Last(stream);
      assert stream == front + [e];
      StraysAreRetries(cfg, front, x);
      HistorySnoc(front, e, cfg.wf, x);
      StraysRepeatSnoc(History(front, cfg.wf, x), e, Own(cfg));
      assert History(front, cfg.wf, x) + [] == History(front, cfg.wf, x);
      if e.executionId == x && IsStray(e, Own(cfg)) {
        SuccessIsDue(cfg, front, e);
        RetryIsDone(cfg, front, x, TaskName(e.data.fields));
      }
    }
  }

  lemma TenantsOf(cfg: Config, stream: seq<Event>, e: Event)
    requires Sourced(cfg, stream) && e in stream
    ensures TenantOk(cfg, e.tenantId)
  {
    var i :| 0 <= i < |stream| && stream[i] == e;
    SourcedAt(cfg, stream, i);
  }

  lemma ReadInOrder(cfg: Config, stream: seq<Event>, x: string, tenants: seq<string>)
    requires InSequence(cfg) && Ordered(cfg, stream) && x != "" && Lists(stream, cfg.wf, tenants)
    ensures Done(Read(stream, cfg.wf, x, tenants)) == DoneBy(cfg, stream, x)
  {
    var h, list := History(stream, cfg.wf, x), TaskList(cfg.def);
    OrderedIsSourced(cfg, stream);
    InSequenceIsPlain(cfg);
    TenantsOfHistory(cfg, stream, x, tenants);
    if TwoStreams(cfg) {
      StraysAreRetries(cfg, stream, x);
      DoneIsPrefix(cfg, stream, x);
      forall e | e in h && IsStray(e, Own(cfg)) ensures TaskName(e.data.fields) == list[0] {
        RetryIsFirst(cfg, TaskName(e.data.fields));
      }
      StraysDoNotReorder(h, tenants, Own(cfg), "default", list[0]);
    } else {
      GatheredAlone(h, tenants, "default");
      if h != [] {
        assert h[0] in h;
      }
    }
  }

  lemma TenantsOfHistory(cfg: Config, stream: seq<Event>, x: string, tenants: seq<string>)
    requires x != "" && Sourced(cfg, stream) && Lists(stream, cfg.wf, tenants)
    ensures forall e | e in History(stream, cfg.wf, x) ::
              StreamKey(e.tenantId) in {Own(cfg), "default"} && StreamKey(e.tenantId) in tenants
  {
    HistoryMembers(stream, cfg.wf, x);
    forall e | e in History(stream, cfg.wf, x) ensures TenantOk(cfg, e.tenantId) {
      TenantsOf(cfg, stream, e);
    }
  }

  lemma RetryIsFirst(cfg: Config, name: string)
    requires InSequence(cfg) && TwoStreams(cfg) && IsRetryName(cfg, name)
    ensures name == TaskList(cfg.def)[0]
  {
    var list := TaskList(cfg.def);
    var j :| 0 <= j < |list| && PutsOffAt(cfg, j) && name == RetryName(list[j]);
    assert !DisordersAt(cfg, j);
  }

  /** In every run, at every moment and in whatever order the streams are read, what an
      execution's history replays to has completed an initial part of the task list: under
      redelivery, repeated answers, repeated timers and any number of workers without a lock. */
  lemma {:induction false} CompletedIsPrefix(cfg: Config, steps: seq<Step>, n: nat, x: string, tenants: seq<string>)
    requires InSequence(cfg) && x != "" && n <= |After(cfg, steps).stream|
    requires Lists(After(cfg, steps).stream[..n], cfg.wf, tenants)
    ensures CompletedAt(cfg, steps, n, x, tenants) <= TaskList(cfg.def)
  {
    InSequenceIsPlain(cfg);
    PlainIsInStep(cfg);
    InvHolds(cfg, steps);
    var stream := After(cfg, steps).stream;
    OrderedAt(cfg, stream, n);
    DoneIsPrefix(cfg, stream[..n], x);
    ReadInOrder(cfg, stream[..n], x, tenants);
    CompletedIsDone(cfg.def.id, Read(stream[..n], cfg.wf, x, tenants));
  }

  /** The task an event is about, when it requests, schedules or completes one. */
  function Subject(e: Event): Option<string> {
    match e.kind
    case TaskRequested => if e.data.Obj? then Some(RequestedName(e.data.fields)) else None
    case TaskCompleted => if e.data.Obj? then Some(TaskName(e.data.fields)) else None
    case TimerFired => if e.data.Obj? then Some(TaskName(e.data.fields)) else None
    case TimerScheduled =>
      if e.data.Obj? && TimerOf(e.data.fields).Some? then Some(TimerOf(e.data.fields).value.taskName) else None
    case _ => None
  }

  /** An event about a task of the list comes when all tasks before it are completed. */
  ghost predicate StartsInTurn(cfg: Config, stream: seq<Event>, n: nat)
    requires n < |stream|
  {
    Subject(stream[n]).Some? && Subject(stream[n]).value in TaskList(cfg.def) ==>
      exists j | 0 <= j < |TaskList(cfg.def)| :: TaskIsNext(cfg, stream, n, j)
  }

  ghost predicate TaskIsNext(cfg: Config, stream: seq<Event>, n: nat, j: nat)
    requires n < |stream| && j < |TaskList(cfg.def)| && Subject(stream[n]).Some?
  {
    && TaskList(cfg.def)[j] == Subject(stream[n]).value
    && forall i | 0 <= i < j :: TaskList(cfg.def)[i] in DoneBy(cfg, stream[..n], stream[n].executionId)
  }

  /** What a task event is about came in turn or is the name of a put-off retry. */
  lemma SubjectIsPlaced(cfg: Config, stream: seq<Event>, n: nat)
    requires Ordered(cfg, stream) && n < |stream| && Subject(stream[n]).Some?
    ensures var x, name := stream[n].executionId, Subject(stream[n]).value;
            x != "" && (InTurn(cfg, stream[..n], x, name) || RetryDue(cfg, stream[..n], x, name))
  {
    OrderedAt(cfg, stream, n);
    var e := stream[n];
    if e.kind.TaskCompleted? && e.source.ExecutorService? {
      AskedInTurn(cfg, stream[..n], e.executionId, TaskName(e.data.fields));
    }
  }

  /** Where only the last task adds a name of its own, a put-off retry is about an earlier task or
      about none. */
  lemma RetryIsEarlier(cfg: Config, stream: seq<Event>, x: string, name: string) returns (q: nat)
    requires LastOnly(cfg) && Ordered(cfg, stream) && x != "" && RetryDue(cfg, stream, x, name)
    ensures q < |TaskList(cfg.def)| && Ready(cfg, stream, x, q)
    ensures name in TaskList(cfg.def)[..q] || (name !in TaskList(cfg.def) && name == RetryName(Last(TaskList(cfg.def))))
  {
    var task :| Asked(cfg, stream, x, task) && PutsOff(cfg, task) && name == RetryName(task);
    q := PlaceOf(cfg, stream, x, task);
    OwnRetryIsLast(cfg, q);
  }

  lemma OwnRetryIsLast(cfg: Config, q: nat)
    requires LastOnly(cfg) && q < |TaskList(cfg.def)| && Attainable(cfg, q) && PutsOff(cfg, TaskList(cfg.def)[q])
    ensures var list, retry := TaskList(cfg.def), RetryName(TaskList(cfg.def)[q]);
            retry in list[..q] || (retry !in list && retry == RetryName(Last(list)))
  {
    var list := TaskList(cfg.def);
    RetryIsLonger(list[q]);
    if RetryName(list[q]) !in list[..q] {
      assert AddsName(cfg, q);
      assert list == list[..q] + [list[q]];
    }
  }

  /** Where at most the last task adds a retry's name, no task of the list is requested, scheduled,
      set or completed before all its predecessors completed, and an event about no task of
      the list is about that retry. */
  lemma {:induction false} NothingStartsEarly(cfg: Config, steps: seq<Step>, n: nat)
    requires LastOnly(cfg) && n < |After(cfg, steps).stream|
    ensures StartsInTurn(cfg, After(cfg, steps).stream, n)
    ensures var e, list := After(cfg, steps).stream[n], TaskList(cfg.def);
            Subject(e).Some? && Subject(e).value !in list ==>
              !Plain(cfg) && Subject(e).value == RetryName(Last(list))
  {
    LastOnlyIsInStep(cfg);
    InvHolds(cfg, steps);
    var stream := After(cfg, steps).stream;
    if Subject(stream[n]).Some? {
      OrderedAt(cfg, stream, n);
      SubjectIsPlaced(cfg, stream, n);
      if InTurn(cfg, stream[..n], stream[n].executionId, Subject(stream[n]).value) {
        TurnIsInTurn(cfg, stream, n);
      } else {
        RetryIsInTurn(cfg, stream, n);
      }
    }
  }

  lemma TurnIsInTurn(cfg: Config, stream: seq<Event>, n: nat)
    requires n < |stream| && Subject(stream[n]).Some?
    requires InTurn(cfg, stream[..n], stream[n].executionId, Subject(stream[n]).value)
    ensures StartsInTurn(cfg, stream, n) && Subject(stream[n]).value in TaskList(cfg.def)
  {
    var j :| 0 <= j < |TaskList(cfg.def)| && TaskList(cfg.def)[j] == Subject(stream[n]).value
             && Ready(cfg, stream[..n], stream[n].executionId, j);
    assert TaskIsNext(cfg, stream, n, j);
  }

  lemma RetryIsInTurn(cfg: Config, stream: seq<Event>, n: nat)
    requires LastOnly(cfg) && n < |stream| && Ordered(cfg, stream[..n]) && Subject(stream[n]).Some?
    requires stream[n].executionId != ""
    requires RetryDue(cfg, stream[..n], stream[n].executionId, Subject(stream[n]).value)
    ensures StartsInTurn(cfg, stream, n)
    ensures var list, name := TaskList(cfg.def), Subject(stream[n]).value;
            name !in list ==> !Plain(cfg) && name == RetryName(Last(list))
  {
    var list, name := TaskList(cfg.def), Subject(stream[n]).value;
    var q := RetryIsEarlier(cfg, stream[..n], stream[n].executionId, name);
    if j :| 0 <= j < q && list[..q][j] == name {
      assert TaskIsNext(cfg, stream, n, j);
    } else if Plain(cfg) {
      RetryIsDone(cfg, stream[..n], stream[n].executionId, name);
      DoneIsPrefix(cfg, stream[..n], stream[n].executionId);
      PrefixMembers(DoneBy(cfg, stream[..n], stream[n].executionId), list, name);
    }
  }

  lemma PrefixMembers(done: seq<string>, list: seq<string>, name: string)
    requires done <= list && name in done
    ensures name in list
  {
    var i :| 0 <= i < |done| && done[i] == name;
    assert list[i] == name;
  }

  // --- Completion ---------------------------------------------------------------------

  /** Where no put-off retry displaces a task, an execution has completed all its tasks when
      workflow.completed enters the stream, and in order where none adds a name of its own. */
  lemma CompletedMeansAllTasks(cfg: Config, steps: seq<Step>, n: nat)
    requires InStep(cfg) && n < |After(cfg, steps).stream| && After(cfg, steps).stream[n].kind.WorkflowCompleted?
    ensures var stream := After(cfg, steps).stream;
            var done, list := DoneBy(cfg, stream[..n], stream[n].executionId), TaskList(cfg.def);
            (forall name | name in list :: name in done) && (Plain(cfg) ==> done == list)
  {
    InvHolds(cfg, steps);
    var stream, list := After(cfg, steps).stream, TaskList(cfg.def);
    OrderedAt(cfg, stream, n);
    if Plain(cfg) {
      DoneIsPrefix(cfg, stream[..n], stream[n].executionId);
      WholePrefix(DoneBy(cfg, stream[..n], stream[n].executionId), list);
    }
  }

  lemma WholePrefix(done: seq<string>, list: seq<string>)
    requires done <= list && Distinct(list) && forall name | name in list :: name in done
    ensures done == list
  {
    if |done| < |list| {
      NextIsMissing(done, list);
    }
  }

  lemma NextIsMissing(done: seq<string>, list: seq<string>)
    requires done <= list && |done| < |list| && Distinct(list)
    ensures list[|done|] !in done && list[|done|] in list
  {
    assert forall i | 0 <= i < |done| :: done[i] == list[i] && list[i] != list[|done|];
  }

  /** Then a worker publishes workflow.completed exactly when the execution has completed the whole
      task list and nothing is pending in the state it decided on. */
  lemma CompletesExactlyWhenDone(cfg: Config, steps: seq<Step>, w: nat, clock: Clock)
    requires InStep(cfg) && w in After(cfg, steps).inflight
    ensures var s := After(cfg, steps);
            var f := s.inflight[w];
            && f.index < |s.stream| && f.seen <= |s.stream|
            && var e, read := s.stream[f.index], s.stream[..f.seen];
               var state := Decided(cfg.def, Read(read, cfg.wf, e.executionId, f.tenants), e);
               !Skips(e) ==>
                 (ReportsCompletion(Decision(cfg, s.stream, f, clock)) <==>
                  (AllDone(cfg, read, e.executionId) && state.pending == []))
  {
    InvHolds(cfg, steps);
    var s := After(cfg, steps);
    var f := s.inflight[w];
    assert FlightOk(cfg, s.stream, f);
    var e, read := s.stream[f.index], s.stream[..f.seen];
    if !Skips(e) {
      OrderedIsSourced(cfg, s.stream);
      DecidedState(cfg, s.stream, f);
      TakenEventIsKnown(cfg, s.stream, f);
      OrderedAt(cfg, s.stream, f.seen);
      DoneIsShaped(cfg, read, e.executionId);
      var state := Decided(cfg.def, Read(read, cfg.wf, e.executionId, f.tenants), e);
      CompletionStepIff(cfg, read, e.executionId, state, clock);
    }
  }

  predicate ReportsCompletion(outcome: Outcome) {
    outcome.Publish? && outcome.event.kind.WorkflowCompleted?
  }

  lemma CompletionStepIff(cfg: Config, stream: seq<Event>, x: string, s: State, clock: Clock)
    requires InStep(cfg) && Shaped(cfg, stream, x) && Agrees(cfg, stream, x, s)
    ensures ReportsCompletion(NextStep(cfg.def, s, clock)) <==> AllDone(cfg, stream, x) && s.pending == []
  {
    var list := TaskList(cfg.def);
    if NextTask(cfg.def, s).Some? {
      StartsNoCompletion(cfg.def, s, NextTask(cfg.def, s).value, clock);
      StartsFirstOpen(cfg, stream, x, s);
    } else if s.pending == [] && |s.completed| >= |cfg.def.tasks| {
      CompletionIsWhole(cfg, stream, x, s);
    } else if AllDone(cfg, stream, x) {
      assert list[..|list|] == list;
      NotFurther(list, DoneBy(cfg, stream, x), |list|);
    }
  }

  lemma StartsNoCompletion(def: Definition, s: State, name: string, clock: Clock)
    ensures !ReportsCompletion(StartTask(def, s, name, clock))
  {
  }

  // --- Failure ------------------------------------------------------------------------

  /** The history has a failed answer for the task. */
  predicate HasFailed(history: seq<Event>, name: string) {
    exists i | 0 <= i < |history| :: FailedAnswer(history[i], name)
  }

  predicate FailedAnswer(e: Event, name: string) {
    e.kind.TaskCompleted? && e.data.Obj? && !Succeeded(e.data.fields) && TaskName(e.data.fields) == name
  }

  /** A failed task was requested. */
  lemma FailedWasAsked(cfg: Config, stream: seq<Event>, x: string, name: string)
    requires Sourced(cfg, stream) && x != "" && HasFailed(History(stream, cfg.wf, x), name)
    ensures Asked(cfg, stream, x, name)
  {
    var history := History(stream, cfg.wf, x);
    var i :| 0 <= i < |history| && FailedAnswer(history[i], name);
    HistoryMembers(stream, cfg.wf, x);
    assert history[i] in stream;
    var k :| 0 <= k < |stream| && stream[k] == history[i];
    SourcedAt(cfg, stream, k);
    StreamGrows(cfg, stream, k, x);
  }

  /** The worker takes an event of an execution in whose streams it read that the task was requested
      and has no success. */
  predicate ReadOpen(cfg: Config, stream: seq<Event>, f: Flight, name: string) {
    && f.index < |stream| && f.seen <= |stream|
    && var x := stream[f.index].executionId;
       x != "" && Asked(cfg, stream[..f.seen], x, name) && name !in DoneBy(cfg, stream[..f.seen], x)
  }

  /** It read that the task failed and has no success. */
  predicate ReadFailed(cfg: Config, stream: seq<Event>, f: Flight, name: string) {
    && f.index < |stream| && f.seen <= |stream|
    && var x := stream[f.index].executionId;
       x != "" && HasFailed(History(stream[..f.seen], cfg.wf, x), name) && name !in DoneBy(cfg, stream[..f.seen], x)
  }

  lemma FailedIsOpen(cfg: Config, s: System, w: nat, name: string)
    requires cfg.wf != "" && SourceInv(cfg, s) && w in s.inflight && ReadFailed(cfg, s.stream, s.inflight[w], name)
    ensures ReadOpen(cfg, s.stream, s.inflight[w], name)
  {
    var f := s.inflight[w];
    SourcedAt(cfg, s.stream, f.seen);
    FailedWasAsked(cfg, s.stream[..f.seen], s.stream[f.index].executionId, name);
  }

  /** Whatever the configuration: as long as a requested task has no success in what a worker read,
      that worker does not report the execution completed. */
  lemma OpenIsNotReported(cfg: Config, steps: seq<Step>, w: nat, clock: Clock, name: string)
    requires cfg.wf != "" && w in After(cfg, steps).inflight
    requires ReadOpen(cfg, After(cfg, steps).stream, After(cfg, steps).inflight[w], name)
    ensures !ReportsCompletion(Decision(cfg, After(cfg, steps).stream, After(cfg, steps).inflight[w], clock))
  {
    SourceInvHolds(cfg, steps);
    OpenIsPending(cfg, After(cfg, steps).stream, After(cfg, steps).inflight[w], clock, name);
  }

  lemma OpenIsPending(cfg: Config, stream: seq<Event>, f: Flight, clock: Clock, name: string)
    requires cfg.wf != "" && Sourced(cfg, stream) && FlightOk(cfg, stream, f) && ReadOpen(cfg, stream, f, name)
    ensures !ReportsCompletion(Decision(cfg, stream, f, clock))
  {
    var e := stream[f.index];
    if !Skips(e) {
      DecidedState(cfg, stream, f);
      var state := Decided(cfg.def, Read(stream[..f.seen], cfg.wf, e.executionId, f.tenants), e);
      assert HasPending(state.pending, name);
      if NextTask(cfg.def, state).Some? {
        StartsNoCompletion(cfg.def, state, NextTask(cfg.def, state).value, clock);
      }
    }
  }

  /** Nor does a worker that read of a failed task without a success. */
  lemma FailedIsNotReported(cfg: Config, steps: seq<Step>, w: nat, clock: Clock, name: string)
    requires cfg.wf != "" && w in After(cfg, steps).inflight
    requires ReadFailed(cfg, After(cfg, steps).stream, After(cfg, steps).inflight[w], name)
    ensures !ReportsCompletion(Decision(cfg, After(cfg, steps).stream, After(cfg, steps).inflight[w], clock))
  {
    SourceInvHolds(cfg, steps);
    FailedIsOpen(cfg, After(cfg, steps), w, name);
    OpenIsNotReported(cfg, steps, w, clock, name);
  }

  /** Where no put-off retry displaces a task, an execution stands still as long as a requested task
      has no success: whatever event is processed, the worker publishes nothing. */
  lemma {:induction false} UnansweredTaskBlocks(cfg: Config, steps: seq<Step>, w: nat, clock: Clock, name: string)
    requires InStep(cfg) && w in After(cfg, steps).inflight
    requires ReadOpen(cfg, After(cfg, steps).stream, After(cfg, steps).inflight[w], name)
    ensures Decision(cfg, After(cfg, steps).stream, After(cfg, steps).inflight[w], clock) == Quiet
  {
    InvHolds(cfg, steps);
    var s := After(cfg, steps);
    var f := s.inflight[w];
    assert FlightOk(cfg, s.stream, f);
    var e, read := s.stream[f.index], s.stream[..f.seen];
    if !Skips(e) {
      OrderedIsSourced(cfg, s.stream);
      DecidedState(cfg, s.stream, f);
      OrderedAt(cfg, s.stream, f.seen);
      DoneIsShaped(cfg, read, e.executionId);
      var q := PlaceOf(cfg, read, e.executionId, name);
      ReadyIsFilled(cfg, read, e.executionId, q);
      var state := Decided(cfg.def, Read(read, cfg.wf, e.executionId, f.tenants), e);
      OpenTaskBlocks(cfg, read, e.executionId, state, clock);
    }
  }

  /** So it does once a task failed and has no success in what a worker read. */
  lemma FailureStopsWorkers(cfg: Config, steps: seq<Step>, w: nat, clock: Clock, name: string)
    requires InStep(cfg) && w in After(cfg, steps).inflight
    requires ReadFailed(cfg, After(cfg, steps).stream, After(cfg, steps).inflight[w], name)
    ensures Decision(cfg, After(cfg, steps).stream, After(cfg, steps).inflight[w], clock) == Quiet
  {
    SourceInvHolds(cfg, steps);
    FailedIsOpen(cfg, After(cfg, steps), w, name);
    UnansweredTaskBlocks(cfg, steps, w, clock, name);
  }

  /** While a failed task has no success, all tasks before it are completed and no event of the
      execution is about a task behind it. */
  ghost predicate FailureStands(cfg: Config, stream: seq<Event>, x: string, name: string) {
    HasFailed(History(stream, cfg.wf, x), name) && name !in DoneBy(cfg, stream, x) ==>
      exists k | 0 <= k < |TaskList(cfg.def)| && TaskList(cfg.def)[k] == name :: NothingBehind(cfg, stream, x, k)
  }

  ghost predicate NothingBehind(cfg: Config, stream: seq<Event>, x: string, k: nat)
    requires k < |TaskList(cfg.def)|
  {
    var list := TaskList(cfg.def);
    && (forall i | 0 <= i < k :: list[i] in DoneBy(cfg, stream, x))
    && forall n | 0 <= n < |stream| && stream[n].executionId == x && Subject(stream[n]).Some?
                  && Subject(stream[n]).value in list ::
         Subject(stream[n]).value in list[..k + 1]
  }

  lemma {:induction false} FailureIsFinal(cfg: Config, steps: seq<Step>, x: string, name: string)
    requires LastOnly(cfg) && x != ""
    ensures FailureStands(cfg, After(cfg, steps).stream, x, name)
    ensures var stream, list := After(cfg, steps).stream, TaskList(cfg.def);
            Plain(cfg) && HasFailed(History(stream, cfg.wf, x), name) && name !in DoneBy(cfg, stream, x) ==>
              |DoneBy(cfg, stream, x)| < |list| && list[|DoneBy(cfg, stream, x)|] == name
  {
    LastOnlyIsInStep(cfg);
    InvHolds(cfg, steps);
    var stream, list := After(cfg, steps).stream, TaskList(cfg.def);
    if HasFailed(History(stream, cfg.wf, x), name) && name !in DoneBy(cfg, stream, x) {
      OrderedIsSourced(cfg, stream);
      FailedWasAsked(cfg, stream, x, name);
      var k := PlaceOf(cfg, stream, x, name);
      forall n | 0 <= n < |stream| && stream[n].executionId == x && Subject(stream[n]).Some?
                 && Subject(stream[n]).value in list
        ensures Subject(stream[n]).value in list[..k + 1]
      {
        EventIsNotBehind(cfg, stream, n, k);
      }
      assert NothingBehind(cfg, stream, x, k);
      if Plain(cfg) {
        DoneIsPrefix(cfg, stream, x);
        AskedInTurn(cfg, stream, x, name);
        TurnIsNext(cfg, stream, x, name);
      }
    }
  }

  lemma EventIsNotBehind(cfg: Config, stream: seq<Event>, n: nat, k: nat)
    requires LastOnly(cfg) && Ordered(cfg, stream) && n < |stream| && k < |TaskList(cfg.def)|
    requires Ready(cfg, stream, stream[n].executionId, k)
    requires TaskList(cfg.def)[k] !in DoneBy(cfg, stream, stream[n].executionId)
    requires Subject(stream[n]).Some? && Subject(stream[n]).value in TaskList(cfg.def)
    ensures Subject(stream[n]).value in TaskList(cfg.def)[..k + 1]
  {
    var x, list, name := stream[n].executionId, TaskList(cfg.def), Subject(stream[n]).value;
    SubjectIsPlaced(cfg, stream, n);
    TurnStays(cfg, stream, n, x, name);
    ReadyIsFilled(cfg, stream, x, k);
    if InTurn(cfg, stream, x, name) {
      var q :| 0 <= q < |list| && list[q] == name && Ready(cfg, stream, x, q);
      ReadyIsFilled(cfg, stream, x, q);
      IsBefore(list, k + 1, q);
    } else {
      var q := RetryIsEarlier(cfg, stream, x, name);
      ReadyIsFilled(cfg, stream, x, q);
      var m :| 0 <= m < q && list[..q][m] == name;
      IsBefore(list, k + 1, m);
    }
  }

  // --- Every run, with put-off retries too --------------------------------------------

  /** What every run keeps even where put-off retries break the order of the tasks. */
  ghost predicate SourceInv(cfg: Config, s: System) {
    && Sourced(cfg, s.stream)
    && (forall w | w in s.inflight :: FlightOk(cfg, s.stream, s.inflight[w]))
    && (forall t | t in s.timers :: TimerSourceOk(cfg, s.stream, t))
  }

  lemma AppendKeepsSourceInv(cfg: Config, s: System, e: Event)
    requires SourceInv(cfg, s) && SourceOk(cfg, s.stream, e)
    ensures SourceInv(cfg, s.(stream := s.stream + [e]))
  {
    SourcedSnoc(cfg, s.stream, e);
    var grown := s.stream + [e];
    assert grown[..|s.stream|] == s.stream;
    forall t | t in s.timers ensures TimerSourceOk(cfg, grown, t) {
      TimerStaysSourced(cfg, grown, |s.stream|, t);
    }
    forall w | w in s.inflight ensures FlightOk(cfg, grown, s.inflight[w]) {
      FlightStaysOk(cfg, grown, |s.stream|, s.inflight[w]);
    }
  }

  lemma RegisterKeepsSourceInv(cfg: Config, s: System, i: nat)
    requires SourceInv(cfg, s) && Enabled(cfg, s, Register(i))
    ensures SourceInv(cfg, Next(cfg, s, Register(i)))
  {
    SourcedAt(cfg, s.stream, i);
    TimerStaysSourced(cfg, s.stream, i, TimerOf(s.stream[i].data.fields).value);
  }

  lemma CommitKeepsSourceInv(cfg: Config, s: System, w: nat, clock: Clock)
    requires cfg.wf != "" && SourceInv(cfg, s) && w in s.inflight
    ensures SourceInv(cfg, Next(cfg, s, Commit(w, clock)))
  {
    var f := s.inflight[w];
    assert FlightOk(cfg, s.stream, f);
    CommitPublishes(cfg, s, w, clock);
    if Decision(cfg, s.stream, f, clock).Publish? {
      DecisionIsSourced(cfg, s.stream, f, clock);
      AppendKeepsSourceInv(cfg, s.(inflight := s.inflight - {w}), Decision(cfg, s.stream, f, clock).event);
    }
  }

  lemma StepKeepsSourceInv(cfg: Config, s: System, step: Step)
    requires cfg.wf != "" && SourceInv(cfg, s)
    ensures SourceInv(cfg, Next(cfg, s, step))
  {
    if Enabled(cfg, s, step) {
      match step {
        case Start(e) => AppendKeepsSourceInv(cfg, s, e);
        case Other(e) => AppendKeepsSourceInv(cfg, s, e);
        case Deliver(_, _, _) => assert s.stream[..|s.stream|] == s.stream;
        case Commit(w, clock) => CommitKeepsSourceInv(cfg, s, w, clock);
        case Abandon(_) =>
        case Execute(i, success, output, error) =>
          AnswerIsSourced(cfg, s.stream, i, success, output, error);
          AppendKeepsSourceInv(cfg, s, AnswerEvent(s.stream[i], success, output, error));
        case Delay(i, fireAt) =>
          RetryIsSourced(cfg, s.stream, i, fireAt);
          AppendKeepsSourceInv(cfg, s, RetryEvent(s.stream[i], fireAt));
        case Register(i) => RegisterKeepsSourceInv(cfg, s, i);
        case Fire(t) =>
          FiredShape(t);
          AppendKeepsSourceInv(cfg, s.(timers := s.timers - {t}), FiredEvent(t));
      }
    }
  }

  lemma {:induction false} SourceInvHolds(cfg: Config, steps: seq<Step>)
    requires cfg.wf != ""
    ensures SourceInv(cfg, After(cfg, steps))
  {
    if steps != [] {
      SourceInvHolds(cfg, Front(steps));
      StepKeepsSourceInv(cfg, After(cfg, Front(steps)), Last(steps));
    }
  }

  /** In every run, put-off retries or not, an execution reported completed has completed as many
      tasks as the list has; if none of them is a retry's name, that is all of them. */
  lemma CompletedMeansEnoughTasks(cfg: Config, steps: seq<Step>, n: nat)
    requires cfg.wf != "" && n < |After(cfg, steps).stream| && After(cfg, steps).stream[n].kind.WorkflowCompleted?
    requires cfg.def.tasks != []
    ensures var stream := After(cfg, steps).stream;
            var done, list := DoneBy(cfg, stream[..n], stream[n].executionId), TaskList(cfg.def);
            && |done| >= |list|
            && ((forall name | name in done :: name in list) ==> forall name | name in list :: name in done)
  {
    SourceInvHolds(cfg, steps);
    var stream := After(cfg, steps).stream;
    SourcedAt(cfg, stream, n);
    FinishedHasEnough(cfg, stream[..n], stream[n].executionId);
  }

  lemma FinishedHasEnough(cfg: Config, stream: seq<Event>, x: string)
    requires x != "" && Finished(cfg, stream, x) && cfg.def.tasks != []
    ensures var done, list := DoneBy(cfg, stream, x), TaskList(cfg.def);
            && |done| >= |list|
            && ((forall name | name in done :: name in list) ==> forall name | name in list :: name in done)
  {
    var n :| 0 <= n <= |stream| && FinishedIn(cfg, stream[..n], x);
    StreamGrows(cfg, stream, n, x);
    DoneIsDistinct(Successes(History(stream, cfg.wf, x)));
    if forall name | name in DoneBy(cfg, stream, x) :: name in TaskList(cfg.def) {
      NoRoomForOthers(DoneBy(cfg, stream, x), TaskList(cfg.def));
    }
  }

  /** The retries of all tasks but the last have names of tasks. */
  ghost predicate Contained(cfg: Config) {
    forall j | 0 <= j < |TaskList(cfg.def)| - 1 && PutsOff(cfg, TaskList(cfg.def)[j]) ::
      RetryName(TaskList(cfg.def)[j]) in TaskList(cfg.def)
  }

  /** A requested task is in the list. */
  lemma AskedIsListed(cfg: Config, stream: seq<Event>, x: string, name: string) returns (n: nat)
    requires Sourced(cfg, stream) && x != "" && Asked(cfg, stream, x, name)
    ensures n <= |stream| && PickedFrom(cfg, stream[..n], x, name) && name in TaskList(cfg.def)
  {
    var k := AskedAt(cfg, stream, x, name);
    SourcedAt(cfg, stream, k);
    n :| 0 <= n <= k && PickedFrom(cfg, stream[..k][..n], x, name);
    assert stream[..k][..n] == stream[..n];
  }

  lemma {:induction false} DoneNamesTask(cfg: Config, stream: seq<Event>, x: string, name: string)
    requires Sourced(cfg, stream) && x != "" && name in DoneBy(cfg, stream, x)
    ensures NamesTask(cfg, stream, x, name)
  {
    var front, e := Front(stream), Last(stream);
    assert stream == front + [e];
    DoneBySnoc(cfg, front, e, x);
    assert stream[..|front|] == front;
    if name in DoneBy(cfg, front, x) {
      DoneNamesTask(cfg, front, x, name);
    } else {
      SuccessNamesTask(cfg, front, e);
    }
    TurnStays(cfg, stream, |front|, x, name);
  }

  lemma SuccessNamesTask(cfg: Config, stream: seq<Event>, e: Event)
    requires Sourced(cfg, stream) && SourceOk(cfg, stream, e) && IsSuccess(e)
    ensures NamesTask(cfg, stream, e.executionId, TaskName(e.data.fields))
  {
    if e.kind.TaskCompleted? && e.source.ExecutorService? {
      var n := AskedIsListed(cfg, stream, e.executionId, TaskName(e.data.fields));
    }
  }

  /** Where the retries of all tasks but the last have names of tasks, the only name that is not one
      is that of the last task's retry, and then the last task was requested. */
  lemma OtherNameIsLast(cfg: Config, stream: seq<Event>, x: string, name: string)
    requires Contained(cfg) && Sourced(cfg, stream) && x != ""
    requires name in DoneBy(cfg, stream, x) && name !in TaskList(cfg.def)
    ensures name == RetryName(Last(TaskList(cfg.def))) && Asked(cfg, stream, x, Last(TaskList(cfg.def)))
  {
    DoneNamesTask(cfg, stream, x, name);
    var task :| Asked(cfg, stream, x, task) && PutsOff(cfg, task) && name == RetryName(task);
    var n := AskedIsListed(cfg, stream, x, task);
    var j :| 0 <= j < |TaskList(cfg.def)| && TaskList(cfg.def)[j] == task;
  }

  /** Whoever requested the last task had read that all tasks before it were completed. */
  lemma LastIsAskedLast(cfg: Config, stream: seq<Event>, x: string)
    requires Contained(cfg) && Distinct(TaskList(cfg.def)) && Sourced(cfg, stream) && x != ""
    requires Asked(cfg, stream, x, Last(TaskList(cfg.def))) && Last(TaskList(cfg.def)) in DoneBy(cfg, stream, x)
    ensures forall name | name in TaskList(cfg.def) :: name in DoneBy(cfg, stream, x)
  {
    var list := TaskList(cfg.def);
    var n := AskedIsListed(cfg, stream, x, Last(list));
    var read := DoneBy(cfg, stream[..n], x);
    SourcedAt(cfg, stream, n);
    DoneIsDistinct(Successes(History(stream[..n], cfg.wf, x)));
    forall name | name in read ensures name in list {
      if name !in list {
        OtherNameIsLast(cfg, stream[..n], x, name);
      }
    }
    NoRoomForOthers(read + [Last(list)], list);
    StreamGrows(cfg, stream, n, x);
  }

  /** Then an execution that is reported completed has completed all its tasks, in every run. */
  lemma {:induction false} CompletedMeansListed(cfg: Config, steps: seq<Step>, n: nat)
    requires cfg.wf != "" && Contained(cfg) && Distinct(TaskList(cfg.def)) && cfg.def.tasks != []
    requires n < |After(cfg, steps).stream| && After(cfg, steps).stream[n].kind.WorkflowCompleted?
    ensures var stream := After(cfg, steps).stream;
            forall name | name in TaskList(cfg.def) :: name in DoneBy(cfg, stream[..n], stream[n].executionId)
  {
    SourceInvHolds(cfg, steps);
    var stream := After(cfg, steps).stream;
    SourcedAt(cfg, stream, n);
    FinishedIsListed(cfg, stream[..n], stream[n].executionId);
  }

  lemma FinishedIsListed(cfg: Config, stream: seq<Event>, x: string)
    requires Contained(cfg) && Distinct(TaskList(cfg.def)) && cfg.def.tasks != []
    requires Sourced(cfg, stream) && x != "" && Finished(cfg, stream, x)
    ensures forall name | name in TaskList(cfg.def) :: name in DoneBy(cfg, stream, x)
  {
    var n :| 0 <= n <= |stream| && FinishedIn(cfg, stream[..n], x);
    SourcedAt(cfg, stream, n);
    FinishedReadIsListed(cfg, stream[..n], x);
    StreamGrows(cfg, stream, n, x);
  }

  lemma FinishedReadIsListed(cfg: Config, read: seq<Event>, x: string)
    requires Contained(cfg) && Distinct(TaskList(cfg.def)) && cfg.def.tasks != []
    requires Sourced(cfg, read) && x != "" && FinishedIn(cfg, read, x)
    ensures forall name | name in TaskList(cfg.def) :: name in DoneBy(cfg, read, x)
  {
    var list, done := TaskList(cfg.def), DoneBy(cfg, read, x);
    DoneIsDistinct(Successes(History(read, cfg.wf, x)));
    if extra :| extra in done && extra !in list {
      OtherNameIsLast(cfg, read, x, extra);
      LastIsAskedLast(cfg, read, x);
    } else {
      NoRoomForOthers(done, list);
    }
  }

  /** As many different names as a list has places, all from the list, are all its names. */
  lemma NoRoomForOthers(done: seq<string>, list: seq<string>)
    requires Distinct(done) && |done| >= |list| && forall name | name in done :: name in list
    ensures forall name | name in list :: name in done
  {
    var names, places := set n | n in done, set n | n in list;
    DistinctCount(done);
    PlacesCount(list);
    assert names <= places;
    SubsetOfSize(names, places);
    forall name | name in list ensures name in done {
      assert name in names;
    }
  }

  lemma {:induction false} PlacesCount(list: seq<string>)
    ensures |set n | n in list| <= |list|
  {
    if list != [] {
      PlacesCount(Front(list));
      assert list == Front(list) + [Last(list)];
      assert (set n | n in list) == (set n | n in Front(list)) + {Last(list)};
    }
  }

  lemma SubsetOfSize(small: set<string>, large: set<string>)
    requires small <= large && |small| >= |large|
    ensures small == large
  {
    if x :| x in large && x !in small {
      assert small <= large - {x};
      SubsetSize(small, large - {x});
    }
  }

  lemma {:induction false} SubsetSize(small: set<string>, large: set<string>)
    requires small <= large
    ensures |small| <= |large|
  {
    if x :| x in small {
      SubsetSize(small - {x}, large - {x});
    }
  }

  // --- Requests under the lock --------------------------------------------------------

  /** With the lock there is one flight at most, it has seen every request, and no task was
      requested twice. */
  ghost predicate LockInv(cfg: Config, s: System) {
    && SourceInv(cfg, s)
    && (forall v, w | v in s.inflight && w in s.inflight :: v == w)
    && (forall w, x, name | w in s.inflight && x != "" ::
          Requested(cfg, s.stream, x, name) == Requested(cfg, s.stream[..s.inflight[w].seen], x, name))
    && (forall x, name | x != "" :: Requested(cfg, s.stream, x, name) <= 1)
  }

  lemma QuietAppendKeepsLockInv(cfg: Config, s: System, e: Event)
    requires LockInv(cfg, s) && !IsRequest(e) && SourceOk(cfg, s.stream, e)
    ensures LockInv(cfg, s.(stream := s.stream + [e]))
  {
    AppendKeepsSourceInv(cfg, s, e);
    var grown := s.stream + [e];
    forall x, name | x != "" ensures Requested(cfg, grown, x, name) == Requested(cfg, s.stream, x, name) {
      RequestedSnoc(cfg, s.stream, e, x, name);
    }
    forall w | w in s.inflight ensures grown[..s.inflight[w].seen] == s.stream[..s.inflight[w].seen] {
      assert FlightOk(cfg, s.stream, s.inflight[w]);
    }
  }

  /** A worker requests only tasks that were not asked for in what it read. */
  lemma DecisionRequestsNewTask(cfg: Config, stream: seq<Event>, f: Flight, clock: Clock)
    requires cfg.wf != "" && Sourced(cfg, stream) && FlightOk(cfg, stream, f)
    requires Decision(cfg, stream, f, clock).Publish? && IsRequest(Decision(cfg, stream, f, clock).event)
    ensures var e := Decision(cfg, stream, f, clock).event;
            !Asked(cfg, stream[..f.seen], e.executionId, RequestedName(e.data.fields))
            && e.executionId == stream[f.index].executionId && e.executionId != ""
  {
    var taken, read := stream[f.index], stream[..f.seen];
    DecidedState(cfg, stream, f);
    TakenEventIsKnown(cfg, stream, f);
    var s := Decided(cfg.def, Read(read, cfg.wf, taken.executionId, f.tenants), taken);
    RequestComesFromNext(cfg.def, s, clock);
    RequestShape(cfg.def, s, NextTask(cfg.def, s).value, clock);
  }

  lemma RequestComesFromNext(def: Definition, s: State, clock: Clock)
    requires NextStep(def, s, clock).Publish? && IsRequest(NextStep(def, s, clock).event)
    ensures NextTask(def, s).Some?
    ensures NextStep(def, s, clock).event == RequestEvent(def, s, NextTask(def, s).value, clock)
  {
  }

  lemma CommitKeepsLockInv(cfg: Config, s: System, w: nat, clock: Clock)
    requires cfg.wf != "" && LockInv(cfg, s) && w in s.inflight
    ensures LockInv(cfg, Next(cfg, s, Commit(w, clock)))
  {
    CommitKeepsSourceInv(cfg, s, w, clock);
    var f := s.inflight[w];
    assert FlightOk(cfg, s.stream, f);
    CommitPublishes(cfg, s, w, clock);
    assert s.inflight - {w} == map[];
    if Decision(cfg, s.stream, f, clock).Publish? {
      var e := Decision(cfg, s.stream, f, clock).event;
      if IsRequest(e) {
        DecisionRequestsNewTask(cfg, s.stream, f, clock);
      }
      forall x, name | x != "" ensures Requested(cfg, s.stream + [e], x, name) <= 1 {
        RequestedSnoc(cfg, s.stream, e, x, name);
      }
    }
  }

  lemma DeliverKeepsLockInv(cfg: Config, s: System, w: nat, i: nat, tenants: seq<string>)
    requires cfg.locked && LockInv(cfg, s) && Enabled(cfg, s, Deliver(w, i, tenants))
    ensures LockInv(cfg, Next(cfg, s, Deliver(w, i, tenants)))
  {
    assert s.stream[..|s.stream|] == s.stream;
  }

  lemma StepKeepsLockInv(cfg: Config, s: System, step: Step)
    requires cfg.wf != "" && cfg.locked && LockInv(cfg, s)
    ensures LockInv(cfg, Next(cfg, s, step))
  {
    if Enabled(cfg, s, step) {
      match step {
        case Start(e) => QuietAppendKeepsLockInv(cfg, s, e);
        case Other(e) => QuietAppendKeepsLockInv(cfg, s, e);
        case Deliver(w, i, tenants) => DeliverKeepsLockInv(cfg, s, w, i, tenants);
        case Commit(w, clock) => CommitKeepsLockInv(cfg, s, w, clock);
        case Abandon(_) =>
        case Execute(i, success, output, error) =>
          AnswerIsSourced(cfg, s.stream, i, success, output, error);
          QuietAppendKeepsLockInv(cfg, s, AnswerEvent(s.stream[i], success, output, error));
        case Delay(i, fireAt) =>
          RetryIsSourced(cfg, s.stream, i, fireAt);
          QuietAppendKeepsLockInv(cfg, s, RetryEvent(s.stream[i], fireAt));
        case Register(i) => RegisterKeepsSourceInv(cfg, s, i);
        case Fire(t) =>
          FiredShape(t);
          QuietAppendKeepsLockInv(cfg, s.(timers := s.timers - {t}), FiredEvent(t));
      }
    }
  }

  lemma {:induction false} LockInvHolds(cfg: Config, steps: seq<Step>)
    requires cfg.wf != "" && cfg.locked
    ensures LockInv(cfg, After(cfg, steps))
  {
    if steps != [] {
      LockInvHolds(cfg, Front(steps));
      StepKeepsLockInv(cfg, After(cfg, Front(steps)), Last(steps));
    }
  }

  /** Workers that share the workflow's lock request each task at most once per execution, put-off
      retries or not. */
  lemma {:induction false} AtMostOneRequest(cfg: Config, steps: seq<Step>, x: string, name: string)
    requires cfg.wf != "" && cfg.locked && x != ""
    ensures Requested(cfg, After(cfg, steps).stream, x, name) <= 1
  {
    LockInvHolds(cfg, steps);
  }

  // --- Completion under the lock ------------------------------------------------------

  /** If the n-th event reports its execution completed, every task that was requested before has
      succeeded before. */
  ghost predicate SettledAt(cfg: Config, stream: seq<Event>, n: nat)
    requires n < |stream|
  {
    stream[n].kind.WorkflowCompleted? ==> NoneOpen(cfg, stream[..n], stream[n].executionId)
  }

  ghost predicate Settled(cfg: Config, stream: seq<Event>) {
    forall n | 0 <= n < |stream| :: SettledAt(cfg, stream, n)
  }

  lemma AppendKeepsSettled(cfg: Config, stream: seq<Event>, e: Event)
    requires Settled(cfg, stream) && (e.kind.WorkflowCompleted? ==> NoneOpen(cfg, stream, e.executionId))
    ensures Settled(cfg, stream + [e])
  {
    var grown := stream + [e];
    forall n | 0 <= n < |grown| ensures SettledAt(cfg, grown, n) {
      if n < |stream| {
        assert SettledAt(cfg, stream, n) && grown[..n] == stream[..n];
      } else {
        assert grown[..n] == stream;
      }
    }
  }

  /** A worker that holds the lock has read all requests. */
  lemma ReportedIsSettled(cfg: Config, s: System, w: nat, clock: Clock)
    requires cfg.wf != "" && LockInv(cfg, s) && w in s.inflight && FlightOk(cfg, s.stream, s.inflight[w])
    requires ReportsCompletion(Decision(cfg, s.stream, s.inflight[w], clock))
    ensures NoneOpen(cfg, s.stream, Decision(cfg, s.stream, s.inflight[w], clock).event.executionId)
  {
    var f := s.inflight[w];
    var x := s.stream[f.index].executionId;
    TakenEventIsKnown(cfg, s.stream, f);
    DecidedState(cfg, s.stream, f);
    StepsStayInExecution(
      cfg.def, Decided(cfg.def, Read(s.stream[..f.seen], cfg.wf, x, f.tenants), s.stream[f.index]), clock);
    StreamGrows(cfg, s.stream, f.seen, x);
    forall name | Asked(cfg, s.stream, x, name) ensures name in DoneBy(cfg, s.stream, x) {
      assert Asked(cfg, s.stream[..f.seen], x, name);
      if name !in DoneBy(cfg, s.stream[..f.seen], x) {
        OpenIsPending(cfg, s.stream, f, clock, name);
      }
    }
  }

  lemma CommitKeepsSettled(cfg: Config, s: System, w: nat, clock: Clock)
    requires cfg.wf != "" && LockInv(cfg, s) && w in s.inflight && Settled(cfg, s.stream)
    ensures Settled(cfg, Next(cfg, s, Commit(w, clock)).stream)
  {
    assert FlightOk(cfg, s.stream, s.inflight[w]);
    CommitPublishes(cfg, s, w, clock);
    var outcome := Decision(cfg, s.stream, s.inflight[w], clock);
    if outcome.Publish? {
      if ReportsCompletion(outcome) {
        ReportedIsSettled(cfg, s, w, clock);
      }
      AppendKeepsSettled(cfg, s.stream, outcome.event);
    }
  }

  lemma {:induction false} SettledHolds(cfg: Config, steps: seq<Step>)
    requires cfg.wf != "" && cfg.locked
    ensures Settled(cfg, After(cfg, steps).stream)
  {
    if steps != [] {
      SettledHolds(cfg, Front(steps));
      var s, step := After(cfg, Front(steps)), Last(steps);
      LockInvHolds(cfg, Front(steps));
      if step.Commit? && step.worker in s.inflight {
        CommitKeepsSettled(cfg, s, step.worker, step.clock);
      } else {
        OthersReportNothing(cfg, s, step);
        if Next(cfg, s, step).stream != s.stream {
          AppendKeepsSettled(cfg, s.stream, Last(Next(cfg, s, step).stream));
        }
      }
    }
  }

  /** Only workers report completion. */
  lemma OthersReportNothing(cfg: Config, s: System, step: Step)
    requires !(step.Commit? && step.worker in s.inflight)
    ensures var stream := Next(cfg, s, step).stream;
            stream == s.stream
            || (stream != [] && stream == s.stream + [Last(stream)] && !Last(stream).kind.WorkflowCompleted?)
  {
  }

  /** At the moment at which an execution is reported completed, no task of it has failed without a
      success: with the lock in every configuration, and without it where no put-off retry
      displaces a task, or where all of them but the last task's have names of tasks. */
  lemma {:induction false} FailureIsNotReportedOver(cfg: Config, steps: seq<Step>, n: nat, name: string)
    requires cfg.wf != ""
    requires cfg.locked || InStep(cfg) || (Contained(cfg) && Distinct(TaskList(cfg.def)) && cfg.def.tasks != [])
    requires n < |After(cfg, steps).stream| && After(cfg, steps).stream[n].kind.WorkflowCompleted?
    requires var stream := After(cfg, steps).stream;
             Asked(cfg, stream[..n], stream[n].executionId, name)
             || HasFailed(History(stream[..n], cfg.wf, stream[n].executionId), name)
    ensures name in DoneBy(cfg, After(cfg, steps).stream[..n], After(cfg, steps).stream[n].executionId)
  {
    SourceInvHolds(cfg, steps);
    var stream := After(cfg, steps).stream;
    var x := stream[n].executionId;
    SourcedAt(cfg, stream, n);
    if HasFailed(History(stream[..n], cfg.wf, x), name) {
      FailedWasAsked(cfg, stream[..n], x, name);
    }
    if cfg.locked {
      SettledHolds(cfg, steps);
      assert SettledAt(cfg, stream, n);
    } else {
      var k := AskedIsListed(cfg, stream[..n], x, name);
      if InStep(cfg) {
        CompletedMeansAllTasks(cfg, steps, n);
      } else {
        CompletedMeansListed(cfg, steps, n);
      }
    }
  }

  // --- Applying the taken event again -------------------------------------------------

  /** What is left outstanding of a task in the tenant's stream. */
  function OwnOutstanding(cfg: Config, stream: seq<Event>, x: string, name: string): nat {
    Outstanding(ByTenant(History(stream, cfg.wf, x), Own(cfg)), name)
  }

  lemma OwnOutstandingSnoc(cfg: Config, stream: seq<Event>, e: Event, x: string, name: string)
    requires x != ""
    ensures var before := OwnOutstanding(cfg, stream, x, name);
            OwnOutstanding(cfg, stream + [e], x, name) ==
            if e.workflowId != cfg.wf || e.executionId != x || !OfTenant(cfg, e.tenantId) then before
            else if Requests(e, name) then before + 1
            else if IsSuccess(e) && TaskName(e.data.fields) == name && before > 0 then before - 1
            else before
  {
    var history := History(stream, cfg.wf, x);
    HistorySnoc(stream, e, cfg.wf, x);
    if e.workflowId == cfg.wf && e.executionId == x {
      var mine := ByTenant(history, Own(cfg));
      ByTenantSnoc(history, e, Own(cfg));
      OutstandingSnoc(mine, e, name);
      assert mine + [] == mine;
    } else {
      assert history + [] == history;
    }
  }

  lemma OwnOutstandingIsBounded(cfg: Config, stream: seq<Event>, x: string, name: string)
    ensures OwnOutstanding(cfg, stream, x, name) <= Requested(cfg, stream, x, name)
  {
    var history := History(stream, cfg.wf, x);
    OutstandingIsBounded(ByTenant(history, Own(cfg)), name);
    RequestsByTenant(history, Own(cfg), name);
  }

  /** When a task was requested at most once, its success leaves nothing of it outstanding. */
  lemma {:induction false} DoneIsNotOutstanding(cfg: Config, stream: seq<Event>, x: string, name: string)
    requires Plain(cfg) && Ordered(cfg, stream) && x != "" && name in DoneBy(cfg, stream, x)
    requires Requested(cfg, stream, x, name) <= 1
    ensures OwnOutstanding(cfg, stream, x, name) == 0
  {
    var front, e := Front(stream), Last(stream);
    assert stream == front + [e];
    DoneBySnoc(cfg, front, e, x);
    RequestedSnoc(cfg, front, e, x, name);
    OwnOutstandingSnoc(cfg, front, e, x, name);
    if name in DoneBy(cfg, front, x) {
      DoneIsNotOutstanding(cfg, front, x, name);
      if e.workflowId == cfg.wf && e.executionId == x && Requests(e, name) {
        DoneWasAsked(cfg, front, x, name);
      }
    } else {
      SuccessIsDue(cfg, front, e);
      if RetryDue(cfg, front, x, name) {
        RetryIsDone(cfg, front, x, name);
      }
      OwnOutstandingIsBounded(cfg, front, x, name);
    }
  }

  /** A completed executor task was asked for. */
  lemma {:induction false} DoneWasAsked(cfg: Config, stream: seq<Event>, x: string, name: string)
    requires Plain(cfg) && Ordered(cfg, stream) && x != "" && name in DoneBy(cfg, stream, x)
    requires RunsInExecutor(cfg.def, name)
    ensures Asked(cfg, stream, x, name)
  {
    var front, e := Front(stream), Last(stream);
    assert stream == front + [e];
    DoneBySnoc(cfg, front, e, x);
    RequestedSnoc(cfg, front, e, x, name);
    if name in DoneBy(cfg, front, x) {
      DoneWasAsked(cfg, front, x, name);
    } else {
      SuccessWasAsked(cfg, front, e);
    }
  }

  lemma SuccessWasAsked(cfg: Config, stream: seq<Event>, e: Event)
    requires Plain(cfg) && Ordered(cfg, stream) && EventOk(cfg, stream, e) && IsSuccess(e)
    requires RunsInExecutor(cfg.def, TaskName(e.data.fields))
    requires TaskName(e.data.fields) !in DoneBy(cfg, stream, e.executionId)
    ensures Asked(cfg, stream, e.executionId, TaskName(e.data.fields))
  {
    if RetryDue(cfg, stream, e.executionId, TaskName(e.data.fields)) {
      RetryIsDone(cfg, stream, e.executionId, TaskName(e.data.fields));
    }
  }

  lemma {:induction false} RequestsByTenant(h: seq<Event>, own: string, name: string)
    ensures RequestCount(ByTenant(h, own), name) <= RequestCount(h, name)
  {
    if h != [] {
      var front, e := Front(h), Last(h);
      RequestsByTenant(front, own, name);
      assert h == front + [e];
      ByTenantSnoc(front, e, own);
      var mine := ByTenant(front, own);
      assert Front(mine + [e]) == mine && mine + [] == mine;
    }
  }

  lemma RequestsOfExecutionAreOwn(cfg: Config, stream: seq<Event>, x: string)
    requires cfg.wf != "" && Sourced(cfg, stream) && x != ""
    ensures RequestsAreOwn(History(stream, cfg.wf, x), Own(cfg))
  {
    HistoryMembers(stream, cfg.wf, x);
    forall e | e in History(stream, cfg.wf, x) && IsRequest(e) ensures StreamKey(e.tenantId) == Own(cfg) {
      var i :| 0 <= i < |stream| && stream[i] == e;
      SourcedAt(cfg, stream, i);
    }
  }

  lemma ReapplyingKeepsPending(cfg: Config, stream: seq<Event>, x: string, tenants: seq<string>, e: Event)
    requires Plain(cfg) && Ordered(cfg, stream) && x != "" && Lists(stream, cfg.wf, tenants)
    requires e in Read(stream, cfg.wf, x, tenants) && Subscribed(e.kind)
    requires forall name :: Requested(cfg, stream, x, name) <= 1
    ensures var before := Rebuilt(cfg.def.id, Read(stream, cfg.wf, x, tenants));
            Apply(before, e).pending == before.pending
  {
    var history, found := History(stream, cfg.wf, x), Read(stream, cfg.wf, x, tenants);
    var before := Rebuilt(cfg.def.id, found);
    if IsSuccess(e) {
      var name := TaskName(e.data.fields);
      OrderedIsSourced(cfg, stream);
      ReadMembers(cfg, stream, x, tenants);
      SuccessIsDone(history, e);
      DoneIsNotOutstanding(cfg, stream, x, name);
      RequestsOfExecutionAreOwn(cfg, stream, x);
      OutstandingInReads(history, tenants, Own(cfg), name);
      PendingIsOutstanding(cfg.def.id, found, name);
      SuccessOfAbsent(before, e);
    } else {
      NoSuccessKeepsPending(before, e);
    }
  }

  lemma SuccessOfAbsent(s: State, e: Event)
    requires IsSuccess(e) && Count(s.pending, TaskName(e.data.fields)) == 0
    ensures Apply(s, e).pending == s.pending
  {
    CountedIsPending(s.pending, TaskName(e.data.fields));
    RemovingAbsent(s.pending, TaskName(e.data.fields));
    assert Apply(s, e) == ApplyCompletion(s, e.data.fields);
  }

  lemma NoSuccessKeepsPending(s: State, e: Event)
    requires Subscribed(e.kind) && !IsSuccess(e)
    ensures Apply(s, e).pending == s.pending
  {
  }

  /** Under the lock, applying the taken event to the replay that already contains it changes
      neither the completed nor the pending list. */
  lemma ReapplyingIsHarmless(cfg: Config, steps: seq<Step>, w: nat)
    requires Plain(cfg) && cfg.locked && w in After(cfg, steps).inflight
    ensures var s := After(cfg, steps);
            var f := s.inflight[w];
            && f.index < |s.stream| && f.seen <= |s.stream|
            && var e := s.stream[f.index];
               var found := Read(s.stream[..f.seen], cfg.wf, e.executionId, f.tenants);
               var before, after := Rebuilt(cfg.def.id, found), Decided(cfg.def, found, e);
               !Skips(e) ==> after.completed == before.completed && after.pending == before.pending
  {
    PlainIsInStep(cfg);
    InvHolds(cfg, steps);
    LockInvHolds(cfg, steps);
    var s := After(cfg, steps);
    var f := s.inflight[w];
    assert FlightOk(cfg, s.stream, f);
    var e := s.stream[f.index];
    if !Skips(e) {
      OrderedIsSourced(cfg, s.stream);
      TakenEventIsKnown(cfg, s.stream, f);
      OrderedAt(cfg, s.stream, f.seen);
      StreamGrows(cfg, s.stream, f.seen, e.executionId);
      ReapplyingKeepsCompleted(cfg.def.id, Read(s.stream[..f.seen], cfg.wf, e.executionId, f.tenants), e);
      forall name ensures Requested(cfg, s.stream[..f.seen], e.executionId, name) <= 1 {
        assert Requested(cfg, s.stream, e.executionId, name) <= 1;
      }
      ReapplyingKeepsPending(cfg, s.stream[..f.seen], e.executionId, f.tenants, e);
    }
  }

  // --- Isolation ----------------------------------------------------------------------

  lemma StartGivesContext(s: State, e: Event)
    requires IsStart(e)
    ensures ExecutionId(Apply(s, e)) == e.executionId
  {
  }

  lemma {:induction false} ContextIsOwn(id: string, history: seq<Event>, x: string)
    requires forall e | e in history :: e.executionId == x
    ensures ExecutionId(Rebuilt(id, history)) == x || ExecutionId(Rebuilt(id, history)) == ""
  {
    if history != [] {
      assert history == Front(history) + [Last(history)];
      ContextIsOwn(id, Front(history), x);
      var s, e := Rebuilt(id, Front(history)), Last(history);
      if IsStart(e) {
        StartGivesContext(s, e);
      } else {
        OnlyStartsGiveContext(s, e);
      }
    }
  }

  /** On any stream at all, processing an event of one execution publishes only events of
      that execution or of none. */
  lemma {:induction false} PublishesForOwnExecution(
    def: Definition, stream: seq<Event>, e: Event, tenants: seq<string>, clock: Clock)
    requires e.executionId != ""
    ensures var outcome := Processed(def, Read(stream, e.workflowId, e.executionId, tenants), e, clock);
            outcome.Publish? ==> outcome.event.executionId == e.executionId || outcome.event.executionId == ""
  {
    var found := Read(stream, e.workflowId, e.executionId, tenants);
    HistoryMembers(stream, e.workflowId, e.executionId);
    GatheredMembers(History(stream, e.workflowId, e.executionId), tenants);
    RebuiltSnoc(def.id, found, e);
    ContextIsOwn(def.id, found + [e], e.executionId);
    StepsStayInExecution(def, Decided(def, found, e), clock);
  }

  lemma StepsStayInExecution(def: Definition, s: State, clock: Clock)
    ensures NextStep(def, s, clock).Publish? ==> NextStep(def, s, clock).event.executionId == ExecutionId(s)
  {
  }

  /** Whatever a worker does for one execution, every other execution of the workflow still
      replays to the same state, from any system state and however its streams are read. */
  lemma ExecutionsDoNotInterfere(cfg: Config, s: System, w: nat, clock: Clock, other: string, tenants: seq<string>)
    requires w in s.inflight && s.inflight[w].index < |s.stream| && s.inflight[w].seen <= |s.stream|
    requires var x := s.stream[s.inflight[w].index].executionId; x != "" && other != x && other != ""
    requires s.stream[s.inflight[w].index].workflowId == cfg.wf
    ensures Rebuilt(cfg.def.id, Read(Next(cfg, s, Commit(w, clock)).stream, cfg.wf, other, tenants))
            == Rebuilt(cfg.def.id, Read(s.stream, cfg.wf, other, tenants))
  {
    var f := s.inflight[w];
    PublishesForOwnExecution(cfg.def, s.stream[..f.seen], s.stream[f.index], f.tenants, clock);
    var outcome := Decision(cfg, s.stream, f, clock);
    if outcome.Publish? {
      HistorySnoc(s.stream, outcome.event, cfg.wf, other);
      assert History(s.stream, cfg.wf, other) + [] == History(s.stream, cfg.wf, other);
    } else {
      assert s.stream + [] == s.stream;
    }
  }
}
