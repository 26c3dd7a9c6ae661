/** Safety of the protocol over all runs. */
module Safety {
  import opened Values
  import opened Replay
  import opened ReplayLaws
  import opened Worker
  import opened Protocol
  import opened Reads
  import opened Progress

  // --- Shapes of published events -----------------------------------------------------

  lemma RequestShape(def: Definition, s: State, name: string, clock: Clock)
    ensures var e := RequestEvent(def, s, name, clock);
            IsRequest(e) && RequestedName(e.data.fields) == name
            && e.workflowId == s.workflowId && e.executionId == ExecutionId(s) && e.tenantId == TenantId(s)
  {
  }

  lemma SetCompletedShape(def: Definition, s: State, name: string, clock: Clock)
    ensures var e := SetCompletedEvent(def, s, name, clock);
            IsSetCompletion(e) && WithoutOutput(e) && TaskName(e.data.fields) == name
            && e.workflowId == s.workflowId && e.executionId == ExecutionId(s) && e.tenantId == TenantId(s)
  {
  }

  lemma ScheduledShape(s: State, name: string, duration: int, clock: Clock)
    ensures var e := ScheduledEvent(s, name, duration, clock);
            e.kind.TimerScheduled? && e.data.Obj? && TimerOf(e.data.fields).Some?
            && e.workflowId == s.workflowId && e.executionId == ExecutionId(s) && e.tenantId == TenantId(s)
            && var t := TimerOf(e.data.fields).value;
               t.taskName == name && t.workflowId == s.workflowId && t.executionId == ExecutionId(s)
               && t.tenantId == TenantId(s)
  {
  }

  lemma FiredShape(t: Timer)
    ensures var e := FiredEvent(t);
            e.kind.TimerFired? && WithoutOutput(e) && TaskName(e.data.fields) == t.taskName
            && e.workflowId == t.workflowId && e.executionId == t.executionId && e.tenantId == t.tenantId
  {
  }

  lemma AnswerShape(request: Event, success: bool, output: Fields, error: string)
    requires IsRequest(request)
    ensures var e := AnswerEvent(request, success, output, error);
            e.kind.TaskCompleted? && e.source.ExecutorService? && IsCompletion(e) && IsSuccess(e) == success
            && e.tenantId == request.tenantId
            && TaskName(e.data.fields) == RequestedName(request.data.fields)
            && (request.workflowId != "" ==> e.workflowId == request.workflowId)
            && (request.executionId != "" ==> e.executionId == request.executionId)
  {
  }

  // --- What the worker decides on -----------------------------------------------------

  /** A flight that some reachable state can hold. */
  predicate FlightOk(cfg: Config, stream: seq<Event>, f: Flight) {
    && f.index < f.seen <= |stream|
    && Subscribed(stream[f.index].kind) && stream[f.index].workflowId == cfg.wf
    && Lists(stream[..f.seen], cfg.wf, f.tenants)
  }

  /** Stream by stream, the worker reads exactly the events of the execution. */
  lemma ReadMembers(cfg: Config, stream: seq<Event>, x: string, tenants: seq<string>)
    requires cfg.wf != "" && x != "" && Lists(stream, cfg.wf, tenants)
    ensures forall e :: e in Read(stream, cfg.wf, x, tenants) <==> e in History(stream, cfg.wf, x)
    ensures forall e :: e in History(stream, cfg.wf, x) <==> e in stream && e.workflowId == cfg.wf && e.executionId == x
  {
    HistoryMembers(stream, cfg.wf, x);
    GatheredMembers(History(stream, cfg.wf, x), tenants);
  }

  lemma TakenEventIsKnown(cfg: Config, stream: seq<Event>, f: Flight)
    requires cfg.wf != "" && Sourced(cfg, stream) && FlightOk(cfg, stream, f) && !Skips(stream[f.index])
    ensures var e, read := stream[f.index], stream[..f.seen];
            e.executionId != "" && Known(cfg, read, e.executionId)
            && e in Read(read, cfg.wf, e.executionId, f.tenants)
  {
    var e, read := stream[f.index], stream[..f.seen];
    SourcedAt(cfg, stream, f.index);
    assert read[f.index] == e && read[..f.index] == stream[..f.index];
    if !IsStart(e) {
      KnownStays(cfg, read, f.index, e.executionId);
    }
    ReadMembers(cfg, read, e.executionId, f.tenants);
  }

  /** The state replays to the tasks that the execution has completed, possibly in another order. */
  ghost predicate CompletedAsBy(cfg: Config, stream: seq<Event>, x: string, s: State) {
    && |s.completed| == |DoneBy(cfg, stream, x)|
    && forall name :: name in CompletedNames(s.completed) <==> name in DoneBy(cfg, stream, x)
  }

  lemma ReplayHasDone(cfg: Config, stream: seq<Event>, x: string, tenants: seq<string>)
    requires cfg.wf != "" && x != "" && Lists(stream, cfg.wf, tenants)
    ensures CompletedAsBy(cfg, stream, x, Rebuilt(cfg.def.id, Read(stream, cfg.wf, x, tenants)))
  {
    var read := Read(stream, cfg.wf, x, tenants);
    ReadMembers(cfg, stream, x, tenants);
    CompletedIsDone(cfg.def.id, read);
    SameEventsSameDone(read, History(stream, cfg.wf, x));
  }

  /** The state on which a worker decides agrees with the completed tasks of the execution, and every
      requested task that is not completed is pending in it. */
  ghost predicate Agrees(cfg: Config, stream: seq<Event>, x: string, s: State) {
    && CompletedAsBy(cfg, stream, x, s)
    && forall name :: Asked(cfg, stream, x, name) && name !in DoneBy(cfg, stream, x) ==> HasPending(s.pending, name)
  }

  /** The state a worker decides on, whatever order it read the streams in: it has completed what
      the execution has, it carries the execution's identity, and whatever was asked for and not
      completed is pending in it. */
  lemma DecidedState(cfg: Config, stream: seq<Event>, f: Flight)
    requires cfg.wf != "" && Sourced(cfg, stream) && FlightOk(cfg, stream, f) && !Skips(stream[f.index])
    ensures var e, read := stream[f.index], stream[..f.seen];
            var s := Decided(cfg.def, Read(read, cfg.wf, e.executionId, f.tenants), e);
            && Agrees(cfg, read, e.executionId, s)
            && ExecutionId(s) == e.executionId && s.workflowId == cfg.wf && OfTenant(cfg, TenantId(s))
  {
    var e, read := stream[f.index], stream[..f.seen];
    var x := e.executionId;
    TakenEventIsKnown(cfg, stream, f);
    ReadMembers(cfg, read, x, f.tenants);
    var found := Read(read, cfg.wf, x, f.tenants);
    var s := Decided(cfg.def, found, e);
    ReplayHasDone(cfg, read, x, f.tenants);
    CompletedIsDone(cfg.def.id, found);
    ReapplyingKeepsCompleted(cfg.def.id, found, e);
    var i :| 0 <= i < |read| && IsStart(read[i]) && read[i].executionId == x && read[i].workflowId == cfg.wf;
    assert read[i] in found;
    forall e | e in found && IsStart(e) ensures OfTenant(cfg, e.tenantId) {
      StartsAreOwn(cfg, stream, e);
    }
    DecidedIdentity(cfg, found, e, read[i], x);
    forall name | Asked(cfg, read, x, name) && name !in DoneBy(cfg, read, x)
      ensures HasPending(s.pending, name)
    {
      AskedIsRead(cfg, read, x, f.tenants, name);
      AskedIsPending(cfg.def, found, e, name);
    }
  }

  lemma StartsAreOwn(cfg: Config, stream: seq<Event>, e: Event)
    requires Sourced(cfg, stream) && e in stream && IsStart(e)
    ensures OfTenant(cfg, e.tenantId)
  {
    var i :| 0 <= i < |stream| && stream[i] == e;
    SourcedAt(cfg, stream, i);
  }

  lemma AskedIsRead(cfg: Config, stream: seq<Event>, x: string, tenants: seq<string>, name: string)
    requires cfg.wf != "" && x != "" && Lists(stream, cfg.wf, tenants)
    ensures Asked(cfg, stream, x, name) <==> RequestCount(Read(stream, cfg.wf, x, tenants), name) > 0
  {
    var h, g := History(stream, cfg.wf, x), Read(stream, cfg.wf, x, tenants);
    ReadMembers(cfg, stream, x, tenants);
    OutstandingIsBounded(h, name);
    OutstandingIsBounded(g, name);
    if i :| 0 <= i < |h| && Requests(h[i], name) {
      SameEvent(h, g, i);
    }
    if i :| 0 <= i < |g| && Requests(g[i], name) {
      SameEvent(g, h, i);
    }
  }

  lemma SameEvent(h: seq<Event>, g: seq<Event>, i: nat)
    requires i < |h| && forall e | e in h :: e in g
    ensures exists k :: 0 <= k < |g| && g[k] == h[i]
  {
    assert h[i] in g;
  }

  lemma DecidedIdentity(cfg: Config, history: seq<Event>, e: Event, start: Event, x: string)
    requires cfg.wf != "" && x != "" && e in history && start in history && IsStart(start)
    requires forall e | e in history :: e.workflowId == cfg.wf && e.executionId == x
    requires forall e | e in history && IsStart(e) :: OfTenant(cfg, e.tenantId)
    ensures var s := Decided(cfg.def, history, e);
            ExecutionId(s) == x && s.workflowId == cfg.wf && OfTenant(cfg, TenantId(s))
  {
    RebuiltSnoc(cfg.def.id, history, e);
    assert start in history + [e];
    ContextComesFromStart(cfg.def.id, history + [e], cfg.wf, x);
    TenantComesFromStart(cfg.def.id, history + [e]);
  }

  lemma DoneAgain(history: seq<Event>, e: Event)
    requires e in history
    ensures Done(history + [e]) == Done(history)
  {
    DoneSnoc(history, e);
    if IsSuccess(e) {
      SuccessIsDone(history, e);
    }
  }

  lemma AskedIsPending(def: Definition, history: seq<Event>, e: Event, name: string)
    requires e in history && RequestCount(history, name) > 0 && name !in Done(history)
    ensures HasPending(Decided(def, history, e).pending, name)
  {
    DoneAgain(history, e);
    RebuiltSnoc(def.id, history, e);
    OutstandingIsBounded(history, name);
    var i :| 0 <= i < |history| && Requests(history[i], name);
    assert history[i] in history + [e];
    RequestedStaysVisible(history + [e], history[i], name);
    PendingIsOutstanding(def.id, history + [e], name);
    CountedIsPending(Rebuilt(def.id, history + [e]).pending, name);
  }

  /** The fallback tasks have different names. */
  lemma FallbackIsDistinct()
    ensures Distinct(FALLBACK_TASKS)
  {
    var list := FALLBACK_TASKS;
    assert list[2][0] != list[3][0];
  }

  /** While the first open task was requested, the worker neither starts a task nor reports
      the execution completed. */
  lemma OpenTaskBlocks(cfg: Config, stream: seq<Event>, x: string, s: State, clock: Clock)
    requires Shaped(cfg, stream, x) && Agrees(cfg, stream, x, s) && InStep(cfg)
    requires var list, k := TaskList(cfg.def), Fill(cfg, stream, x);
             k < |list| && list[k] !in DoneBy(cfg, stream, x) && Asked(cfg, stream, x, list[k])
    ensures NextStep(cfg.def, s, clock) == Quiet
  {
    var list, k := TaskList(cfg.def), Fill(cfg, stream, x);
    assert HasPending(s.pending, list[k]);
  }

  /** The task that a worker starts is the first open one. */
  lemma StartsFirstOpen(cfg: Config, stream: seq<Event>, x: string, s: State)
    requires InStep(cfg) && Shaped(cfg, stream, x) && Agrees(cfg, stream, x, s) && NextTask(cfg.def, s).Some?
    ensures var list, k := TaskList(cfg.def), Fill(cfg, stream, x);
            k < |list| && list[k] !in DoneBy(cfg, stream, x) && NextTask(cfg.def, s) == Some(list[k])
  {
  }

  /** A worker reports an execution completed only when all its tasks are. */
  lemma CompletionIsWhole(cfg: Config, stream: seq<Event>, x: string, s: State)
    requires InStep(cfg) && Shaped(cfg, stream, x) && Agrees(cfg, stream, x, s)
    requires NextTask(cfg.def, s).None? && s.pending == [] && |s.completed| >= |cfg.def.tasks|
    ensures AllDone(cfg, stream, x)
  {
    var list, k := TaskList(cfg.def), Fill(cfg, stream, x);
    FallbackIsDistinct();
    if k == |list| {
      assert list[..k] == list;
    }
  }

  /** Whatever a worker publishes is for the execution of the event it took, and about the task that
      it picked from what it read. */
  lemma {:induction false} DecisionIsSourced(cfg: Config, stream: seq<Event>, f: Flight, clock: Clock)
    requires cfg.wf != "" && Sourced(cfg, stream) && FlightOk(cfg, stream, f)
    requires Decision(cfg, stream, f, clock).Publish?
    ensures SourceOk(cfg, stream, Decision(cfg, stream, f, clock).event)
  {
    var e, read := stream[f.index], stream[..f.seen];
    TakenEventIsKnown(cfg, stream, f);
    DecidedState(cfg, stream, f);
    KnownStays(cfg, stream, f.seen, e.executionId);
    var s := Decided(cfg.def, Read(read, cfg.wf, e.executionId, f.tenants), e);
    match NextTask(cfg.def, s) {
      case Some(name) =>
        PickIsPicked(cfg, stream, f.seen, e.executionId, s);
        StartIsSourced(cfg, stream, s, e.executionId, name, clock);
      case None => FinishIsFinished(cfg, stream, f.seen, e.executionId, s);
    }
  }

  lemma PickIsPicked(cfg: Config, stream: seq<Event>, n: nat, x: string, s: State)
    requires n <= |stream| && Agrees(cfg, stream[..n], x, s) && NextTask(cfg.def, s).Some?
    ensures Picked(cfg, stream, x, NextTask(cfg.def, s).value)
    ensures NextTask(cfg.def, s).value in TaskList(cfg.def)
  {
    assert PickedFrom(cfg, stream[..n], x, NextTask(cfg.def, s).value);
  }

  lemma FinishIsFinished(cfg: Config, stream: seq<Event>, n: nat, x: string, s: State)
    requires n <= |stream| && Agrees(cfg, stream[..n], x, s) && s.pending == [] && |s.completed| >= |cfg.def.tasks|
    ensures Finished(cfg, stream, x)
  {
    assert FinishedIn(cfg, stream[..n], x);
  }

  lemma StartIsSourced(cfg: Config, stream: seq<Event>, s: State, x: string, name: string, clock: Clock)
    requires s.workflowId == cfg.wf && ExecutionId(s) == x && OfTenant(cfg, TenantId(s)) && Known(cfg, stream, x)
    requires Picked(cfg, stream, x, name) && name in TaskList(cfg.def)
    ensures var outcome := StartTask(cfg.def, s, name, clock);
            outcome.Publish? ==> SourceOk(cfg, stream, outcome.event)
  {
    match TaskType(cfg.def, name) {
      case "set" => SetCompletedShape(cfg.def, s, name, clock);
      case "wait" =>
        var text := StrAt(TaskInput(cfg.def, s, name, clock), "duration").GetOr("");
        var duration := cfg.def.parseDuration(text);
        if duration.Some? {
          ScheduledShape(s, name, duration.value, clock);
        }
      case _ => RequestShape(cfg.def, s, name, clock);
    }
  }

  /** Whatever a worker publishes fits the stream it is appended to, however much the stream
      grew since the worker read it. */
  lemma {:induction false} DecisionIsOk(cfg: Config, stream: seq<Event>, f: Flight, clock: Clock)
    requires InStep(cfg) && Ordered(cfg, stream) && FlightOk(cfg, stream, f)
    ensures var outcome := Decision(cfg, stream, f, clock);
            outcome.Publish? ==> EventOk(cfg, stream, outcome.event)
  {
    var e, read := stream[f.index], stream[..f.seen];
    if Skips(e) {
      return;
    }
    var x := e.executionId;
    OrderedIsSourced(cfg, stream);
    TakenEventIsKnown(cfg, stream, f);
    DecidedState(cfg, stream, f);
    OrderedAt(cfg, stream, f.seen);
    DoneIsShaped(cfg, read, x);
    var s := Decided(cfg.def, Read(read, cfg.wf, x, f.tenants), e);
    if Decision(cfg, stream, f, clock).Publish? {
      DecisionIsSourced(cfg, stream, f, clock);
      StepIsOk(cfg, stream, f.seen, x, s, clock);
    }
  }

  lemma StepIsOk(cfg: Config, stream: seq<Event>, n: nat, x: string, s: State, clock: Clock)
    requires InStep(cfg) && x != "" && n <= |stream| && Ordered(cfg, stream[..n])
    requires Shaped(cfg, stream[..n], x) && Agrees(cfg, stream[..n], x, s)
    requires ExecutionId(s) == x && s.workflowId == cfg.wf && OfTenant(cfg, TenantId(s))
    requires var outcome := NextStep(cfg.def, s, clock); outcome.Publish? && SourceOk(cfg, stream, outcome.event)
    ensures EventOk(cfg, stream, NextStep(cfg.def, s, clock).event)
  {
    match NextTask(cfg.def, s) {
      case Some(name) =>
        StartsFirstOpen(cfg, stream[..n], x, s);
        NextIsReady(cfg, stream[..n], x);
        assert InTurn(cfg, stream[..n], x, name);
        TurnStays(cfg, stream, n, x, name);
        StartedTaskIsOk(cfg, stream, s, x, name, clock);
      case None =>
        CompletionIsWhole(cfg, stream[..n], x, s);
        StreamGrows(cfg, stream, n, x);
    }
  }

  /** Starting a task in turn publishes an event that fits the stream. */
  lemma StartedTaskIsOk(cfg: Config, stream: seq<Event>, s: State, x: string, name: string, clock: Clock)
    requires s.workflowId == cfg.wf && ExecutionId(s) == x && OfTenant(cfg, TenantId(s))
    requires InTurn(cfg, stream, x, name)
    requires var outcome := StartTask(cfg.def, s, name, clock);
             outcome.Publish? ==> SourceOk(cfg, stream, outcome.event)
    ensures var outcome := StartTask(cfg.def, s, name, clock);
            outcome.Publish? ==> EventOk(cfg, stream, outcome.event)
  {
    StartFailsIff(cfg.def, s, name, clock);
    match TaskType(cfg.def, name) {
      case "set" => SetCompletedShape(cfg.def, s, name, clock);
      case "wait" =>
        var text := StrAt(TaskInput(cfg.def, s, name, clock), "duration").GetOr("");
        var duration := cfg.def.parseDuration(text);
        if duration.Some? {
          ScheduledShape(s, name, duration.value, clock);
        }
      case _ => RequestShape(cfg.def, s, name, clock);
    }
  }

  // --- The invariant of all runs ------------------------------------------------------

  ghost predicate Inv(cfg: Config, s: System) {
    && Ordered(cfg, s.stream)
    && (forall w | w in s.inflight :: FlightOk(cfg, s.stream, s.inflight[w]))
    && (forall t | t in s.timers :: TimerOk(cfg, s.stream, t))
  }

  /** A request in the stream was asked for. */
  lemma RequestIsAsked(cfg: Config, stream: seq<Event>, i: nat)
    requires cfg.wf != "" && i < |stream| && IsRequest(stream[i]) && stream[i].workflowId == cfg.wf
    requires stream[i].executionId != ""
    ensures Asked(cfg, stream, stream[i].executionId, RequestedName(stream[i].data.fields))
  {
    var history := History(stream, cfg.wf, stream[i].executionId);
    HistoryMembers(stream, cfg.wf, stream[i].executionId);
    assert stream[i] in history;
    var k :| 0 <= k < |history| && history[k] == stream[i];
    OutstandingIsBounded(history, RequestedName(stream[i].data.fields));
    assert Requests(history[k], RequestedName(stream[i].data.fields));
  }

  lemma RequestIsDue(cfg: Config, stream: seq<Event>, i: nat)
    requires cfg.wf != "" && Sourced(cfg, stream) && i < |stream| && IsRequest(stream[i])
    requires PutsOff(cfg, RequestedName(stream[i].data.fields))
    ensures BelongsTo(cfg, stream, stream[i])
    ensures RetryDue(cfg, stream, stream[i].executionId, RetryName(RequestedName(stream[i].data.fields)))
  {
    SourcedAt(cfg, stream, i);
    KnownStays(cfg, stream, i, stream[i].executionId);
    RequestIsAsked(cfg, stream, i);
  }

  lemma RetryIsSourced(cfg: Config, stream: seq<Event>, i: nat, fireAt: real)
    requires cfg.wf != "" && Sourced(cfg, stream) && i < |stream| && IsRequest(stream[i])
    requires PutsOff(cfg, RequestedName(stream[i].data.fields))
    ensures SourceOk(cfg, stream, RetryEvent(stream[i], fireAt))
  {
    RequestIsDue(cfg, stream, i);
    RetryShape(stream[i], fireAt);
  }

  lemma RetryIsOk(cfg: Config, stream: seq<Event>, i: nat, fireAt: real)
    requires cfg.wf != "" && Ordered(cfg, stream) && i < |stream| && IsRequest(stream[i])
    requires PutsOff(cfg, RequestedName(stream[i].data.fields))
    ensures EventOk(cfg, stream, RetryEvent(stream[i], fireAt))
  {
    OrderedIsSourced(cfg, stream);
    RequestIsDue(cfg, stream, i);
    RetryIsSourced(cfg, stream, i, fireAt);
    RetryShape(stream[i], fireAt);
  }

  lemma RetryShape(request: Event, fireAt: real)
    requires IsRequest(request)
    ensures var e := RetryEvent(request, fireAt);
            e.kind.TimerScheduled? && e.data.Obj? && TimerOf(e.data.fields).Some?
            && var t := TimerOf(e.data.fields).value;
               t.taskName == RetryName(RequestedName(request.data.fields)) && t.tenantId == e.tenantId == ""
               && t.fireAt == fireAt
               && t.workflowId == e.workflowId == request.workflowId
               && t.executionId == e.executionId == request.executionId
  {
  }

  lemma AppendKeepsInv(cfg: Config, s: System, e: Event)
    requires Inv(cfg, s) && EventOk(cfg, s.stream, e)
    ensures Inv(cfg, s.(stream := s.stream + [e]))
  {
    OrderedSnoc(cfg, s.stream, e);
    var grown := s.stream + [e];
    assert grown[..|s.stream|] == s.stream;
    forall w | w in s.inflight ensures FlightOk(cfg, grown, s.inflight[w]) {
      FlightStaysOk(cfg, grown, |s.stream|, s.inflight[w]);
    }
    forall t | t in s.timers ensures TimerOk(cfg, grown, t) {
      TimerStaysOk(cfg, grown, |s.stream|, t);
    }
  }

  lemma AnswerIsSourced(cfg: Config, stream: seq<Event>, i: nat, success: bool, output: Fields, error: string)
    requires cfg.wf != "" && Sourced(cfg, stream) && i < |stream| && IsRequest(stream[i])
    ensures SourceOk(cfg, stream, AnswerEvent(stream[i], success, output, error))
  {
    SourcedAt(cfg, stream, i);
    KnownStays(cfg, stream, i, stream[i].executionId);
    RequestIsAsked(cfg, stream, i);
    AnswerShape(stream[i], success, output, error);
  }

  lemma AnswerIsOk(cfg: Config, stream: seq<Event>, i: nat, success: bool, output: Fields, error: string)
    requires cfg.wf != "" && Ordered(cfg, stream) && i < |stream| && IsRequest(stream[i])
    ensures EventOk(cfg, stream, AnswerEvent(stream[i], success, output, error))
  {
    OrderedIsSourced(cfg, stream);
    AnswerIsSourced(cfg, stream, i, success, output, error);
    AnswerShape(stream[i], success, output, error);
  }

  lemma FiredIsOk(cfg: Config, stream: seq<Event>, t: Timer)
    requires TimerOk(cfg, stream, t)
    ensures EventOk(cfg, stream, FiredEvent(t))
  {
    FiredShape(t);
  }

  lemma RegisterKeepsInv(cfg: Config, s: System, i: nat)
    requires Inv(cfg, s) && Enabled(cfg, s, Register(i))
    ensures Inv(cfg, Next(cfg, s, Register(i)))
  {
    var t := TimerOf(s.stream[i].data.fields).value;
    OrderedAt(cfg, s.stream, i);
    assert TimerOk(cfg, s.stream[..i], t);
    TimerStaysOk(cfg, s.stream, i, t);
  }

  lemma TimerStaysOk(cfg: Config, stream: seq<Event>, n: nat, t: Timer)
    requires n <= |stream| && TimerOk(cfg, stream[..n], t)
    ensures TimerOk(cfg, stream, t)
  {
    TimerStaysSourced(cfg, stream, n, t);
    TurnStays(cfg, stream, n, t.executionId, t.taskName);
  }

  lemma TimerStaysSourced(cfg: Config, stream: seq<Event>, n: nat, t: Timer)
    requires n <= |stream| && TimerSourceOk(cfg, stream[..n], t)
    ensures TimerSourceOk(cfg, stream, t)
  {
    KnownStays(cfg, stream, n, t.executionId);
    TurnStays(cfg, stream, n, t.executionId, t.taskName);
  }

  lemma FlightStaysOk(cfg: Config, stream: seq<Event>, n: nat, f: Flight)
    requires n <= |stream| && FlightOk(cfg, stream[..n], f)
    ensures FlightOk(cfg, stream, f)
  {
    assert stream[..n][..f.seen] == stream[..f.seen];
  }

  lemma CommitKeepsInv(cfg: Config, s: System, w: nat, clock: Clock)
    requires InStep(cfg) && Inv(cfg, s) && w in s.inflight
    ensures Inv(cfg, Next(cfg, s, Commit(w, clock)))
  {
    assert FlightOk(cfg, s.stream, s.inflight[w]);
    CommitPublishes(cfg, s, w, clock);
    if Decision(cfg, s.stream, s.inflight[w], clock).Publish? {
      DecisionIsOk(cfg, s.stream, s.inflight[w], clock);
      AppendKeepsInv(cfg, s.(inflight := s.inflight - {w}), Decision(cfg, s.stream, s.inflight[w], clock).event);
    }
  }

  lemma DeliverKeepsInv(cfg: Config, s: System, w: nat, i: nat, tenants: seq<string>)
    requires Inv(cfg, s) && Enabled(cfg, s, Deliver(w, i, tenants))
    ensures Inv(cfg, Next(cfg, s, Deliver(w, i, tenants)))
  {
    assert s.stream[..|s.stream|] == s.stream;
    assert FlightOk(cfg, s.stream, Flight(i, |s.stream|, tenants));
  }

  lemma {:induction false} StepKeepsInv(cfg: Config, s: System, step: Step)
    requires InStep(cfg) && Inv(cfg, s)
    ensures Inv(cfg, Next(cfg, s, step))
  {
    if Enabled(cfg, s, step) {
      match step {
        case Start(e) => AppendKeepsInv(cfg, s, e);
        case Other(e) => AppendKeepsInv(cfg, s, e);
        case Deliver(w, i, tenants) => DeliverKeepsInv(cfg, s, w, i, tenants);
        case Commit(w, clock) => CommitKeepsInv(cfg, s, w, clock);
        case Abandon(_) =>
        case Execute(i, success, output, error) =>
          AnswerIsOk(cfg, s.stream, i, success, output, error);
          AppendKeepsInv(cfg, s, AnswerEvent(s.stream[i], success, output, error));
        case Delay(i, fireAt) =>
          RetryIsOk(cfg, s.stream, i, fireAt);
          AppendKeepsInv(cfg, s, RetryEvent(s.stream[i], fireAt));
        case Register(i) => RegisterKeepsInv(cfg, s, i);
        case Fire(t) =>
          FiredIsOk(cfg, s.stream, t);
          AppendKeepsInv(cfg, s.(timers := s.timers - {t}), FiredEvent(t));
      }
    }
  }

  lemma {:induction false} InvHolds(cfg: Config, steps: seq<Step>)
    requires InStep(cfg)
    ensures Inv(cfg, After(cfg, steps))
  {
    if steps != [] {
      InvHolds(cfg, Front(steps));
      StepKeepsInv(cfg, After(cfg, Front(steps)), Last(steps));
    }
  }
}
