/** The protocol between the worker, the executor and the timer service over one workflow's
    stream, as a state machine. A run is any sequence of steps; a step that is not enabled
    changes nothing, so every statement about all sequences is about all reachable states. */
module Protocol {
  import opened Values
  import opened Replay
  import opened ReplayLaws
  import opened Worker
  import Retry

  // --- States and steps ---------------------------------------------------------------

  /** A worker that took stream[index] and read the history when there were `seen` events, its
      streams in the order of `tenants`. */
  datatype Flight = Flight(index: nat, seen: nat, tenants: seq<string>)

  /** The payload the timer service stores for a scheduled timer. */
  datatype Timer = Timer(
    tenantId: string, workflowId: string, executionId: string, taskId: string, taskName: string, fireAt: real)

  /** `stream` holds all published events, of whatever tenant, in the order of publication. */
  datatype System = System(stream: seq<Event>, inflight: map<nat, Flight>, timers: set<Timer>)

  datatype Step =
    | Start(event: Event)                          // the API starts an execution
    | Other(event: Event)                          // any event that no service acts on
    | Deliver(worker: nat, index: nat, tenants: seq<string>)  // a worker takes an event and reads the history
    | Commit(worker: nat, clock: Clock)            // it decides on what it read, and publishes
    | Abandon(worker: nat)                         // it fails or crashes before publishing
    | Execute(index: nat, success: bool, output: Fields, error: string)
    | Delay(index: nat, fireAt: real)              // the executor schedules a retry, and answers later or not at all
    | Register(index: nat)                         // the timer service stores a scheduled timer
    | Fire(timer: Timer)

  /** A workflow instance, its tenant, its definition, whether all its workers share one lock,
      and the definition's try tasks with their catch blocks decoded. */
  datatype Config = Config(
    wf: string, tenant: string, def: Definition, locked: bool, tries: map<string, Retry.TryTask>)

  /** The executor puts off a retry of the task, for some responses. */
  ghost predicate PutsOff(cfg: Config, name: string) {
    TaskType(cfg.def, name) == "try" && name in cfg.tries && Retry.PutsOff(cfg.tries[name])
  }

  /** The key of the stream of the workflow's tenant. */
  function Own(cfg: Config): string {
    StreamKey(cfg.tenant)
  }

  /** Put-off retries and dead letters are published for no tenant. */
  predicate TwoStreams(cfg: Config) {
    Own(cfg) != "default"
  }

  predicate OfTenant(cfg: Config, tenantId: string) {
    StreamKey(tenantId) == Own(cfg)
  }

  predicate TenantOk(cfg: Config, tenantId: string) {
    OfTenant(cfg, tenantId) || StreamKey(tenantId) == "default"
  }

  /** Redis lists every stream of the workflow once. */
  predicate Lists(stream: seq<Event>, wf: string, tenants: seq<string>) {
    Distinct(tenants) && forall e | e in stream && e.workflowId == wf :: StreamKey(e.tenantId) in tenants
  }

  function InitialSystem(): System {
    System([], map[], {})
  }

  /** The payload of a timer.scheduled event; None when its fire time does not parse. */
  function TimerOf(data: Fields): Option<Timer> {
    if "fire_at" !in data || !data["fire_at"].Num? then None
    else Some(Timer(StrAt(data, "tenant_id").GetOr(""), StrAt(data, "workflow_id").GetOr(""),
                    StrAt(data, "execution_id").GetOr(""), StrAt(data, "task_id").GetOr(""),
                    StrAt(data, "task_name").GetOr(""), data["fire_at"].n))
  }

  function FiredEvent(t: Timer): Event {
    Event(TimerFired, TimerService, t.tenantId, t.workflowId, t.executionId, t.taskId,
          Obj(map["tenant_id" := Str(t.tenantId), "workflow_id" := Str(t.workflowId),
                  "execution_id" := Str(t.executionId), "task_id" := Str(t.taskId),
                  "task_name" := Str(t.taskName), "scheduled_for" := Num(t.fireAt)]))
  }

  /** The executor answers a request under the request's name, successful or not. */
  function AnswerEvent(request: Event, success: bool, output: Fields, error: string): Event
    requires IsRequest(request)
  {
    var data := request.data.fields;
    var wf := if request.workflowId != "" then request.workflowId else StrAt(data, "workflow_id").GetOr("");
    var x := if request.executionId != "" then request.executionId else StrAt(data, "execution_id").GetOr("");
    var input := ObjAt(data, "input").GetOr(map[]);
    Event(TaskCompleted, ExecutorService, request.tenantId, wf, x, StrAt(data, "task_id").GetOr(""),
          Obj(map["task_id" := Str(StrAt(data, "task_id").GetOr("")), "task_name" := Str(RequestedName(data)),
                  "tenant_id" := Str(request.tenantId), "success" := Bool(success),
                  "output" := Obj(output), "error" := Str(error),
                  "data" := Obj(map["input" := Obj(input), "output" := Obj(output)])]))
  }

  /** The timer with which the executor puts off a retry: named after the task, for no tenant. */
  function RetryEvent(request: Event, fireAt: real): Event
    requires IsRequest(request)
  {
    var data := request.data.fields;
    var taskId := StrAt(data, "task_id").GetOr("") + "_retry";
    Event(TimerScheduled, ExecutorService, "", request.workflowId, request.executionId, taskId,
          Obj(map["tenant_id" := Str(""), "workflow_id" := Str(request.workflowId),
                  "execution_id" := Str(request.executionId), "task_id" := Str(taskId),
                  "task_name" := Str(RetryName(RequestedName(data))), "fire_at" := Num(fireAt),
                  "retry_type" := Str("task_retry")]))
  }

  predicate Inert(kind: EventType) {
    kind.WorkflowCreated? || kind.StepCompleted? || kind.WorkflowFailed? || kind.OtherType?
  }

  ghost predicate Enabled(cfg: Config, s: System, step: Step) {
    match step
    case Start(e) => IsStart(e) && e.executionId != "" && e.workflowId == cfg.wf && OfTenant(cfg, e.tenantId)
    case Other(e) => Inert(e.kind) && TenantOk(cfg, e.tenantId)
    case Deliver(w, i, tenants) =>
      && Lists(s.stream, cfg.wf, tenants)
      && i < |s.stream| && Subscribed(s.stream[i].kind) && s.stream[i].workflowId == cfg.wf
      && w !in s.inflight && (cfg.locked ==> s.inflight == map[])
    case Commit(w, _) => w in s.inflight
    case Abandon(w) => w in s.inflight
    case Execute(i, _, _, _) => i < |s.stream| && IsRequest(s.stream[i])
    case Delay(i, _) =>
      i < |s.stream| && IsRequest(s.stream[i]) && PutsOff(cfg, RequestedName(s.stream[i].data.fields))
    case Register(i) =>
      && i < |s.stream| && s.stream[i].kind.TimerScheduled? && s.stream[i].data.Obj?
      && TimerOf(s.stream[i].data.fields).Some?
    case Fire(t) => t in s.timers
  }

  /** What the worker decides for a flight, from the part of the stream it read. */
  function Decision(cfg: Config, stream: seq<Event>, f: Flight, clock: Clock): Outcome
    requires f.index < |stream| && f.seen <= |stream|
  {
    var e := stream[f.index];
    Processed(cfg.def, Read(stream[..f.seen], cfg.wf, e.executionId, f.tenants), e, clock)
  }

  ghost function Next(cfg: Config, s: System, step: Step): System {
    if !Enabled(cfg, s, step) then s
    else match step
      case Start(e) => s.(stream := s.stream + [e])
      case Other(e) => s.(stream := s.stream + [e])
      case Deliver(w, i, tenants) => s.(inflight := s.inflight[w := Flight(i, |s.stream|, tenants)])
      case Commit(w, clock) =>
        var f := s.inflight[w];
        if f.index < |s.stream| && f.seen <= |s.stream| then
          s.(inflight := s.inflight - {w}, stream := s.stream + Emission(Decision(cfg, s.stream, f, clock)))
        else s
      case Abandon(w) => s.(inflight := s.inflight - {w})
      case Execute(i, success, output, error) =>
        s.(stream := s.stream + [AnswerEvent(s.stream[i], success, output, error)])
      case Delay(i, fireAt) => s.(stream := s.stream + [RetryEvent(s.stream[i], fireAt)])
      case Register(i) => s.(timers := s.timers + {TimerOf(s.stream[i].data.fields).value})
      case Fire(t) => s.(timers := s.timers - {t}, stream := s.stream + [FiredEvent(t)])
  }

  lemma CommitPublishes(cfg: Config, s: System, w: nat, clock: Clock)
    requires w in s.inflight && s.inflight[w].index < |s.stream| && s.inflight[w].seen <= |s.stream|
    ensures var outcome, next := Decision(cfg, s.stream, s.inflight[w], clock), Next(cfg, s, Commit(w, clock));
            && next.inflight == s.inflight - {w} && next.timers == s.timers
            && next.stream == if outcome.Publish? then s.stream + [outcome.event] else s.stream
  {
    assert s.stream + [] == s.stream;
  }

  /** The state after a run. */
  ghost function After(cfg: Config, steps: seq<Step>): System {
    if steps == [] then InitialSystem()
    else Next(cfg, After(cfg, Front(steps)), Last(steps))
  }

  lemma AfterSnoc(cfg: Config, steps: seq<Step>, step: Step)
    ensures After(cfg, steps + [step]) == Next(cfg, After(cfg, steps), step)
  {
    assert Front(steps + [step]) == steps;
  }

  // --- Histories inside the stream ----------------------------------------------------

  /** The tasks execution `x` has completed, in the order of their completion. */
  function DoneBy(cfg: Config, stream: seq<Event>, x: string): seq<string> {
    Done(History(stream, cfg.wf, x))
  }

  predicate Known(cfg: Config, stream: seq<Event>, x: string) {
    x != "" && exists i | 0 <= i < |stream| ::
      IsStart(stream[i]) && stream[i].executionId == x && stream[i].workflowId == cfg.wf
  }

  function Requested(cfg: Config, stream: seq<Event>, x: string, name: string): nat {
    RequestCount(History(stream, cfg.wf, x), name)
  }

  predicate Asked(cfg: Config, stream: seq<Event>, x: string, name: string) {
    Requested(cfg, stream, x, name) > 0
  }

  lemma HistorySnoc(stream: seq<Event>, e: Event, wf: string, x: string)
    requires x != ""
    ensures History(stream + [e], wf, x)
            == History(stream, wf, x) + if e.workflowId == wf && e.executionId == x then [e] else []
  {
    assert (stream + [e])[..|stream|] == stream;
    var ofWf := OfWorkflow(stream, wf);
    if e.workflowId == wf {
      assert OfWorkflow(stream + [e], wf) == ofWf + [e];
      assert (ofWf + [e])[..|ofWf|] == ofWf;
    } else {
      assert OfWorkflow(stream + [e], wf) == ofWf;
    }
  }

  lemma DoneBySnoc(cfg: Config, stream: seq<Event>, e: Event, x: string)
    requires x != ""
    ensures DoneBy(cfg, stream + [e], x) ==
            if e.workflowId == cfg.wf && e.executionId == x && IsSuccess(e)
               && TaskName(e.data.fields) !in DoneBy(cfg, stream, x)
            then DoneBy(cfg, stream, x) + [TaskName(e.data.fields)] else DoneBy(cfg, stream, x)
  {
    var history := History(stream, cfg.wf, x);
    HistorySnoc(stream, e, cfg.wf, x);
    DoneSnoc(history, e);
    assert history + [] == history;
  }

  lemma {:induction false} HistoryMembers(stream: seq<Event>, wf: string, x: string)
    requires x != ""
    ensures forall e :: e in History(stream, wf, x) <==> e in stream && e.workflowId == wf && e.executionId == x
  {
    if stream != [] {
      assert stream == Front(stream) + [Last(stream)];
      HistoryMembers(Front(stream), wf, x);
      HistorySnoc(Front(stream), Last(stream), wf, x);
    }
  }

  lemma {:induction false} RequestedSnoc(cfg: Config, stream: seq<Event>, e: Event, x: string, name: string)
    requires x != ""
    ensures Requested(cfg, stream + [e], x, name) == Requested(cfg, stream, x, name)
            + if e.workflowId == cfg.wf && e.executionId == x && Requests(e, name) then 1 else 0
  {
    var history := History(stream, cfg.wf, x);
    HistorySnoc(stream, e, cfg.wf, x);
    assert Front(history + [e]) == history && history + [] == history;
  }

  // --- Put-off retries ----------------------------------------------------------------

  /** The name under which a put-off retry's timer fires. */
  function RetryName(name: string): string {
    name + "_retry"
  }

  /** Every task before the j-th can start, and the names up to it are new. */
  predicate Reachable(def: Definition, j: nat)
    requires j < |TaskList(def)|
  {
    Distinct(TaskList(def)[..j + 1]) && forall i | 0 <= i < j :: CanStart(def, TaskList(def)[i])
  }

  /** The task can start, or a put-off retry of the task before it completes it. */
  ghost predicate CanPass(cfg: Config, i: nat)
    requires i < |TaskList(cfg.def)|
  {
    var list := TaskList(cfg.def);
    CanStart(cfg.def, list[i]) || (i > 0 && PutsOff(cfg, list[i - 1]) && list[i] == RetryName(list[i - 1]))
  }

  ghost predicate Attainable(cfg: Config, j: nat)
    requires j < |TaskList(cfg.def)|
  {
    Distinct(TaskList(cfg.def)[..j + 1]) && forall i | 0 <= i < j :: CanPass(cfg, i)
  }

  /** The j-th task is a try task that can be reached and puts off its retries. */
  ghost predicate PutsOffAt(cfg: Config, j: nat)
    requires j < |TaskList(cfg.def)|
  {
    PutsOff(cfg, TaskList(cfg.def)[j]) && Reachable(cfg.def, j)
  }

  ghost predicate IsRetryName(cfg: Config, name: string) {
    exists j | 0 <= j < |TaskList(cfg.def)| :: PutsOffAt(cfg, j) && name == RetryName(TaskList(cfg.def)[j])
  }

  /** All tasks before the j-th are completed, whatever order they completed in. */
  ghost predicate Ready(cfg: Config, stream: seq<Event>, x: string, j: nat)
    requires j < |TaskList(cfg.def)|
  {
    Attainable(cfg, j) && forall i | 0 <= i < j :: TaskList(cfg.def)[i] in DoneBy(cfg, stream, x)
  }

  /** The task is in the list and all tasks before it are completed. */
  ghost predicate InTurn(cfg: Config, stream: seq<Event>, x: string, name: string) {
    exists j | 0 <= j < |TaskList(cfg.def)| && TaskList(cfg.def)[j] == name :: Ready(cfg, stream, x, j)
  }

  /** A task was requested that puts off its retries under this name. */
  ghost predicate RetryDue(cfg: Config, stream: seq<Event>, x: string, name: string) {
    exists task :: Asked(cfg, stream, x, task) && PutsOff(cfg, task) && name == RetryName(task)
  }

  // --- What every event owes to the events before it ----------------------------------

  /** The completion of a set task. */
  predicate IsSetCompletion(e: Event) {
    e.kind.TaskCompleted? && e.source.WorkflowEngine?
  }

  predicate WithoutOutput(e: Event) {
    IsSuccess(e) && NestedOutput(e.data.fields, "output").None?
  }

  /** The worker read that this is the next task, neither completed nor requested. */
  predicate PickedFrom(cfg: Config, read: seq<Event>, x: string, name: string) {
    var list, done := TaskList(cfg.def), DoneBy(cfg, read, x);
    |done| < |list| && list[|done|] == name && name !in done && !Asked(cfg, read, x, name)
  }

  predicate Picked(cfg: Config, stream: seq<Event>, x: string, name: string) {
    exists n | 0 <= n <= |stream| :: PickedFrom(cfg, stream[..n], x, name)
  }

  /** The worker read of as many completions as there are tasks, and of no open request. */
  ghost predicate FinishedIn(cfg: Config, read: seq<Event>, x: string) {
    |DoneBy(cfg, read, x)| >= |cfg.def.tasks| && NoneOpen(cfg, read, x)
  }

  ghost predicate NoneOpen(cfg: Config, stream: seq<Event>, x: string) {
    forall name :: Asked(cfg, stream, x, name) ==> name in DoneBy(cfg, stream, x)
  }

  ghost predicate Finished(cfg: Config, stream: seq<Event>, x: string) {
    exists n | 0 <= n <= |stream| :: FinishedIn(cfg, stream[..n], x)
  }

  /** The name of a task, or of a put-off retry of a requested one. */
  ghost predicate NamesTask(cfg: Config, stream: seq<Event>, x: string, name: string) {
    name in TaskList(cfg.def) || RetryDue(cfg, stream, x, name)
  }

  /** Every event that a service acts on is for a started execution of the workflow. This much
      holds whatever the order of the tasks. */
  ghost predicate SourceOk(cfg: Config, stream: seq<Event>, e: Event) {
    && TenantOk(cfg, e.tenantId)
    && match e.kind
       case ExecutionStarted =>
         IsStart(e) && e.executionId != "" && e.workflowId == cfg.wf && OfTenant(cfg, e.tenantId)
       case TaskRequested =>
         IsRequest(e) && BelongsTo(cfg, stream, e) && OfTenant(cfg, e.tenantId)
         && Picked(cfg, stream, e.executionId, RequestedName(e.data.fields))
       case TaskCompleted =>
         && e.data.Obj? && BelongsTo(cfg, stream, e) && OfTenant(cfg, e.tenantId)
         && ((e.source.ExecutorService? && Asked(cfg, stream, e.executionId, TaskName(e.data.fields)))
             || (IsSetCompletion(e) && WithoutOutput(e) && TaskName(e.data.fields) in TaskList(cfg.def)))
       case TimerFired =>
         WithoutOutput(e) && BelongsTo(cfg, stream, e)
         && NamesTask(cfg, stream, e.executionId, TaskName(e.data.fields))
       case TimerScheduled =>
         e.data.Obj? && TimerOf(e.data.fields).Some? && TimerSourceOk(cfg, stream, TimerOf(e.data.fields).value)
       case WorkflowCompleted =>
         BelongsTo(cfg, stream, e) && Finished(cfg, stream, e.executionId)
       case _ => true
  }

  predicate BelongsTo(cfg: Config, stream: seq<Event>, e: Event) {
    e.workflowId == cfg.wf && Known(cfg, stream, e.executionId)
  }

  ghost predicate TimerSourceOk(cfg: Config, stream: seq<Event>, t: Timer) {
    t.workflowId == cfg.wf && Known(cfg, stream, t.executionId) && TenantOk(cfg, t.tenantId)
    && NamesTask(cfg, stream, t.executionId, t.taskName)
  }

  /** What the protocol guarantees of an event where no put-off retry displaces a task. */
  ghost predicate EventOk(cfg: Config, stream: seq<Event>, e: Event) {
    && SourceOk(cfg, stream, e)
    && match e.kind
       case TaskRequested =>
         InTurn(cfg, stream, e.executionId, RequestedName(e.data.fields))
         && RunsInExecutor(cfg.def, RequestedName(e.data.fields))
       case TaskCompleted => IsSetCompletion(e) ==> CanRunNow(cfg, stream, e.executionId, TaskName(e.data.fields))
       case TimerScheduled =>
         var t := TimerOf(e.data.fields).value;
         TimerOk(cfg, stream, t) && e.workflowId == cfg.wf && e.executionId == t.executionId
       case TimerFired => FiringOk(cfg, stream, e.tenantId, e.executionId, TaskName(e.data.fields))
       case WorkflowCompleted => AllDone(cfg, stream, e.executionId)
       case _ => true
  }

  /** The worker or the timer service may complete the task now. */
  ghost predicate CanRunNow(cfg: Config, stream: seq<Event>, x: string, name: string) {
    InTurn(cfg, stream, x, name) && CanStart(cfg.def, name) && !RunsInExecutor(cfg.def, name)
  }

  /** A timer fires for a wait task of the tenant's own, or for a put-off retry. */
  ghost predicate FiringOk(cfg: Config, stream: seq<Event>, tenantId: string, x: string, name: string) {
    (OfTenant(cfg, tenantId) && CanRunNow(cfg, stream, x, name)) || RetryDue(cfg, stream, x, name)
  }

  ghost predicate TimerOk(cfg: Config, stream: seq<Event>, t: Timer) {
    TimerSourceOk(cfg, stream, t) && FiringOk(cfg, stream, t.tenantId, t.executionId, t.taskName)
  }

  /** Every task of the list is completed, and no name of the list repeats. */
  predicate AllDone(cfg: Config, stream: seq<Event>, x: string) {
    Distinct(TaskList(cfg.def)) && forall name | name in TaskList(cfg.def) :: name in DoneBy(cfg, stream, x)
  }

  ghost predicate Ordered(cfg: Config, stream: seq<Event>) {
    stream == [] || (Ordered(cfg, Front(stream)) && EventOk(cfg, Front(stream), Last(stream)))
  }

  lemma OrderedSnoc(cfg: Config, stream: seq<Event>, e: Event)
    ensures Ordered(cfg, stream + [e]) <==> Ordered(cfg, stream) && EventOk(cfg, stream, e)
  {
    assert Front(stream + [e]) == stream;
  }

  lemma {:induction false} OrderedAt(cfg: Config, stream: seq<Event>, n: nat)
    requires Ordered(cfg, stream) && n <= |stream|
    ensures Ordered(cfg, stream[..n])
    ensures n < |stream| ==> EventOk(cfg, stream[..n], stream[n])
  {
    if n < |stream| {
      if n < |stream| - 1 {
        OrderedAt(cfg, Front(stream), n);
      }
      assert Front(stream)[..n] == stream[..n];
    } else {
      assert stream[..n] == stream;
    }
  }

  ghost predicate Sourced(cfg: Config, stream: seq<Event>) {
    stream == [] || (Sourced(cfg, Front(stream)) && SourceOk(cfg, Front(stream), Last(stream)))
  }

  lemma SourcedSnoc(cfg: Config, stream: seq<Event>, e: Event)
    ensures Sourced(cfg, stream + [e]) <==> Sourced(cfg, stream) && SourceOk(cfg, stream, e)
  {
    assert Front(stream + [e]) == stream;
  }

  lemma {:induction false} SourcedAt(cfg: Config, stream: seq<Event>, n: nat)
    requires Sourced(cfg, stream) && n <= |stream|
    ensures Sourced(cfg, stream[..n])
    ensures n < |stream| ==> SourceOk(cfg, stream[..n], stream[n])
  {
    if n < |stream| {
      if n < |stream| - 1 {
        SourcedAt(cfg, Front(stream), n);
      }
      assert Front(stream)[..n] == stream[..n];
    } else {
      assert stream[..n] == stream;
    }
  }

  lemma {:induction false} OrderedIsSourced(cfg: Config, stream: seq<Event>)
    requires Ordered(cfg, stream)
    ensures Sourced(cfg, stream)
  {
    if stream != [] {
      OrderedIsSourced(cfg, Front(stream));
    }
  }

  lemma KnownStays(cfg: Config, stream: seq<Event>, n: nat, x: string)
    requires n <= |stream| && Known(cfg, stream[..n], x)
    ensures Known(cfg, stream, x)
  {
    var read := stream[..n];
    var i :| 0 <= i < n && IsStart(read[i]) && read[i].executionId == x && read[i].workflowId == cfg.wf;
    assert stream[i] == read[i];
  }

  /** Everything that was true of an execution stays true as the stream grows. */
  lemma {:induction false} StreamGrows(cfg: Config, stream: seq<Event>, n: nat, x: string)
    requires n <= |stream| && x != ""
    ensures DoneBy(cfg, stream[..n], x) <= DoneBy(cfg, stream, x)
    ensures Known(cfg, stream[..n], x) ==> Known(cfg, stream, x)
    ensures forall name :: Requested(cfg, stream[..n], x, name) <= Requested(cfg, stream, x, name)
  {
    if n == |stream| {
      assert stream[..n] == stream;
    } else {
      var front, e := Front(stream), Last(stream);
      StreamGrows(cfg, front, n, x);
      assert front[..n] == stream[..n] && stream == front + [e];
      HistorySnoc(front, e, cfg.wf, x);
      DoneSnoc(History(front, cfg.wf, x), e);
      assert Front(History(front, cfg.wf, x) + [e]) == History(front, cfg.wf, x);
      assert forall i | 0 <= i < |front| :: front[i] == stream[i];
      assert History(front, cfg.wf, x) + [] == History(front, cfg.wf, x);
    }
  }

  lemma TurnStays(cfg: Config, stream: seq<Event>, n: nat, x: string, name: string)
    requires n <= |stream| && x != ""
    ensures InTurn(cfg, stream[..n], x, name) ==> InTurn(cfg, stream, x, name)
    ensures RetryDue(cfg, stream[..n], x, name) ==> RetryDue(cfg, stream, x, name)
  {
    StreamGrows(cfg, stream, n, x);
    if InTurn(cfg, stream[..n], x, name) {
      var j :| 0 <= j < |TaskList(cfg.def)| && TaskList(cfg.def)[j] == name && Ready(cfg, stream[..n], x, j);
      assert Ready(cfg, stream, x, j);
    }
    if RetryDue(cfg, stream[..n], x, name) {
      var task :| Asked(cfg, stream[..n], x, task) && PutsOff(cfg, task) && name == RetryName(task);
      assert Asked(cfg, stream, x, task);
    }
  }
}
