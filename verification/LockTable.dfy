/** The table of per-workflow mutexes in worker/internal/processor/workflow_processor.go: a
    double-checked lookup under a read-write lock, as interleaved steps of any number of
    goroutines. As in module Protocol, a run is any sequence of steps and a step that is not
    enabled changes nothing. */
module LockTable {

  /** Where a goroutine is inside getWorkflowLock and the critical section after it. */
  datatype Pc =
    | Idle
    | Wanting(wf: string)                 // called getWorkflowLock
    | Reading(wf: string)                 // holds the read lock
    | Missed(wf: string)                  // found nothing, released the read lock
    | Writing(wf: string)                 // holds the write lock, about to look again
    | Creating(wf: string)                // still nothing, about to insert
    | Holding(wf: string, mutex: nat)     // getWorkflowLock returned this mutex
    | Inside(wf: string, mutex: nat)      // locked it

  /** Mutexes are named by the order of their allocation. */
  datatype Table = Table(
    locks: map<string, nat>, created: nat,
    readers: set<nat>, writer: set<nat>,
    owners: map<nat, nat>,
    pcs: map<nat, Pc>)

  datatype Action =
    | Call(t: nat, wf: string)
    | ReadLock(t: nat) | Look(t: nat)
    | WriteLock(t: nat) | LookAgain(t: nat) | Insert(t: nat)
    | Enter(t: nat) | Leave(t: nat)

  function InitialTable(): Table {
    Table(map[], 0, {}, {}, map[], map[])
  }

  function PcOf(s: Table, t: nat): Pc {
    if t in s.pcs then s.pcs[t] else Idle
  }

  predicate CanAct(s: Table, a: Action) {
    var pc := PcOf(s, a.t);
    match a
    case Call(_, _) => pc.Idle?
    case ReadLock(_) => pc.Wanting? && s.writer == {}
    case Look(_) => pc.Reading?
    case WriteLock(_) => pc.Missed? && s.writer == {} && s.readers == {}
    case LookAgain(_) => pc.Writing?
    case Insert(_) => pc.Creating?
    case Enter(_) => pc.Holding? && pc.mutex !in s.owners
    case Leave(_) => pc.Inside?
  }

  function Goto(s: Table, t: nat, pc: Pc): Table {
    s.(pcs := s.pcs[t := pc])
  }

  function Act(s: Table, a: Action): Table {
    var t, pc := a.t, PcOf(s, a.t);
    if !CanAct(s, a) then s
    else match a
      case Call(_, wf) => Goto(s, t, Wanting(wf))
      case ReadLock(_) => Goto(s, t, Reading(pc.wf)).(readers := s.readers + {t})
      case Look(_) =>
        Goto(s, t, if pc.wf in s.locks then Holding(pc.wf, s.locks[pc.wf]) else Missed(pc.wf))
        .(readers := s.readers - {t})
      case WriteLock(_) => Goto(s, t, Writing(pc.wf)).(writer := {t})
      case LookAgain(_) =>
        if pc.wf in s.locks
        then Goto(s, t, Holding(pc.wf, s.locks[pc.wf])).(writer := {})
        else Goto(s, t, Creating(pc.wf))
      case Insert(_) =>
        Goto(s, t, Holding(pc.wf, s.created))
        .(locks := s.locks[pc.wf := s.created], created := s.created + 1, writer := {})
      case Enter(_) => Goto(s, t, Inside(pc.wf, pc.mutex)).(owners := s.owners[pc.mutex := t])
      case Leave(_) => Goto(s, t, Idle).(owners := s.owners - {pc.mutex})
  }

  function ActAll(s: Table, actions: seq<Action>): Table {
    if actions == [] then s else Act(ActAll(s, actions[..|actions| - 1]), actions[|actions| - 1])
  }

  ghost predicate Inv(s: Table) {
    && (forall wf | wf in s.locks :: s.locks[wf] < s.created)
    && (forall v, w | v in s.locks && w in s.locks && s.locks[v] == s.locks[w] :: v == w)
    && (forall t | t in s.pcs && (s.pcs[t].Holding? || s.pcs[t].Inside?) ::
          s.pcs[t].wf in s.locks && s.locks[s.pcs[t].wf] == s.pcs[t].mutex)
    && (forall t | t in s.pcs && s.pcs[t].Inside? ::
          s.pcs[t].mutex in s.owners && s.owners[s.pcs[t].mutex] == t)
    && (forall t :: (t in s.pcs && (s.pcs[t].Writing? || s.pcs[t].Creating?)) <==> t in s.writer)
    && (forall t, u | t in s.writer && u in s.writer :: t == u)
    && (forall t | t in s.pcs && s.pcs[t].Creating? :: s.pcs[t].wf !in s.locks)
  }

  lemma LookingKeepsInv(s: Table, a: Action)
    requires Inv(s) && CanAct(s, a) && (a.Call? || a.ReadLock? || a.Look?)
    ensures Inv(Act(s, a))
  {
  }

  lemma WritingKeepsInv(s: Table, a: Action)
    requires Inv(s) && CanAct(s, a) && (a.WriteLock? || a.LookAgain?)
    ensures Inv(Act(s, a))
  {
  }

  lemma InsertKeepsInv(s: Table, a: Action)
    requires Inv(s) && CanAct(s, a) && a.Insert?
    ensures Inv(Act(s, a))
  {
    assert a.t in s.writer && PcOf(s, a.t).wf !in s.locks;
  }

  lemma EnteringKeepsInv(s: Table, a: Action)
    requires Inv(s) && CanAct(s, a) && (a.Enter? || a.Leave?)
    ensures Inv(Act(s, a))
  {
  }

  lemma ActKeepsInv(s: Table, a: Action)
    requires Inv(s)
    ensures Inv(Act(s, a))
  {
    if CanAct(s, a) {
      match a {
        case Call(_, _) => LookingKeepsInv(s, a);
        case ReadLock(_) => LookingKeepsInv(s, a);
        case Look(_) => LookingKeepsInv(s, a);
        case WriteLock(_) => WritingKeepsInv(s, a);
        case LookAgain(_) => WritingKeepsInv(s, a);
        case Insert(_) => InsertKeepsInv(s, a);
        case Enter(_) => EnteringKeepsInv(s, a);
        case Leave(_) => EnteringKeepsInv(s, a);
      }
    }
  }

  lemma {:induction false} InvHolds(actions: seq<Action>)
    ensures Inv(ActAll(InitialTable(), actions))
  {
    if actions != [] {
      InvHolds(actions[..|actions| - 1]);
      ActKeepsInv(ActAll(InitialTable(), actions[..|actions| - 1]), actions[|actions| - 1]);
    }
  }

  /** At most one goroutine is in the critical section of a workflow. */
  lemma {:induction false} OnlyOneInside(actions: seq<Action>, t: nat, u: nat)
    requires var s := ActAll(InitialTable(), actions);
             PcOf(s, t).Inside? && PcOf(s, u).Inside? && PcOf(s, t).wf == PcOf(s, u).wf
    ensures t == u
  {
    InvHolds(actions);
  }

  /** Entries stay in the table and are never overwritten. */
  lemma {:induction false} EntriesStay(actions: seq<Action>, more: seq<Action>, wf: string)
    requires wf in ActAll(InitialTable(), actions).locks
    ensures wf in ActAll(InitialTable(), actions + more).locks
    ensures ActAll(InitialTable(), actions + more).locks[wf] == ActAll(InitialTable(), actions).locks[wf]
    decreases |more|
  {
    if more == [] {
      assert actions + more == actions;
    } else {
      var front := more[..|more| - 1];
      EntriesStay(actions, front, wf);
      assert (actions + more)[..|actions + more| - 1] == actions + front;
      InvHolds(actions + front);
      var s, a := ActAll(InitialTable(), actions + front), more[|more| - 1];
      assert ActAll(InitialTable(), actions + more) == Act(s, a);
      if CanAct(s, a) && a.Insert? {
        assert PcOf(s, a.t).Creating?;
      }
    }
  }

  /** The way of a goroutine that finds no entry, and of one that finds one. */
  function WayOfFirst(t: nat, wf: string): seq<Action> {
    [Call(t, wf)] + [ReadLock(t)] + [Look(t)] + [WriteLock(t)] + [LookAgain(t)] + [Insert(t)] + [Enter(t)]
  }

  function WayOfNext(t: nat, wf: string): seq<Action> {
    [Call(t, wf)] + [ReadLock(t)] + [Look(t)] + [Enter(t)]
  }

  lemma ActAllSnoc(s: Table, actions: seq<Action>, a: Action)
    ensures ActAll(s, actions + [a]) == Act(ActAll(s, actions), a)
  {
    assert (actions + [a])[..|actions|] == actions;
  }

  /** Nobody waits for the table itself. */
  predicate Quiescent(s: Table) {
    s.readers == {} && s.writer == {}
  }

  /** When nobody waits, a goroutine gets inside its workflow's critical section: for a workflow
      without an entry it makes one, */
  lemma FirstGetsInside(s: Table, t: nat, wf: string)
    requires Inv(s) && Quiescent(s) && PcOf(s, t).Idle? && wf !in s.locks && s.created !in s.owners
    ensures var after := ActAll(s, WayOfFirst(t, wf));
            PcOf(after, t) == Inside(wf, s.created) && after.locks == s.locks[wf := s.created] && Quiescent(after)
  {
    var a1 := [Call(t, wf)];
    var a3 := a1 + [ReadLock(t)] + [Look(t)];
    var a5 := a3 + [WriteLock(t)] + [LookAgain(t)];
    assert [] + [Call(t, wf)] == a1;
    ActAllSnoc(s, [], Call(t, wf));
    ActAllSnoc(s, a1, ReadLock(t));
    ActAllSnoc(s, a1 + [ReadLock(t)], Look(t));
    FindsNothing(s, t, wf);
    ActAllSnoc(s, a3, WriteLock(t));
    ActAllSnoc(s, a3 + [WriteLock(t)], LookAgain(t));
    StillFindsNothing(ActAll(s, a3), t, wf);
    ActAllSnoc(s, a5, Insert(t));
    ActAllSnoc(s, a5 + [Insert(t)], Enter(t));
    MakesEntry(ActAll(s, a5), t, wf);
  }

  lemma FindsNothing(s: Table, t: nat, wf: string)
    requires Quiescent(s) && PcOf(s, t).Idle? && wf !in s.locks
    ensures Act(Act(Act(s, Call(t, wf)), ReadLock(t)), Look(t)) == Goto(s, t, Missed(wf))
  {
    var s1 := Goto(s, t, Wanting(wf));
    assert Act(s, Call(t, wf)) == s1;
    assert Act(s1, ReadLock(t)) == Goto(s, t, Reading(wf)).(readers := s.readers + {t});
    assert s.readers + {t} - {t} == s.readers;
  }

  lemma StillFindsNothing(s: Table, t: nat, wf: string)
    requires Quiescent(s) && PcOf(s, t) == Missed(wf) && wf !in s.locks
    ensures Act(Act(s, WriteLock(t)), LookAgain(t)) == Goto(s, t, Creating(wf)).(writer := {t})
  {
  }

  lemma MakesEntry(s: Table, t: nat, wf: string)
    requires PcOf(s, t) == Creating(wf) && s.created !in s.owners && s.readers == {}
    ensures var after := Act(Act(s, Insert(t)), Enter(t));
            PcOf(after, t) == Inside(wf, s.created) && after.locks == s.locks[wf := s.created] && Quiescent(after)
  {
  }

  /** and otherwise it takes the one in the table, as soon as nobody else is inside. */
  lemma NextGetsInside(s: Table, t: nat, wf: string)
    requires Inv(s) && Quiescent(s) && PcOf(s, t).Idle? && wf in s.locks && s.locks[wf] !in s.owners
    ensures var after := ActAll(s, WayOfNext(t, wf));
            PcOf(after, t) == Inside(wf, s.locks[wf]) && after.locks == s.locks && Quiescent(after)
  {
    var a1 := [Call(t, wf)];
    var a3 := a1 + [ReadLock(t)] + [Look(t)];
    assert [] + [Call(t, wf)] == a1;
    ActAllSnoc(s, [], Call(t, wf));
    ActAllSnoc(s, a1, ReadLock(t));
    ActAllSnoc(s, a1 + [ReadLock(t)], Look(t));
    FindsEntry(s, t, wf);
    ActAllSnoc(s, a3, Enter(t));
    GoesIn(ActAll(s, a3), t, wf, s.locks[wf]);
  }

  lemma FindsEntry(s: Table, t: nat, wf: string)
    requires Quiescent(s) && PcOf(s, t).Idle? && wf in s.locks
    ensures Act(Act(Act(s, Call(t, wf)), ReadLock(t)), Look(t)) == Goto(s, t, Holding(wf, s.locks[wf]))
  {
    var s1 := Goto(s, t, Wanting(wf));
    assert Act(s, Call(t, wf)) == s1;
    assert Act(s1, ReadLock(t)) == Goto(s, t, Reading(wf)).(readers := s.readers + {t});
    assert s.readers + {t} - {t} == s.readers;
  }

  lemma GoesIn(s: Table, t: nat, wf: string, mutex: nat)
    requires PcOf(s, t) == Holding(wf, mutex) && mutex !in s.owners
    ensures Act(s, Enter(t)) == Goto(s, t, Inside(wf, mutex)).(owners := s.owners[mutex := t])
  {
  }

  /** Leaving frees the mutex. */
  lemma LeavingFrees(s: Table, t: nat)
    requires PcOf(s, t).Inside?
    ensures PcOf(Act(s, Leave(t)), t).Idle? && PcOf(s, t).mutex !in Act(s, Leave(t)).owners
    ensures Act(s, Leave(t)).locks == s.locks
  {
  }

  /** All calls for a workflow return the same mutex, whenever and by whomever they are made. */
  lemma {:induction false} SameMutexForAll(actions: seq<Action>, more: seq<Action>, t: nat, u: nat)
    requires var s, later := ActAll(InitialTable(), actions), ActAll(InitialTable(), actions + more);
             PcOf(s, t).Holding? && PcOf(later, u).Holding? && PcOf(s, t).wf == PcOf(later, u).wf
    ensures PcOf(ActAll(InitialTable(), actions), t).mutex == PcOf(ActAll(InitialTable(), actions + more), u).mutex
  {
    InvHolds(actions);
    InvHolds(actions + more);
    EntriesStay(actions, more, PcOf(ActAll(InitialTable(), actions), t).wf);
  }
}

/** Workers that take an event only inside their workflow's critical section behave like the
    locked protocol. */
module LockedWorkers {
  import opened ReplayLaws
  import opened Protocol
  import Guarantees
  import L = LockTable

  datatype Both = Both(table: L.Table, system: System)

  datatype Move = Locking(action: L.Action) | Working(step: Step)

  predicate InsideOf(table: L.Table, t: nat, wf: string) {
    L.PcOf(table, t).Inside? && L.PcOf(table, t).wf == wf
  }

  /** A worker's goroutine reads and publishes between entering and leaving; steps of the
      other services are free. */
  predicate Allowed(cfg: Config, s: Both, m: Move) {
    match m
    case Locking(a) => a.Leave? ==> a.t !in s.system.inflight
    case Working(step) => step.Deliver? ==> InsideOf(s.table, step.worker, cfg.wf)
  }

  ghost function Moved(cfg: Config, s: Both, m: Move): Both {
    if !Allowed(cfg, s, m) then s
    else match m
      case Locking(a) => s.(table := L.Act(s.table, a))
      case Working(step) => s.(system := Next(cfg, s.system, step))
  }

  ghost function AfterMoves(cfg: Config, moves: seq<Move>): Both {
    if moves == [] then Both(L.InitialTable(), InitialSystem())
    else Moved(cfg, AfterMoves(cfg, Front(moves)), Last(moves))
  }

  ghost predicate Guarded(cfg: Config, s: Both) {
    L.Inv(s.table) && forall w | w in s.system.inflight :: InsideOf(s.table, w, cfg.wf)
  }

  /** The protocol steps among the moves. */
  ghost function Steps(cfg: Config, moves: seq<Move>): seq<Step> {
    if moves == [] then []
    else
      var before, m := Front(moves), Last(moves);
      Steps(cfg, before) + if m.Working? && Allowed(cfg, AfterMoves(cfg, before), m) then [m.step] else []
  }

  lemma StaysInside(table: L.Table, a: L.Action, t: nat, wf: string)
    requires InsideOf(table, t, wf) && !(a.Leave? && a.t == t)
    ensures InsideOf(L.Act(table, a), t, wf)
  {
  }

  lemma MoveKeepsGuarded(cfg: Config, s: Both, m: Move)
    requires Guarded(cfg, s)
    ensures Guarded(cfg, Moved(cfg, s, m))
  {
    if Allowed(cfg, s, m) && m.Locking? {
      L.ActKeepsInv(s.table, m.action);
      forall w | w in s.system.inflight ensures InsideOf(L.Act(s.table, m.action), w, cfg.wf) {
        StaysInside(s.table, m.action, w, cfg.wf);
      }
    }
  }

  /** Inside the critical section, the protocol without a lock takes the step of the protocol
      with one. */
  lemma GuardedStepIsLocked(cfg: Config, s: Both, step: Step)
    requires Guarded(cfg, s) && Allowed(cfg, s, Working(step))
    ensures Next(cfg, s.system, step) == Next(cfg.(locked := true), s.system, step)
  {
    if step.Deliver? {
      forall w | w in s.system.inflight ensures w == step.worker {
        assert InsideOf(s.table, w, cfg.wf) && InsideOf(s.table, step.worker, cfg.wf);
      }
    }
  }

  /** Any number of worker goroutines synchronised by the lock table produce only runs of the
      locked protocol. */
  lemma {:induction false} LockTableImplementsLock(cfg: Config, moves: seq<Move>)
    ensures Guarded(cfg, AfterMoves(cfg, moves))
    ensures AfterMoves(cfg, moves).system == After(cfg.(locked := true), Steps(cfg, moves))
  {
    if moves != [] {
      var before, m := Front(moves), Last(moves);
      LockTableImplementsLock(cfg, before);
      MoveKeepsGuarded(cfg, AfterMoves(cfg, before), m);
      if m.Working? && Allowed(cfg, AfterMoves(cfg, before), m) {
        GuardedStepIsLocked(cfg, AfterMoves(cfg, before), m.step);
        AfterSnoc(cfg.(locked := true), Steps(cfg, before), m.step);
      } else {
        assert Steps(cfg, before) + [] == Steps(cfg, before);
      }
    }
  }

  /** So they request each task at most once per execution. */
  lemma {:induction false} SynchronisedWorkersRequestOnce(cfg: Config, moves: seq<Move>, x: string, name: string)
    requires cfg.wf != "" && x != ""
    ensures Requested(cfg, AfterMoves(cfg, moves).system.stream, x, name) <= 1
  {
    var locked := cfg.(locked := true);
    LockTableImplementsLock(cfg, moves);
    Guarantees.AtMostOneRequest(locked, Steps(cfg, moves), x, name);
    assert Requested(locked, AfterMoves(cfg, moves).system.stream, x, name)
        == Requested(cfg, AfterMoves(cfg, moves).system.stream, x, name);
  }
}
