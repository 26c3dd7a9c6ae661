/** The timer service's scheduler in timer/internal/processor/timer_processor.go: a sorted set
    of timers that is peeked, slept on, popped in batches and pushed back. Scores and times are
    whole nanoseconds. */
module Timers {
  import opened Values

  datatype Payload = Payload(
    tenantId: string, workflowId: string, executionId: string, taskId: string, taskName: string,
    fireAt: int, durationMs: int)

  // --- One scheduler, nobody registering meanwhile ------------------------------------

  /** A member of the sorted set; one that is not a payload's JSON is dropped when popped. */
  datatype Member = Good(payload: Payload) | Malformed(text: string)

  datatype Config = Config(maxSleep: int, batchSize: nat, lookahead: int)

  /** Members with the lowest score. ZPOPMIN returns one of them. */
  predicate Lowest(zset: map<Member, int>, m: Member) {
    m in zset && forall n | n in zset :: zset[m] <= zset[n]
  }

  lemma {:induction false} LowestExists(zset: map<Member, int>)
    requires zset != map[]
    ensures exists m :: Lowest(zset, m)
    decreases |zset|
  {
    var m :| m in zset;
    if !Lowest(zset, m) {
      var rest := zset - {m};
      assert forall n | n in rest :: rest[n] == zset[n];
      var n :| n in zset && zset[n] < zset[m];
      assert n in rest && |rest| < |zset| by {
        assert rest.Keys == zset.Keys - {m};
      }
      LowestExists(rest);
      var low :| Lowest(rest, low);
      assert Lowest(zset, low);
    }
  }

  function Payloads(members: seq<Member>): seq<Payload> {
    if members == [] then []
    else Payloads(members[..|members| - 1]) + PayloadOf(members[|members| - 1])
  }

  function PayloadOf(m: Member): seq<Payload> {
    if m.Good? then [m.payload] else []
  }

  /** The payloads of members that are all well formed are published one by one in their order. */
  lemma {:induction false} PayloadsInOrder(members: seq<Member>)
    requires forall i | 0 <= i < |members| :: members[i].Good?
    ensures |Payloads(members)| == |members|
    ensures forall i | 0 <= i < |members| :: Payloads(members)[i] == members[i].payload
  {
    if members != [] {
      var front, last := members[..|members| - 1], members[|members| - 1];
      PayloadsInOrder(front);
      assert Payloads(members) == Payloads(front) + [last.payload];
    }
  }

  /** A malformed member is passed over. */
  lemma MalformedIsPassedOver(members: seq<Member>, m: Member)
    requires m.Malformed?
    ensures Payloads(members + [m]) == Payloads(members)
  {
    assert (members + [m])[..|members|] == members;
  }

  function AsSet(members: seq<Member>): set<Member> {
    set m | m in members
  }

  /** `popped` are lowest due members of `start` in the order of their scores, one per reading
      of the clock, and `rest` is what stays behind. */
  ghost predicate PoppedInOrder(
    start: map<Member, int>, rest: map<Member, int>, popped: seq<Member>, clock: seq<int>, lookahead: int)
  {
    && |popped| <= |clock|
    && (forall m | m in popped :: m in start)
    && rest == start - AsSet(popped)
    && (forall i, j | 0 <= i < j < |popped| :: popped[i] != popped[j] && start[popped[i]] <= start[popped[j]])
    && (forall i, n | 0 <= i < |popped| && n in rest :: start[popped[i]] <= start[n])
    && (forall i | 0 <= i < |popped| :: start[popped[i]] <= clock[i] + lookahead)
  }

  lemma PoppingKeepsOrder(
    start: map<Member, int>, rest: map<Member, int>, popped: seq<Member>, clock: seq<int>, lookahead: int, m: Member)
    requires PoppedInOrder(start, rest, popped, clock, lookahead) && |popped| < |clock|
    requires Lowest(rest, m) && rest[m] <= clock[|popped|] + lookahead
    ensures PoppedInOrder(start, rest - {m}, popped + [m], clock, lookahead)
  {
    var more := popped + [m];
    assert AsSet(more) == AsSet(popped) + {m};
    assert rest - {m} == start - AsSet(more);
    forall i, j | 0 <= i < j < |more| ensures more[i] != more[j] && start[more[i]] <= start[more[j]] {
      if j == |popped| {
        assert more[j] == m && m in rest && more[i] == popped[i] && popped[i] in popped;
      } else {
        assert more[i] == popped[i] && more[j] == popped[j];
      }
    }
    forall i, n | 0 <= i < |more| && n in rest - {m} ensures start[more[i]] <= start[n] {
      assert n in rest && rest[n] == start[n];
    }
  }

  /** How long to sleep, given the score at the head of the set. */
  method SleepTime(config: Config, head: Option<int>, now: int) returns (sleep: int)
    ensures config.maxSleep >= 0 ==> 0 <= sleep <= config.maxSleep
    ensures head.Some? ==> now + sleep <= (if now < head.value then head.value else now)
    ensures head.None? ==> sleep == config.maxSleep
    ensures head.Some? && sleep != config.maxSleep ==> now + sleep == (if now < head.value then head.value else now)
  {
    sleep := config.maxSleep;
    if head.Some? {
      var d := head.value - now;
      if d > 0 {
        if d < config.maxSleep {
          sleep := d;
        } else {
          sleep := config.maxSleep;
        }
      } else {
        sleep := 0;
      }
    }
  }

  class TimerProcessor {
    const config: Config
    var zset: map<Member, int>
    var published: seq<Payload>

    constructor (config: Config)
      ensures this.config == config && zset == map[] && published == []
    {
      this.config, zset, published := config, map[], [];
    }

    method RegisterTimer(payload: Payload)
      modifies this`zset
      ensures zset == old(zset)[Good(payload) := payload.fireAt]
    {
      zset := zset[Good(payload) := payload.fireAt];
    }

    method ZPopMin() returns (m: Member, score: int)
      requires zset != map[]
      modifies this`zset
      ensures Lowest(old(zset), m) && score == old(zset)[m] && zset == old(zset) - {m}
    {
      LowestExists(zset);
      m :| Lowest(zset, m);
      score := zset[m];
      zset := zset - {m};
    }

    /** Pops the head and publishes it when it is due; otherwise pushes it back. */
    method PopIfDue(now: int) returns (popped: Option<Member>)
      modifies this
      ensures popped.Some? ==> Lowest(old(zset), popped.value) && zset == old(zset) - {popped.value}
                               && old(zset)[popped.value] <= now + config.lookahead
      ensures popped.None? ==> zset == old(zset) && forall n | n in zset :: zset[n] > now + config.lookahead
      ensures published == old(published) + if popped.Some? then PayloadOf(popped.value) else []
      ensures popped.Some? && popped.value.Good? ==> published == old(published) + [popped.value.payload]
      ensures popped.None? || popped.value.Malformed? ==> published == old(published)
    {
      if zset == map[] {
        return None;
      }
      ghost var before := zset;
      var m, score := ZPopMin();
      if score > now + config.lookahead {
        zset := zset[m := score];
        assert zset == before;
        return None;
      }
      if m.Good? {
        published := published + [m.payload];
      }
      popped := Some(m);
    }

    /** Pops due timers for one batch. `clock` is the time read after each pop. What is popped
        are the lowest due members in order of their scores, up to the batch size; when fewer
        are popped, nothing that stays behind is due. */
    method PopDueTimers(clock: seq<int>) returns (popped: seq<Member>)
      requires |clock| == config.batchSize
      modifies this
      ensures PoppedInOrder(old(zset), zset, popped, clock, config.lookahead)
      ensures |popped| < config.batchSize ==> forall n | n in zset :: zset[n] > clock[|popped|] + config.lookahead
      ensures published == old(published) + Payloads(popped)
    {
      popped := [];
      NothingPopped(zset, clock, config.lookahead);
      for i := 0 to config.batchSize
        invariant |popped| == i
        invariant PoppedInOrder(old(zset), zset, popped, clock, config.lookahead)
        invariant published == old(published) + Payloads(popped)
      {
        ghost var before := zset;
        var next := PopIfDue(clock[i]);
        if next.None? {
          return;
        }
        PoppingKeepsOrder(old(zset), before, popped, clock, config.lookahead, next.value);
        PayloadsSnoc(old(published), popped, next.value);
        popped := popped + [next.value];
      }
    }
  }

  lemma NothingPopped(zset: map<Member, int>, clock: seq<int>, lookahead: int)
    ensures PoppedInOrder(zset, zset, [], clock, lookahead)
  {
    assert zset - AsSet([]) == zset;
  }

  lemma PayloadsSnoc(published: seq<Payload>, members: seq<Member>, m: Member)
    ensures published + Payloads(members) + PayloadOf(m) == published + Payloads(members + [m])
  {
    assert (members + [m])[..|members|] == members;
  }

  // --- Schedulers and registrations interleaved ---------------------------------------

  datatype Firing = Firing(payload: Payload, at: int)

  /** `merged` counts the insertions that found their payload in the set already. */
  datatype Service = Service(
    zset: map<Payload, int>,
    held: map<nat, Payload>,
    fired: seq<Firing>,
    registered: multiset<Payload>,
    merged: multiset<Payload>,
    now: int)

  datatype Action =
    | Register(payload: Payload)
    | Pop(scheduler: nat, payload: Payload)
    | Decide(scheduler: nat)
    | Tick(elapsed: nat)

  function EmptyService(now: int): Service {
    Service(map[], map[], [], multiset{}, multiset{}, now)
  }

  function Insert(s: Service, p: Payload): Service {
    s.(zset := s.zset[p := p.fireAt],
       merged := if p in s.zset then s.merged + multiset{p} else s.merged)
  }

  ghost function Act(lookahead: int, s: Service, a: Action): Service {
    match a
    case Register(p) => Insert(s, p).(registered := s.registered + multiset{p})
    case Pop(w, p) =>
      if w !in s.held && p in s.zset && forall q | q in s.zset :: s.zset[p] <= s.zset[q]
      then s.(zset := s.zset - {p}, held := s.held[w := p])
      else s
    case Decide(w) =>
      if w !in s.held then s
      else
        var p, released := s.held[w], s.(held := s.held - {w});
        if p.fireAt > s.now + lookahead then Insert(released, p)
        else released.(fired := s.fired + [Firing(p, s.now)])
    case Tick(elapsed) => s.(now := s.now + elapsed)
  }

  ghost function ActAll(lookahead: int, s: Service, actions: seq<Action>): Service {
    if actions == [] then s
    else Act(lookahead, ActAll(lookahead, s, actions[..|actions| - 1]), actions[|actions| - 1])
  }

  function Holders(s: Service, p: Payload): set<nat> {
    set w | w in s.held && s.held[w] == p
  }

  function FiredCount(fired: seq<Firing>, p: Payload): nat {
    if fired == [] then 0
    else FiredCount(fired[..|fired| - 1], p) + if fired[|fired| - 1].payload == p then 1 else 0
  }

  function InSet(s: Service, p: Payload): nat {
    if p in s.zset then 1 else 0
  }

  /** Every insertion of a payload is accounted for: in the set, held, fired or merged. */
  ghost predicate Balanced(s: Service, p: Payload) {
    && s.registered[p] == InSet(s, p) + |Holders(s, p)| + FiredCount(s.fired, p) + s.merged[p]
    && (s.registered[p] > 0 ==> InSet(s, p) + |Holders(s, p)| + FiredCount(s.fired, p) > 0)
  }

  lemma HoldersAfterPop(s: Service, zset: map<Payload, int>, w: nat, p: Payload, q: Payload)
    requires w !in s.held
    ensures |Holders(s.(zset := zset, held := s.held[w := p]), q)| == |Holders(s, q)| + if p == q then 1 else 0
  {
    var after := Holders(s.(zset := zset, held := s.held[w := p]), q);
    if p == q {
      assert after == Holders(s, q) + {w};
    } else {
      assert after == Holders(s, q);
    }
  }

  lemma HoldersAfterRelease(s: Service, w: nat, q: Payload)
    requires w in s.held
    ensures |Holders(s.(held := s.held - {w}), q)| == |Holders(s, q)| - if s.held[w] == q then 1 else 0
  {
    var after := Holders(s.(held := s.held - {w}), q);
    if s.held[w] == q {
      assert Holders(s, q) == after + {w} && w !in after;
    } else {
      assert after == Holders(s, q);
    }
  }

  lemma SameHolders(s: Service, s': Service, q: Payload)
    requires s.held == s'.held
    ensures Holders(s, q) == Holders(s', q)
  {
  }

  lemma InsertKeepsBalance(s: Service, p: Payload, q: Payload)
    ensures InSet(Insert(s, p), q) + Insert(s, p).merged[q] == InSet(s, q) + s.merged[q] + if p == q then 1 else 0
  {
  }

  lemma DecideKeepsBalance(lookahead: int, s: Service, w: nat, q: Payload)
    requires Balanced(s, q) && w in s.held
    ensures Balanced(Act(lookahead, s, Decide(w)), q)
  {
    var p, released := s.held[w], s.(held := s.held - {w});
    HoldersAfterRelease(s, w, q);
    SameHolders(released, Act(lookahead, s, Decide(w)), q);
    if p.fireAt > s.now + lookahead {
      InsertKeepsBalance(released, p, q);
    } else {
      assert (s.fired + [Firing(p, s.now)])[..|s.fired|] == s.fired;
    }
  }

  lemma ActKeepsBalance(lookahead: int, s: Service, a: Action, q: Payload)
    requires Balanced(s, q)
    ensures Balanced(Act(lookahead, s, a), q)
  {
    var after := Act(lookahead, s, a);
    match a {
      case Register(p) =>
        InsertKeepsBalance(s, p, q);
        SameHolders(s, after, q);
      case Pop(w, p) =>
        if w !in s.held {
          HoldersAfterPop(s, s.zset - {p}, w, p, q);
        }
      case Decide(w) =>
        if w in s.held {
          DecideKeepsBalance(lookahead, s, w, q);
        }
      case Tick(_) => SameHolders(s, after, q);
    }
  }

  ghost predicate Timely(lookahead: int, s: Service) {
    && (forall p | p in s.zset :: s.zset[p] == p.fireAt)
    && (forall f | f in s.fired :: f.at + lookahead >= f.payload.fireAt && f.at <= s.now)
  }

  lemma ActKeepsTimely(lookahead: int, s: Service, a: Action)
    requires Timely(lookahead, s)
    ensures Timely(lookahead, Act(lookahead, s, a))
  {
  }

  lemma {:induction false} InvHolds(lookahead: int, start: int, actions: seq<Action>)
    ensures var s := ActAll(lookahead, EmptyService(start), actions);
            Timely(lookahead, s) && forall p :: Balanced(s, p)
  {
    if actions == [] {
      forall p ensures Balanced(EmptyService(start), p) {
        assert Holders(EmptyService(start), p) == {};
      }
    } else {
      var s, a := ActAll(lookahead, EmptyService(start), actions[..|actions| - 1]), actions[|actions| - 1];
      InvHolds(lookahead, start, actions[..|actions| - 1]);
      ActKeepsTimely(lookahead, s, a);
      forall p ensures Balanced(Act(lookahead, s, a), p) {
        ActKeepsBalance(lookahead, s, a, p);
      }
    }
  }

  /** In every interleaving, no timer is lost and none is invented. */
  lemma {:induction false} TimersAreConserved(lookahead: int, start: int, actions: seq<Action>, p: Payload)
    ensures var s := ActAll(lookahead, EmptyService(start), actions);
            && FiredCount(s.fired, p) + |Holders(s, p)| + InSet(s, p) <= s.registered[p]
            && (s.registered[p] > 0 ==> p in s.zset || Holders(s, p) != {} || FiredCount(s.fired, p) > 0)
            && (s.registered[p] == 1 ==> InSet(s, p) + |Holders(s, p)| + FiredCount(s.fired, p) == 1)
  {
    InvHolds(lookahead, start, actions);
    assert Balanced(ActAll(lookahead, EmptyService(start), actions), p);
  }

  /** In every interleaving, no timer fires before its fire time less the lookahead. */
  lemma {:induction false} NeverEarly(lookahead: int, start: int, actions: seq<Action>, f: Firing)
    requires f in ActAll(lookahead, EmptyService(start), actions).fired
    ensures f.at >= f.payload.fireAt - lookahead
  {
    InvHolds(lookahead, start, actions);
  }

  // --- Waiting ------------------------------------------------------------------------

  const NANOS_PER_SECOND := 1_000_000_000

  /** The fire time of a wait is written in whole seconds, cutting off the rest. */
  function FireTime(scheduled: int, duration: int): int {
    (scheduled + duration) / NANOS_PER_SECOND * NANOS_PER_SECOND
  }

  /** A wait ends less than a second plus the lookahead early, in every interleaving. */
  lemma {:induction false} WaitIsAlmostFull(
    lookahead: int, start: int, actions: seq<Action>, f: Firing, scheduled: int, duration: int)
    requires f in ActAll(lookahead, EmptyService(start), actions).fired
    requires f.payload.fireAt == FireTime(scheduled, duration)
    ensures f.at > scheduled + duration - NANOS_PER_SECOND - lookahead
  {
    NeverEarly(lookahead, start, actions, f);
  }

  /** The payload is registered no earlier than `scheduled`. */
  ghost predicate RegisteredSince(lookahead: int, start: int, actions: seq<Action>, p: Payload, scheduled: int) {
    forall i | 0 <= i < |actions| && actions[i] == Register(p) ::
      ActAll(lookahead, EmptyService(start), actions[..i]).now >= scheduled
  }

  /** The service has got hold of the payload no earlier than `scheduled`. */
  ghost predicate KnownSince(s: Service, p: Payload, scheduled: int) {
    && (p in s.zset || p in s.held.Values ==> s.now >= scheduled)
    && forall f | f in s.fired && f.payload == p :: f.at >= scheduled
  }

  lemma ActKeepsKnownSince(lookahead: int, s: Service, a: Action, p: Payload, scheduled: int)
    requires KnownSince(s, p, scheduled) && (a == Register(p) ==> s.now >= scheduled)
    ensures KnownSince(Act(lookahead, s, a), p, scheduled)
  {
    if a.Decide? && a.scheduler in s.held {
      assert s.held[a.scheduler] in s.held.Values;
    }
  }

  lemma {:induction false} NotBeforeScheduling(
    lookahead: int, start: int, actions: seq<Action>, p: Payload, scheduled: int)
    requires RegisteredSince(lookahead, start, actions, p, scheduled)
    ensures KnownSince(ActAll(lookahead, EmptyService(start), actions), p, scheduled)
  {
    if actions != [] {
      var front, a := actions[..|actions| - 1], actions[|actions| - 1];
      forall i | 0 <= i < |front| && front[i] == Register(p)
        ensures ActAll(lookahead, EmptyService(start), front[..i]).now >= scheduled
      {
        assert front[..i] == actions[..i] && actions[i] == Register(p);
      }
      NotBeforeScheduling(lookahead, start, front, p, scheduled);
      ActKeepsKnownSince(lookahead, ActAll(lookahead, EmptyService(start), front), a, p, scheduled);
    }
  }

  /** A wait whose timer is registered no earlier than the wait was scheduled does not end early. */
  ghost predicate WaitsInFull(
    lookahead: int, start: int, actions: seq<Action>, f: Firing, scheduled: int, duration: int)
  {
    f in ActAll(lookahead, EmptyService(start), actions).fired && f.payload.fireAt == FireTime(scheduled, duration)
    && RegisteredSince(lookahead, start, actions, f.payload, scheduled)
    ==> f.at >= scheduled + duration
  }

  /** The full duration is waited in every run exactly when there is nothing to wait for, or the
      lookahead is no more than minus the cut-off part; so with a lookahead of zero, for whole
      seconds. */
  lemma {:induction false} FullWaitIff(lookahead: int, scheduled: int, duration: int)
    ensures (forall start, actions, f: Firing ::
               WaitsInFull(lookahead, start, actions, f, scheduled, duration))
            <==> duration <= 0 || (scheduled + duration) % NANOS_PER_SECOND + lookahead <= 0
  {
    if duration <= 0 || (scheduled + duration) % NANOS_PER_SECOND + lookahead <= 0 {
      forall start, actions, f: Firing ensures WaitsInFull(lookahead, start, actions, f, scheduled, duration) {
        FullWait(lookahead, start, actions, f, scheduled, duration);
      }
    } else {
      var p := Payload("", "", "", "", "", FireTime(scheduled, duration), 0);
      var start := if scheduled < p.fireAt - lookahead then p.fireAt - lookahead else scheduled;
      var actions := [Register(p), Pop(0, p), Decide(0)];
      FiresWhenDue(lookahead, start, p);
      RegisteredAtStart(lookahead, start, actions, p, scheduled);
      assert !WaitsInFull(lookahead, start, actions, Firing(p, start), scheduled, duration);
    }
  }

  lemma {:induction false} FullWait(
    lookahead: int, start: int, actions: seq<Action>, f: Firing, scheduled: int, duration: int)
    requires duration <= 0 || (scheduled + duration) % NANOS_PER_SECOND + lookahead <= 0
    ensures WaitsInFull(lookahead, start, actions, f, scheduled, duration)
  {
    if f in ActAll(lookahead, EmptyService(start), actions).fired
       && f.payload.fireAt == FireTime(scheduled, duration)
       && RegisteredSince(lookahead, start, actions, f.payload, scheduled)
    {
      NotBeforeScheduling(lookahead, start, actions, f.payload, scheduled);
      NeverEarly(lookahead, start, actions, f);
    }
  }

  lemma RegisteredAtStart(lookahead: int, start: int, actions: seq<Action>, p: Payload, scheduled: int)
    requires |actions| > 0 && start >= scheduled && forall i | 1 <= i < |actions| :: actions[i] != Register(p)
    ensures RegisteredSince(lookahead, start, actions, p, scheduled)
  {
    assert actions[..0] == [];
  }

  lemma FiresWhenDue(lookahead: int, start: int, p: Payload)
    requires p.fireAt <= start + lookahead
    ensures Firing(p, start) in ActAll(lookahead, EmptyService(start), [Register(p), Pop(0, p), Decide(0)]).fired
  {
    var s0 := EmptyService(start);
    ActAllSnoc(lookahead, s0, [], Register(p));
    ActAllSnoc(lookahead, s0, [Register(p)], Pop(0, p));
    ActAllSnoc(lookahead, s0, [Register(p), Pop(0, p)], Decide(0));
    assert [] + [Register(p)] == [Register(p)];
    assert [Register(p)] + [Pop(0, p)] == [Register(p), Pop(0, p)];
    assert [Register(p), Pop(0, p)] + [Decide(0)] == [Register(p), Pop(0, p), Decide(0)];
    var s2 := ActAll(lookahead, s0, [Register(p), Pop(0, p)]);
    assert s2.held[0] == p && s2.now == start && s2.fired == [];
  }

  lemma ActAllSnoc(lookahead: int, s: Service, actions: seq<Action>, a: Action)
    ensures ActAll(lookahead, s, actions + [a]) == Act(lookahead, ActAll(lookahead, s, actions), a)
  {
    assert (actions + [a])[..|actions|] == actions;
  }
}
