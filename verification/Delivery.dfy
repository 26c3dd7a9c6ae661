/** Delivery through a consumer group: shared/pkg/eventstreaming/redis_stream.go hands every
    message to one handler, and the handlers of worker, timer service (three attempts) and
    executor (one attempt) decide when to acknowledge it. Handlers run interleaved; as in
    module Protocol an action that is not enabled changes nothing. */
module Delivery {
  import opened Replay

  // --- Filtering ----------------------------------------------------------------------

  datatype Filters = Filters(kinds: seq<EventType>, workflows: seq<string>, sources: seq<Source>)

  /** An empty filter list admits everything. */
  predicate Wanted(filters: Filters, e: Event) {
    && (filters.kinds == [] || e.kind in filters.kinds)
    && (filters.workflows == [] || e.workflowId in filters.workflows)
    && (filters.sources == [] || e.source in filters.sources)
  }

  method ShouldProcessEvent(filters: Filters, e: Event) returns (wanted: bool)
    ensures wanted == Wanted(filters, e)
  {
    if |filters.kinds| > 0 {
      var found := false;
      for i := 0 to |filters.kinds|
        invariant found == (e.kind in filters.kinds[..i])
      {
        found := found || e.kind == filters.kinds[i];
      }
      assert filters.kinds[..|filters.kinds|] == filters.kinds;
      if !found {
        return false;
      }
    }
    if |filters.workflows| > 0 {
      var found := false;
      for i := 0 to |filters.workflows|
        invariant found == (e.workflowId in filters.workflows[..i])
      {
        found := found || e.workflowId == filters.workflows[i];
      }
      assert filters.workflows[..|filters.workflows|] == filters.workflows;
      if !found {
        return false;
      }
    }
    if |filters.sources| > 0 {
      var found := false;
      for i := 0 to |filters.sources|
        invariant found == (e.source in filters.sources[..i])
      {
        found := found || e.source == filters.sources[i];
      }
      assert filters.sources[..|filters.sources|] == filters.sources;
      if !found {
        return false;
      }
    }
    wanted := true;
  }

  /** A filter list of one admits that one only, a longer list admits what its parts admit, and
      the three lists are asked independently. */
  lemma FilterAdmits(e: Event, kind: EventType, wf: string, source: Source)
    ensures Wanted(Filters([], [], []), e)
    ensures Wanted(Filters([kind], [], []), e) <==> e.kind == kind
    ensures Wanted(Filters([], [wf], []), e) <==> e.workflowId == wf
    ensures Wanted(Filters([], [], [source]), e) <==> e.source == source
  {
  }

  lemma FiltersCombine(e: Event, f: Filters, g: Filters)
    ensures Wanted(f, e) <==> Wanted(Filters(f.kinds, [], []), e) && Wanted(Filters([], f.workflows, []), e)
                              && Wanted(Filters([], [], f.sources), e)
    ensures f.kinds != [] && g.kinds != [] ==>
              (Wanted(Filters(f.kinds + g.kinds, [], []), e)
               <==> Wanted(Filters(f.kinds, [], []), e) || Wanted(Filters(g.kinds, [], []), e))
    ensures f.workflows != [] && g.workflows != [] ==>
              (Wanted(Filters([], f.workflows + g.workflows, []), e)
               <==> Wanted(Filters([], f.workflows, []), e) || Wanted(Filters([], g.workflows, []), e))
    ensures f.sources != [] && g.sources != [] ==>
              (Wanted(Filters([], [], f.sources + g.sources), e)
               <==> Wanted(Filters([], [], f.sources), e) || Wanted(Filters([], [], g.sources), e))
  {
  }

  // --- The group and its handlers -----------------------------------------------------

  /** What has become of a delivered message. */
  datatype Phase = Unwanted | Handling | Succeeded | DeadLettered | Lost

  /** `attempts` records, per message, how each processing attempt ended; `dlq` the messages
      for which a publication to the dead-letter stream was tried. */
  datatype Group = Group(
    stream: seq<Event>,
    next: nat,
    pending: set<nat>,
    acked: set<nat>,
    phases: map<nat, Phase>,
    attempts: map<nat, seq<bool>>,
    dlq: set<nat>)

  datatype Action =
    | Append(e: Event)
    | Read                                // deliver the next message to this group
    | Attempt(m: nat, ok: bool)
    | DeadLetter(m: nat)                  // tried, whether or not the publication succeeds
    | Ack(m: nat, ok: bool)               // an acknowledgement may fail
    | Crash(m: nat)                       // the handler disappears

  /** A group's filters and how often its handler tries a message: three times in the worker and
      the timer service, once in the executor. */
  datatype Policy = Policy(filters: Filters, limit: nat)

  function EmptyGroup(): Group {
    Group([], 0, {}, {}, map[], map[], {})
  }

  predicate InPhase(g: Group, m: nat, phase: Phase) {
    m in g.phases && m in g.attempts && g.phases[m] == phase
  }

  predicate CanAct(p: Policy, g: Group, a: Action) {
    match a
    case Append(_) => true
    case Read => g.next < |g.stream|
    case Attempt(m, _) => InPhase(g, m, Handling) && |g.attempts[m]| < p.limit
    case DeadLetter(m) => InPhase(g, m, Handling) && |g.attempts[m]| == p.limit
    case Ack(m, _) =>
      (InPhase(g, m, Unwanted) || InPhase(g, m, Succeeded) || InPhase(g, m, DeadLettered)) && m in g.pending
    case Crash(m) => InPhase(g, m, Handling)
  }

  function Act(p: Policy, g: Group, a: Action): Group {
    if !CanAct(p, g, a) then g
    else match a
      case Append(e) => g.(stream := g.stream + [e])
      case Read =>
        var m := g.next;
        g.(next := m + 1, pending := g.pending + {m},
           phases := g.phases[m := if Wanted(p.filters, g.stream[m]) then Handling else Unwanted],
           attempts := g.attempts[m := []])
      case Attempt(m, ok) =>
        g.(attempts := g.attempts[m := g.attempts[m] + [ok]],
           phases := if ok then g.phases[m := Succeeded] else g.phases)
      case DeadLetter(m) => g.(phases := g.phases[m := DeadLettered], dlq := g.dlq + {m})
      case Ack(m, ok) => if ok then g.(pending := g.pending - {m}, acked := g.acked + {m}) else g
      case Crash(m) => g.(phases := g.phases[m := Lost])
  }

  function ActAll(p: Policy, g: Group, actions: seq<Action>): Group {
    if actions == [] then g
    else Act(p, ActAll(p, g, actions[..|actions| - 1]), actions[|actions| - 1])
  }

  lemma ActAllSnoc(p: Policy, g: Group, actions: seq<Action>, a: Action)
    ensures ActAll(p, g, actions + [a]) == Act(p, ActAll(p, g, actions), a)
  {
    assert (actions + [a])[..|actions|] == actions;
  }

  // --- What every run keeps -----------------------------------------------------------

  predicate AllFailed(attempts: seq<bool>) {
    forall i | 0 <= i < |attempts| :: !attempts[i]
  }

  predicate EndsInSuccess(attempts: seq<bool>) {
    attempts != [] && attempts[|attempts| - 1] && AllFailed(attempts[..|attempts| - 1])
  }

  /** The reasons for which a message may be acknowledged. */
  predicate Settled(p: Policy, g: Group, m: nat)
    requires m < |g.stream| && m in g.attempts
  {
    || (!Wanted(p.filters, g.stream[m]) && g.attempts[m] == [])
    || (EndsInSuccess(g.attempts[m]) && |g.attempts[m]| <= p.limit)
    || (AllFailed(g.attempts[m]) && |g.attempts[m]| == p.limit && m in g.dlq)
  }

  predicate MessageOk(p: Policy, g: Group, m: nat)
    requires m < |g.stream| && m in g.phases && m in g.attempts
  {
    match g.phases[m]
    case Unwanted => !Wanted(p.filters, g.stream[m]) && g.attempts[m] == []
    case Handling => Wanted(p.filters, g.stream[m]) && AllFailed(g.attempts[m]) && |g.attempts[m]| <= p.limit
    case Lost => AllFailed(g.attempts[m])
    case Succeeded => EndsInSuccess(g.attempts[m]) && |g.attempts[m]| <= p.limit
    case DeadLettered => AllFailed(g.attempts[m]) && |g.attempts[m]| == p.limit && m in g.dlq
  }

  ghost predicate Inv(p: Policy, g: Group) {
    && g.next <= |g.stream|
    && g.pending !! g.acked
    && (forall m :: m in g.pending || m in g.acked <==> 0 <= m < g.next)
    && (forall m: nat | m < g.next :: m in g.phases && m in g.attempts && MessageOk(p, g, m))
    && (forall m | m in g.phases :: m < g.next)
    && (forall m | m in g.acked :: m in g.phases && g.phases[m] != Handling && g.phases[m] != Lost)
  }

  lemma ActKeepsInv(p: Policy, g: Group, a: Action)
    requires Inv(p, g)
    ensures Inv(p, Act(p, g, a))
  {
    var after := Act(p, g, a);
    forall m: nat | m < after.next ensures m in after.phases && m in after.attempts && MessageOk(p, after, m) {
      if m < g.next {
        assert MessageOk(p, g, m);
        if a.Attempt? && a.m == m && CanAct(p, g, a) {
          assert after.attempts[m][..|after.attempts[m]| - 1] == g.attempts[m];
        }
      }
    }
  }

  lemma {:induction false} InvHolds(p: Policy, actions: seq<Action>)
    ensures Inv(p, ActAll(p, EmptyGroup(), actions))
  {
    if actions != [] {
      InvHolds(p, actions[..|actions| - 1]);
      ActKeepsInv(p, ActAll(p, EmptyGroup(), actions[..|actions| - 1]), actions[|actions| - 1]);
    }
  }

  /** In every run, each delivered message is either still pending or acknowledged. */
  lemma {:induction false} DeliveredIsPendingOrAcked(p: Policy, actions: seq<Action>)
    ensures var g := ActAll(p, EmptyGroup(), actions);
            g.pending !! g.acked && forall m :: m in g.pending || m in g.acked <==> 0 <= m < g.next
  {
    InvHolds(p, actions);
  }

  /** An acknowledged message was filtered out, or processed successfully within the limit, or
      failed every attempt with its dead letter tried first. */
  lemma {:induction false} AckedIsSettled(p: Policy, actions: seq<Action>, m: nat)
    requires m in ActAll(p, EmptyGroup(), actions).acked
    ensures var g := ActAll(p, EmptyGroup(), actions);
            m < |g.stream| && m in g.attempts && Settled(p, g, m)
  {
    InvHolds(p, actions);
    var g := ActAll(p, EmptyGroup(), actions);
    assert MessageOk(p, g, m);
  }

  /** A message that was acknowledged stays so, and is never attempted again. */
  lemma {:induction false} AckIsFinal(p: Policy, actions: seq<Action>, more: seq<Action>, m: nat)
    requires m in ActAll(p, EmptyGroup(), actions).acked
    ensures var g, later := ActAll(p, EmptyGroup(), actions), ActAll(p, EmptyGroup(), actions + more);
            m in later.acked && m in g.attempts && m in later.attempts && later.attempts[m] == g.attempts[m]
    decreases |more|
  {
    InvHolds(p, actions);
    if more == [] {
      assert actions + more == actions;
    } else {
      var front, a := more[..|more| - 1], more[|more| - 1];
      AckIsFinal(p, actions, front, m);
      InvHolds(p, actions + front);
      assert actions + more == (actions + front) + [a];
      ActAllSnoc(p, EmptyGroup(), actions + front, a);
      ActKeepsAck(p, ActAll(p, EmptyGroup(), actions + front), a, m);
    }
  }

  lemma ActKeepsAck(p: Policy, g: Group, a: Action, m: nat)
    requires Inv(p, g) && m in g.acked && m in g.attempts
    ensures var after := Act(p, g, a); m in after.acked && m in after.attempts && after.attempts[m] == g.attempts[m]
  {
  }

  // --- The handler as it runs ---------------------------------------------------------

  /** The handler's actions on a message, given how its attempts would end: it tries until a
      success or the limit, then dead-letters if need be, then acknowledges. */
  function HandlerActions(m: nat, outcomes: seq<bool>, ackOk: bool): seq<Action> {
    if outcomes == [] then [DeadLetter(m), Ack(m, ackOk)]
    else if outcomes[0] then [Attempt(m, true), Ack(m, ackOk)]
    else [Attempt(m, false)] + HandlerActions(m, outcomes[1..], ackOk)
  }

  lemma {:induction false} ActAllConcat(p: Policy, g: Group, first: seq<Action>, more: seq<Action>)
    ensures ActAll(p, g, first + more) == ActAll(p, ActAll(p, g, first), more)
    decreases |more|
  {
    if more == [] {
      assert first + more == first;
    } else {
      ActAllConcat(p, g, first, more[..|more| - 1]);
      assert (first + more)[..|first + more| - 1] == first + more[..|more| - 1];
    }
  }

  lemma HandlerUnfolds(p: Policy, g: Group, m: nat, outcomes: seq<bool>, ackOk: bool)
    ensures outcomes == [] ==>
              ActAll(p, g, HandlerActions(m, outcomes, ackOk)) == Act(p, Act(p, g, DeadLetter(m)), Ack(m, ackOk))
    ensures outcomes != [] && outcomes[0] ==>
              ActAll(p, g, HandlerActions(m, outcomes, ackOk)) == Act(p, Act(p, g, Attempt(m, true)), Ack(m, ackOk))
    ensures outcomes != [] && !outcomes[0] ==>
              ActAll(p, g, HandlerActions(m, outcomes, ackOk))
              == ActAll(p, Act(p, g, Attempt(m, false)), HandlerActions(m, outcomes[1..], ackOk))
  {
    if outcomes != [] && !outcomes[0] {
      ActAllConcat(p, g, [Attempt(m, false)], HandlerActions(m, outcomes[1..], ackOk));
      ActAllSnoc(p, g, [], Attempt(m, false));
      assert [] + [Attempt(m, false)] == [Attempt(m, false)];
    } else {
      var a := if outcomes == [] then DeadLetter(m) else Attempt(m, true);
      ActAllSnoc(p, g, [], a);
      ActAllSnoc(p, g, [a], Ack(m, ackOk));
      assert [] + [a] == [a] && [a] + [Ack(m, ackOk)] == HandlerActions(m, outcomes, ackOk);
    }
  }

  class Consumer {
    const policy: Policy
    var group: Group

    constructor (policy: Policy)
      ensures this.policy == policy && group == EmptyGroup()
    {
      this.policy, group := policy, EmptyGroup();
    }

    /** Processes one message with retries. `outcomes` says how each attempt would end. */
    method HandleEvent(m: nat, outcomes: seq<bool>, ackOk: bool)
      requires |outcomes| == policy.limit
      modifies this
      ensures group == ActAll(policy, old(group), HandlerActions(m, outcomes, ackOk))
    {
      for attempt := 0 to policy.limit
        invariant ActAll(policy, group, HandlerActions(m, outcomes[attempt..], ackOk))
               == ActAll(policy, old(group), HandlerActions(m, outcomes, ackOk))
      {
        HandlerUnfolds(policy, group, m, outcomes[attempt..], ackOk);
        assert outcomes[attempt..][1..] == outcomes[attempt + 1..];
        group := Act(policy, group, Attempt(m, outcomes[attempt]));
        if outcomes[attempt] {
          group := Act(policy, group, Ack(m, ackOk));
          return;
        }
      }
      HandlerUnfolds(policy, group, m, outcomes[policy.limit..], ackOk);
      group := Act(policy, group, DeadLetter(m));
      group := Act(policy, group, Ack(m, ackOk));
    }
  }

  /** A message in the hands of its handler, whose acknowledgement gets through, ends up
      acknowledged: after its first success, or dead-lettered after the last failure. */
  lemma {:induction false} HandledMessageIsAcked(p: Policy, g: Group, m: nat, outcomes: seq<bool>)
    requires InPhase(g, m, Handling) && m in g.pending && |g.attempts[m]| + |outcomes| == p.limit
    ensures m in ActAll(p, g, HandlerActions(m, outcomes, true)).acked
    ensures InPhase(ActAll(p, g, HandlerActions(m, outcomes, true)), m,
                    if true in outcomes then Succeeded else DeadLettered)
    decreases |outcomes|
  {
    HandlerUnfolds(p, g, m, outcomes, true);
    if outcomes != [] && !outcomes[0] {
      HandledMessageIsAcked(p, Act(p, g, Attempt(m, false)), m, outcomes[1..]);
    }
  }

  /** The outcomes up to the first success. */
  function Tried(outcomes: seq<bool>): seq<bool> {
    if outcomes == [] then [] else if outcomes[0] then [true] else [false] + Tried(outcomes[1..])
  }

  lemma {:induction false} TriedIsPrefix(outcomes: seq<bool>)
    ensures Tried(outcomes) <= outcomes
    ensures true !in outcomes ==> Tried(outcomes) == outcomes
    ensures true in outcomes ==> EndsInSuccess(Tried(outcomes))
  {
    if outcomes != [] && !outcomes[0] {
      TriedIsPrefix(outcomes[1..]);
      assert outcomes == [outcomes[0]] + outcomes[1..];
      if true in outcomes {
        var rest := Tried(outcomes[1..]);
        assert ([false] + rest)[..|rest|] == [false] + rest[..|rest| - 1];
      }
    }
  }

  /** The handler tries the message as often as it takes, puts it into the dead-letter stream only if
      no attempt succeeds, and leaves it pending when the acknowledgement fails. */
  lemma {:induction false} HandlerTries(p: Policy, g: Group, m: nat, outcomes: seq<bool>, ackOk: bool)
    requires InPhase(g, m, Handling) && m in g.pending && |g.attempts[m]| + |outcomes| == p.limit
    ensures var after := ActAll(p, g, HandlerActions(m, outcomes, ackOk));
            && m in after.attempts && after.attempts[m] == g.attempts[m] + Tried(outcomes)
            && after.dlq == g.dlq + (if true in outcomes then {} else {m})
            && after.pending == g.pending - (if ackOk then {m} else {})
            && after.stream == g.stream && after.next == g.next
    decreases |outcomes|
  {
    HandlerUnfolds(p, g, m, outcomes, ackOk);
    if outcomes != [] && !outcomes[0] {
      HandlerTries(p, Act(p, g, Attempt(m, false)), m, outcomes[1..], ackOk);
      assert outcomes == [outcomes[0]] + outcomes[1..];
      assert g.attempts[m] + [false] + Tried(outcomes[1..]) == g.attempts[m] + ([false] + Tried(outcomes[1..]));
    }
  }

  /** Reading delivers the messages one after the other, each to a fresh handler if it is wanted. */
  lemma ReadDelivers(p: Policy, g: Group)
    requires g.next < |g.stream|
    ensures var m, after := g.next, Act(p, g, Read);
            && after.next == m + 1 && m in after.pending && after.stream == g.stream && after.dlq == g.dlq
            && InPhase(after, m, if Wanted(p.filters, g.stream[m]) then Handling else Unwanted)
            && after.attempts[m] == []
  {
  }
}
