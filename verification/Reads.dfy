/** What reading a history stream by stream, in whatever order Redis lists the streams, does to
    the replayed state. */
module Reads {
  import opened Replay
  import opened ReplayLaws
  import opened Worker

  // --- Which events are read ----------------------------------------------------------

  lemma {:induction false} ByTenantMembers(events: seq<Event>, tenant: string)
    ensures forall e :: e in ByTenant(events, tenant) <==> e in events && StreamKey(e.tenantId) == tenant
  {
    if events != [] {
      ByTenantMembers(Front(events), tenant);
      assert events == Front(events) + [Last(events)];
    }
  }

  lemma {:induction false} GatheredMembers(events: seq<Event>, tenants: seq<string>)
    ensures forall e :: e in Gathered(events, tenants) <==> e in events && StreamKey(e.tenantId) in tenants
  {
    if tenants != [] {
      GatheredMembers(events, Front(tenants));
      ByTenantMembers(events, Last(tenants));
      assert tenants == Front(tenants) + [Last(tenants)];
    }
  }

  lemma {:induction false} OneTenant(events: seq<Event>, tenant: string, t: string)
    requires forall e | e in events :: StreamKey(e.tenantId) == tenant
    ensures ByTenant(events, t) == if t == tenant then events else []
  {
    if events != [] {
      assert events == Front(events) + [Last(events)];
      OneTenant(Front(events), tenant, t);
    }
  }

  /** Events of a single stream are read in the order of their publication. */
  lemma {:induction false} GatheredAlone(events: seq<Event>, tenants: seq<string>, tenant: string)
    requires Distinct(tenants) && forall e | e in events :: StreamKey(e.tenantId) == tenant
    ensures Gathered(events, tenants) == if tenant in tenants then events else []
  {
    if tenants != [] {
      assert tenants == Front(tenants) + [Last(tenants)];
      GatheredAlone(events, Front(tenants), tenant);
      OneTenant(events, tenant, Last(tenants));
    }
  }

  lemma {:induction false} NoEvents(events: seq<Event>, tenant: string)
    requires forall e | e in events :: StreamKey(e.tenantId) != tenant
    ensures ByTenant(events, tenant) == []
  {
    if events != [] {
      assert events == Front(events) + [Last(events)];
      NoEvents(Front(events), tenant);
    }
  }

  /** Events of two streams are read one stream after the other. */
  lemma {:induction false} GatheredPair(events: seq<Event>, tenants: seq<string>, a: string, b: string)
    requires Distinct(tenants) && a != b && forall e | e in events :: StreamKey(e.tenantId) in {a, b}
    ensures var own, rest := ByTenant(events, a), ByTenant(events, b);
            var read := Gathered(events, tenants);
            && (a !in tenants && b !in tenants ==> read == [])
            && (a in tenants && b !in tenants ==> read == own)
            && (a !in tenants && b in tenants ==> read == rest)
            && (a in tenants && b in tenants ==> read == own + rest || read == rest + own)
  {
    if tenants != [] {
      assert tenants == Front(tenants) + [Last(tenants)];
      GatheredPair(events, Front(tenants), a, b);
      if Last(tenants) !in {a, b} {
        NoEvents(events, Last(tenants));
      }
    }
  }

  // --- Completed tasks ----------------------------------------------------------------

  lemma {:induction false} DistinctCount(names: seq<string>)
    requires Distinct(names)
    ensures |set n | n in names| == |names|
  {
    if names != [] {
      DistinctCount(Front(names));
      assert names == Front(names) + [Last(names)];
      assert Last(names) !in Front(names);
      assert (set n | n in names) == (set n | n in Front(names)) + {Last(names)};
    }
  }

  /** Two histories of the same events have completed the same tasks, in whatever order. */
  lemma SameEventsSameDone(h: seq<Event>, g: seq<Event>)
    requires forall e :: e in h <==> e in g
    ensures forall name :: name in Done(h) <==> name in Done(g)
    ensures |Done(h)| == |Done(g)|
  {
    forall name | name in Done(h) ensures name in Done(g) {
      DoneInBoth(h, g, name);
    }
    forall name | name in Done(g) ensures name in Done(h) {
      DoneInBoth(g, h, name);
    }
    DoneIsDistinct(Successes(h));
    DoneIsDistinct(Successes(g));
    DistinctCount(Done(h));
    DistinctCount(Done(g));
    assert (set n | n in Done(h)) == (set n | n in Done(g));
  }

  lemma DoneInBoth(h: seq<Event>, g: seq<Event>, name: string)
    requires name in Done(h) && forall e | e in h :: e in g
    ensures name in Done(g)
  {
    var i := DoneIsSuccess(h, name);
    assert h[i] in g;
    SuccessIsDone(g, h[i]);
  }

  predicate IsStray(e: Event, own: string) {
    IsSuccess(e) && StreamKey(e.tenantId) != own
  }

  /** Every success outside the own stream repeats a completed task. */
  predicate StraysRepeat(h: seq<Event>, own: string) {
    forall i | 0 <= i < |h| && IsStray(h[i], own) :: TaskName(h[i].data.fields) in Done(h[..i])
  }

  lemma StraysRepeatSnoc(h: seq<Event>, e: Event, own: string)
    ensures StraysRepeat(h + [e], own)
            <==> StraysRepeat(h, own) && (IsStray(e, own) ==> TaskName(e.data.fields) in Done(h))
  {
    var longer := h + [e];
    assert longer[..|h|] == h && longer[|h|] == e;
    assert forall i | 0 <= i < |h| :: longer[..i] == h[..i] && longer[i] == h[i];
  }

  /** Then the own stream alone gives the completed list. */
  lemma {:induction false} OwnStreamDecides(h: seq<Event>, own: string)
    requires StraysRepeat(h, own)
    ensures Done(ByTenant(h, own)) == Done(h)
  {
    if h != [] {
      var front, e := Front(h), Last(h);
      assert h == front + [e];
      StraysRepeatSnoc(front, e, own);
      OwnStreamDecides(front, own);
      DoneSnoc(front, e);
      ByTenantSnoc(front, e, own);
      DoneSnoc(ByTenant(front, own), e);
      assert ByTenant(front, own) + [] == ByTenant(front, own);
    }
  }

  lemma {:induction false} RepeatsAfterwards(h: seq<Event>, more: seq<Event>)
    requires forall e | e in more && IsSuccess(e) :: TaskName(e.data.fields) in Done(h)
    ensures Done(h + more) == Done(h)
  {
    if more == [] {
      assert h + more == h;
    } else {
      assert more == Front(more) + [Last(more)];
      RepeatsAfterwards(h, Front(more));
      assert h + more == (h + Front(more)) + [Last(more)];
      DoneSnoc(h + Front(more), Last(more));
    }
  }

  function Added(done: seq<string>, e: Event): seq<string> {
    if IsSuccess(e) && TaskName(e.data.fields) !in done then done + [TaskName(e.data.fields)] else done
  }

  lemma AddedBeforehand(before: seq<string>, done: seq<string>, e: Event, first: string)
    requires before <= [first] && (Added(done, e) != [] ==> Added(done, e)[0] == first)
    ensures Added(if done == [] then before else done, e) == if Added(done, e) == [] then before else Added(done, e)
  {
    assert before == [] || before == [first];
  }

  /** Reading repeats of the first completed task beforehand does not change the list. */
  lemma {:induction false} RepeatsBeforehand(before: seq<Event>, h: seq<Event>, first: string)
    requires Done(before) <= [first] && (Done(h) != [] ==> Done(h)[0] == first)
    ensures Done(before + h) == if Done(h) == [] then Done(before) else Done(h)
    decreases |h|
  {
    if h == [] {
      assert before + h == before;
    } else {
      var front, e := Front(h), Last(h);
      assert h == front + [e] && before + h == (before + front) + [e];
      DoneSnoc(front, e);
      DoneSnoc(before + front, e);
      assert Done(h) == Added(Done(front), e);
      RepeatsBeforehand(before, front, first);
      AddedBeforehand(Done(before), Done(front), e, first);
    }
  }

  lemma {:induction false} OnlyOneName(h: seq<Event>, name: string)
    requires forall e | e in h && IsSuccess(e) :: TaskName(e.data.fields) == name
    ensures Done(h) <= [name]
  {
    if h != [] {
      assert h == Front(h) + [Last(h)];
      OnlyOneName(Front(h), name);
      DoneSnoc(Front(h), Last(h));
    }
  }

  /** Two streams whose strays all repeat the first completed task replay to the completed list
      of the publication order, whichever is read first. */
  lemma StraysDoNotReorder(h: seq<Event>, tenants: seq<string>, own: string, other: string, first: string)
    requires Distinct(tenants) && own != other
    requires forall e | e in h :: StreamKey(e.tenantId) in {own, other} && StreamKey(e.tenantId) in tenants
    requires StraysRepeat(h, own)
    requires forall e | e in h && IsStray(e, own) :: TaskName(e.data.fields) == first
    requires Done(h) != [] ==> Done(h)[0] == first
    ensures Done(Gathered(h, tenants)) == Done(h)
  {
    var mine, rest := ByTenant(h, own), ByTenant(h, other);
    GatheredPair(h, tenants, own, other);
    if own !in tenants {
      NoEvents(h, own);
    }
    if other !in tenants {
      NoEvents(h, other);
    }
    assert mine + [] == mine && [] + rest == rest;
    OwnStreamDecides(h, own);
    ByTenantMembers(h, other);
    forall e | e in rest && IsSuccess(e) ensures TaskName(e.data.fields) == first && first in Done(mine) {
      SuccessIsDone(h, e);
    }
    RepeatsAfterwards(mine, rest);
    OnlyOneName(rest, first);
    RepeatsBeforehand(rest, mine, first);
    if Done(mine) == [] && Done(rest) != [] {
      var i := DoneIsSuccess(rest, Done(rest)[0]);
      assert rest[i] in rest;
    }
  }

  // --- Pending tasks ------------------------------------------------------------------

  predicate RequestsAreOwn(h: seq<Event>, own: string) {
    forall e | e in h && IsRequest(e) :: StreamKey(e.tenantId) == own
  }

  lemma OutstandingSnoc(h: seq<Event>, e: Event, name: string)
    ensures var before := Outstanding(h, name);
            Outstanding(h + [e], name) ==
            if Requests(e, name) then before + 1
            else if IsSuccess(e) && TaskName(e.data.fields) == name && before > 0 then before - 1
            else before
  {
    assert Front(h + [e]) == h;
  }

  lemma {:induction false} OutstandingAfterNone(h: seq<Event>, more: seq<Event>, name: string)
    requires Outstanding(h, name) == 0
    ensures Outstanding(h + more, name) == Outstanding(more, name)
    decreases |more|
  {
    if more == [] {
      assert h + more == h;
    } else {
      OutstandingAfterNone(h, Front(more), name);
      assert Front(h + more) == h + Front(more) && Last(h + more) == Last(more);
    }
  }

  lemma {:induction false} OutstandingWithoutRequests(h: seq<Event>, more: seq<Event>, name: string)
    requires forall i | 0 <= i < |more| :: !Requests(more[i], name)
    ensures Outstanding(h + more, name) <= Outstanding(h, name)
    decreases |more|
  {
    if more == [] {
      assert h + more == h;
    } else {
      OutstandingWithoutRequests(h, Front(more), name);
      assert Front(h + more) == h + Front(more) && Last(h + more) == Last(more);
    }
  }

  /** Whatever order the streams are read in, no task is pending more often than its own stream
      leaves it outstanding. */
  lemma {:induction false} OutstandingInReads(h: seq<Event>, tenants: seq<string>, own: string, name: string)
    requires Distinct(tenants) && RequestsAreOwn(h, own)
    ensures Outstanding(Gathered(h, tenants), name) <= Outstanding(ByTenant(h, own), name)
    ensures own !in tenants ==> Outstanding(Gathered(h, tenants), name) == 0
  {
    if tenants != [] {
      assert tenants == Front(tenants) + [Last(tenants)];
      OutstandingInReads(h, Front(tenants), own, name);
      ByTenantMembers(h, Last(tenants));
      if Last(tenants) == own {
        OutstandingAfterNone(Gathered(h, Front(tenants)), ByTenant(h, own), name);
      } else {
        var other := ByTenant(h, Last(tenants));
        forall i | 0 <= i < |other| ensures !Requests(other[i], name) {
          assert other[i] in other;
        }
        OutstandingWithoutRequests(Gathered(h, Front(tenants)), other, name);
      }
    }
  }

  /** Nothing outstanding means nothing pending. */
  lemma NothingPending(id: string, h: seq<Event>)
    requires forall name :: Outstanding(h, name) == 0
    ensures Rebuilt(id, h).pending == []
  {
    var pending := Rebuilt(id, h).pending;
    if pending != [] {
      var name := pending[0].name;
      PendingIsOutstanding(id, h, name);
      CountedIsPending(pending, name);
    }
  }
}
