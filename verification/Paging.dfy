/** Listing workflows: filtering and paging in api/internal/services/workflow_service.go and the
    page metadata of api/internal/models/workflow.go. */
module Paging {
  import opened Int64

  // --- Filtering ----------------------------------------------------------------------

  /** A filter the request gives, with the test it puts to a workflow. */
  datatype Filter<!T> = Filter(key: string, test: T -> bool)

  predicate Passes<T>(w: T, filters: seq<Filter<T>>) {
    forall i | 0 <= i < |filters| :: filters[i].test(w)
  }

  function Filtered<T>(workflows: seq<T>, filters: seq<Filter<T>>): seq<T> {
    if workflows == [] then []
    else
      var last := workflows[|workflows| - 1];
      Filtered(workflows[..|workflows| - 1], filters) + if Passes(last, filters) then [last] else []
  }

  function Keys<T>(filters: seq<Filter<T>>): set<string> {
    set i | 0 <= i < |filters| :: filters[i].key
  }

  /** The applied filters are recorded inside the loop, so an empty list records none. */
  method ApplyWorkflowFilters<T>(workflows: seq<T>, filters: seq<Filter<T>>)
    returns (filtered: seq<T>, applied: set<string>)
    ensures filtered == Filtered(workflows, filters)
    ensures applied == if workflows == [] then {} else Keys(filters)
    ensures forall key :: key in applied <==> workflows != [] && exists i :: 0 <= i < |filters| && filters[i].key == key
  {
    filtered, applied := [], {};
    for i := 0 to |workflows|
      invariant filtered == Filtered(workflows[..i], filters)
      invariant applied == if i == 0 then {} else Keys(filters)
    {
      var kept := true;
      for j := 0 to |filters|
        invariant kept == Passes(workflows[i], filters[..j])
        invariant applied == (if i == 0 then {} else Keys(filters)) + Keys(filters[..j])
      {
        if !filters[j].test(workflows[i]) {
          kept := false;
        }
        assert filters[..j + 1] == filters[..j] + [filters[j]];
        applied := applied + {filters[j].key};
      }
      assert filters[..|filters|] == filters;
      assert workflows[..i + 1][..i] == workflows[..i];
      if kept {
        filtered := filtered + [workflows[i]];
      }
    }
    assert workflows[..|workflows|] == workflows;
  }

  /** Filtering keeps every copy of a workflow that passes all filters, and no other. */
  lemma {:induction false} FilteredKeepsWhatPasses<T>(workflows: seq<T>, filters: seq<Filter<T>>, w: T)
    ensures multiset(Filtered(workflows, filters))[w] == if Passes(w, filters) then multiset(workflows)[w] else 0
  {
    if workflows != [] {
      var front, last := workflows[..|workflows| - 1], workflows[|workflows| - 1];
      FilteredKeepsWhatPasses(front, filters, w);
      assert workflows == front + [last];
    }
  }

  /** Filtering goes through the list in order: what is kept of two lists together is what is kept
      of each, one after the other. */
  lemma {:induction false} FilteringKeepsOrder<T>(first: seq<T>, more: seq<T>, filters: seq<Filter<T>>)
    ensures Filtered(first + more, filters) == Filtered(first, filters) + Filtered(more, filters)
    decreases |more|
  {
    if more == [] {
      assert first + more == first;
    } else {
      var front, last := more[..|more| - 1], more[|more| - 1];
      FilteringKeepsOrder(first, front, filters);
      assert (first + more)[..|first + more| - 1] == first + front;
    }
  }

  /** A workflow by itself is kept if it passes every filter's test. */
  lemma OneIsKept<T>(w: T, filters: seq<Filter<T>>)
    ensures Filtered([w], filters) == if forall f | f in filters :: f.test(w) then [w] else []
  {
    assert [w][..0] == [];
    assert forall i | 0 <= i < |filters| :: filters[i] in filters;
  }

  // --- Paging -------------------------------------------------------------------------

  /** Zero stands for a parameter that was not given. */
  datatype Params = Params(limit: int, offset: int, page: int, size: int)

  /** What binding the query parameters lets through. */
  predicate Bound(p: Params) {
    0 <= p.limit <= 100 && 0 <= p.offset < TWO_63 && 0 <= p.page < TWO_63 && 0 <= p.size <= 100
  }

  predicate ByPage(p: Params) {
    p.page > 0 && p.size > 0
  }

  function LimitOf(p: Params): int {
    if ByPage(p) then p.size else if p.limit == 0 then 20 else p.limit
  }

  function OffsetOf(p: Params): int {
    if ByPage(p) then Wrap((p.page - 1) * p.size) else p.offset
  }

  /** Where the requested items begin. */
  function Place(p: Params): (place: nat)
    requires Bound(p)
  {
    if ByPage(p) then NonNegative(p.page - 1, p.size); (p.page - 1) * p.size else p.offset
  }

  lemma NonNegative(a: nat, b: nat)
    ensures 0 <= a * b
  {
  }

  /** Slicing outside the list panics. */
  datatype Listed<T> = Items(items: seq<T>) | Panics

  function Paginated<T>(list: seq<T>, p: Params): Listed<T> {
    if OffsetOf(p) >= |list| then Items([])
    else
      var end := Wrap(OffsetOf(p) + LimitOf(p));
      Slice(list, OffsetOf(p), if end > |list| then |list| else end)
  }

  function Slice<T>(list: seq<T>, from: int, to: int): Listed<T> {
    if 0 <= from <= to <= |list| then Items(list[from..to]) else Panics
  }

  /** The items of `list` whose index lies in from ..< from + count. */
  function Window<T>(list: seq<T>, from: nat, count: nat): seq<T> {
    if from >= |list| then [] else if from + count >= |list| then list[from..] else list[from..from + count]
  }

  /** A window holds the items from its place on, as many as there are up to the count. */
  lemma WindowHolds<T>(list: seq<T>, from: nat, count: nat, i: nat)
    ensures |Window(list, from, count)|
            == if from >= |list| then 0 else if |list| - from < count then |list| - from else count
    ensures i < |Window(list, from, count)| ==> Window(list, from, count)[i] == list[from + i]
  {
  }

  /** A page has the size asked for; otherwise the limit counts, which is 20 when not given. */
  lemma LimitIs(p: Params)
    ensures p.page > 0 && p.size > 0 ==> LimitOf(p) == p.size
    ensures !(p.page > 0 && p.size > 0) && p.limit == 0 ==> LimitOf(p) == 20
    ensures !(p.page > 0 && p.size > 0) && p.limit != 0 ==> LimitOf(p) == p.limit
  {
  }

  /** A Go slice of records is far from filling the address space. */
  predicate Addressable<T>(list: seq<T>) {
    |list| < TWO_63 - 100
  }

  method PaginateWorkflows<T>(list: seq<T>, p: Params) returns (page: Listed<T>)
    ensures page == Paginated(list, p)
    ensures Bound(p) && Addressable(list) && Fits(Place(p)) ==> page == Items(Window(list, Place(p), LimitOf(p)))
    ensures Bound(p) && Addressable(list) ==> (page.Panics? <==> OffsetOf(p) < 0)
  {
    var limit, offset;
    if p.page > 0 && p.size > 0 {
      limit := p.size;
      offset := Wrap((p.page - 1) * p.size);
    } else {
      limit := p.limit;
      if limit == 0 {
        limit := 20;
      }
      offset := p.offset;
    }
    if offset >= |list| {
      PageAtPlace(list, p);
      return Items([]);
    }
    var end := Wrap(offset + limit);
    if end > |list| {
      end := |list|;
    }
    page := Slice(list, offset, end);
    PageAtPlace(list, p);
  }

  /** A page holds the items at its place if the place fits in 64 bits. */
  lemma PageAtPlace<T>(list: seq<T>, p: Params)
    ensures Bound(p) && Addressable(list) && Fits(Place(p)) ==>
              Paginated(list, p) == Items(Window(list, Place(p), LimitOf(p)))
  {
    if Bound(p) && Addressable(list) && Fits(Place(p)) {
      if ByPage(p) {
        PageIsRightIff(list, p);
      } else {
        OffsetPageIsRight(list, p);
      }
    }
  }

  /** A page holds the items at its place in the list if and only if its offset fits in 64 bits
      or wraps to a place behind the list. */
  lemma {:induction false} PageIsRightIff<T>(list: seq<T>, p: Params)
    requires Bound(p) && ByPage(p) && Addressable(list)
    ensures 0 <= (p.page - 1) * p.size
    ensures Paginated(list, p) == Items(Window(list, (p.page - 1) * p.size, p.size))
            <==> Fits((p.page - 1) * p.size) || Wrap((p.page - 1) * p.size) >= |list|
  {
    NonNegative(p.page - 1, p.size);
    var exact := (p.page - 1) * p.size;
    var offset := Wrap(exact);
    if !Fits(exact) {
      assert Window(list, exact, p.size) == [];
      if 0 <= offset < |list| {
        assert |Paginated(list, p).items| > 0;
      }
    }
  }

  /** By offset there is no such condition. */
  lemma {:induction false} OffsetPageIsRight<T>(list: seq<T>, p: Params)
    requires Bound(p) && !ByPage(p) && Addressable(list)
    ensures Paginated(list, p) == Items(Window(list, p.offset, LimitOf(p)))
  {
  }

  // --- Metadata -----------------------------------------------------------------------

  datatype Meta = Meta(
    total: int, limit: int, offset: int, page: int, size: int, totalPages: int, hasNext: bool, hasPrevious: bool)

  function TotalPages(count: nat, limit: nat): (n: nat)
    requires limit > 0
  {
    if (count + limit - 1) / limit == 0 then 1 else (count + limit - 1) / limit
  }

  method NewPaginationMeta(total: nat, filteredCount: nat, p: Params) returns (m: Meta)
    requires Bound(p) && filteredCount < TWO_63 - 100
    ensures m.total == total && m.limit == m.size == LimitOf(p) && m.offset == OffsetOf(p)
    ensures m.totalPages == TotalPages(filteredCount, m.limit) && filteredCount <= m.totalPages * m.limit
    ensures m.totalPages > 1 ==> (m.totalPages - 1) * m.limit < filteredCount
    ensures ByPage(p) ==> m.page == p.page
    ensures !ByPage(p) ==> (m.page - 1) * m.limit <= p.offset < m.page * m.limit
    ensures m.hasNext == HasNext(filteredCount, p) && m.hasPrevious == HasPrevious(p)
    ensures Fits(Place(p) + m.limit) ==>
              m.hasNext == (Place(p) + m.limit < filteredCount) && m.hasPrevious == (Place(p) > 0)
  {
    var limit, offset, page, size;
    if p.page > 0 && p.size > 0 {
      page, size := p.page, p.size;
      limit := size;
      offset := Wrap((page - 1) * size);
    } else {
      limit := p.limit;
      if limit == 0 {
        limit := 20;
      }
      offset := p.offset;
      page, size := offset / limit + 1, limit;
      PageOfOffset(offset, limit);
    }
    var totalPages := (filteredCount + limit - 1) / limit;
    if totalPages == 0 {
      totalPages := 1;
    }
    TotalPagesIsLeast(filteredCount, limit);
    m := Meta(total, limit, offset, page, size, totalPages, Wrap(offset + limit) < filteredCount, offset > 0);
  }

  lemma PageOfOffset(offset: nat, limit: nat)
    requires limit > 0
    ensures offset / limit * limit <= offset < (offset / limit + 1) * limit
  {
    assert (offset / limit + 1) * limit == offset / limit * limit + limit;
  }

  predicate HasNext(count: nat, p: Params) {
    Wrap(OffsetOf(p) + LimitOf(p)) < count
  }

  predicate HasPrevious(p: Params) {
    OffsetOf(p) > 0
  }

  /** The number of pages is the least that holds all items. */
  lemma {:induction false} TotalPagesIsLeast(count: nat, limit: nat)
    requires limit > 0
    ensures var n := TotalPages(count, limit);
            n >= 1 && count <= n * limit && (n > 1 ==> (n - 1) * limit < count)
  {
    var n := (count + limit - 1) / limit;
    assert count + limit - 1 == n * limit + (count + limit - 1) % limit;
    assert (n - 1) * limit == n * limit - limit;
  }

  lemma Multiples(a: nat, b: nat, size: nat)
    requires a <= b
    ensures a * size <= b * size
  {
  }

  lemma NextOffset(p: Params)
    requires Bound(p) && ByPage(p)
    ensures 0 <= p.page * p.size && Wrap(OffsetOf(p) + LimitOf(p)) == Wrap(p.page * p.size)
  {
    NonNegative(p.page, p.size);
    WrapSum((p.page - 1) * p.size, p.size);
    assert (p.page - 1) * p.size + p.size == p.page * p.size;
  }

  /** A next page is announced before the last page and no other, if and only if the next offset
      fits in 64 bits or wraps to a place behind the items. */
  lemma {:induction false} NextPageIff(count: nat, p: Params)
    requires Bound(p) && ByPage(p) && count < TWO_63
    ensures (HasNext(count, p) <==> p.page < TotalPages(count, p.size))
            <==> Fits(p.page * p.size) || Wrap(p.page * p.size) >= count
  {
    var n := TotalPages(count, p.size);
    NextOffset(p);
    TotalPagesIsLeast(count, p.size);
    if p.page < n {
      Multiples(p.page, n - 1, p.size);
    } else {
      Multiples(n, p.page, p.size);
    }
  }

  /** A previous page is announced behind the first page and no other, if and only if the offset
      fits in 64 bits or wraps to a place behind the first. */
  lemma {:induction false} PreviousPageIff(p: Params)
    requires Bound(p) && ByPage(p)
    ensures (HasPrevious(p) <==> p.page > 1)
            <==> Fits((p.page - 1) * p.size) || Wrap((p.page - 1) * p.size) > 0
  {
    NonNegative(p.page - 1, p.size);
    if p.page > 1 {
      Multiples(1, p.page - 1, p.size);
    }
  }

  /** A next page is announced exactly if asking for it does not come back empty. */
  lemma {:induction false} NextPageHasItems<T>(list: seq<T>, p: Params)
    requires Bound(p) && ByPage(p) && Addressable(list)
    ensures HasNext(|list|, p) <==> Paginated(list, p.(page := p.page + 1)) != Items([])
  {
    NextOffset(p);
    var next := p.(page := p.page + 1);
    assert OffsetOf(next) == Wrap(p.page * p.size);
    if 0 <= OffsetOf(next) < |list| {
      assert |Paginated(list, next).items| > 0;
    }
  }

  /** The pages 1 to `n` put together. */
  function Pages<T>(list: seq<T>, size: int, n: nat): seq<T> {
    if n == 0 then []
    else
      Pages(list, size, n - 1)
      + match Paginated(list, Params(0, 0, n, size)) case Items(items) => items case Panics => []
  }

  lemma PageInRange<T>(list: seq<T>, size: int, n: nat, from: int)
    requires 1 <= size <= 100 && Addressable(list) && 1 <= n <= TotalPages(|list|, size) && from == (n - 1) * size
    ensures 0 <= from <= |list| && Paginated(list, Params(0, 0, n, size)) == Items(Window(list, from, size))
  {
    NonNegative(n - 1, size);
    TotalPagesIsLeast(|list|, size);
    Multiples(n - 1, TotalPages(|list|, size) - 1, size);
    Multiples(1, size, n - 1);
    PageIsRightIff(list, Params(0, 0, n, size));
  }

  lemma WindowsJoin<T>(list: seq<T>, a: nat, b: nat)
    requires a <= |list|
    ensures Window(list, 0, a) + Window(list, a, b) == Window(list, 0, a + b)
  {
  }

  lemma {:induction false} PagesArePrefix<T>(list: seq<T>, size: int, n: nat, to: nat)
    requires 1 <= size <= 100 && Addressable(list) && n <= TotalPages(|list|, size) && to == n * size
    ensures Pages(list, size, n) == Window(list, 0, to)
    ensures forall k | 1 <= k <= n :: Paginated(list, Params(0, 0, k, size)).Items?
  {
    if n == 0 {
      assert Window(list, 0, 0) == [];
    } else {
      NonNegative(n - 1, size);
      var from := (n - 1) * size;
      assert to == from + size;
      PagesArePrefix(list, size, n - 1, from);
      PageInRange(list, size, n, from);
      WindowsJoin(list, from, size);
    }
  }

  /** The pages 1 to the last, put together, are the list: nothing is lost and nothing repeated. */
  lemma {:induction false} PagesCoverTheList<T>(list: seq<T>, size: int)
    requires 1 <= size <= 100 && Addressable(list)
    ensures Pages(list, size, TotalPages(|list|, size)) == list
    ensures forall k | 1 <= k <= TotalPages(|list|, size) :: Paginated(list, Params(0, 0, k, size)).Items?
  {
    TotalPagesIsLeast(|list|, size);
    PagesArePrefix(list, size, TotalPages(|list|, size), TotalPages(|list|, size) * size);
  }

  /** By offset, the page number fits the neighbours for every number of items if and only if the
      offset is a multiple of the limit and the next offset fits in 64 bits. */
  lemma {:induction false} OffsetPageNumberIsRightIff(p: Params)
    requires Bound(p) && !ByPage(p)
    ensures (forall count: nat :: NumberFits(count, p))
            <==> p.offset % LimitOf(p) == 0 && Fits(p.offset + LimitOf(p))
  {
    if !Fits(p.offset + LimitOf(p)) {
      WrappedMisses(p);
    } else if p.offset % LimitOf(p) == 0 {
      forall count: nat ensures NumberFits(count, p) {
        MultipleFits(count, p);
      }
    } else {
      BrokenMisses(p);
    }
  }

  lemma WrappedMisses(p: Params)
    requires Bound(p) && !ByPage(p) && !Fits(p.offset + LimitOf(p))
    ensures !NumberFits(0, p)
  {
    assert Wrap(p.offset + LimitOf(p)) < 0 && TotalPages(0, LimitOf(p)) == 1;
  }

  lemma MultipleFits(count: nat, p: Params)
    requires Bound(p) && !ByPage(p) && Fits(p.offset + LimitOf(p)) && p.offset % LimitOf(p) == 0
    ensures NumberFits(count, p)
  {
    WholePages(count, LimitOf(p), p.offset / LimitOf(p));
  }

  lemma BrokenMisses(p: Params)
    requires Bound(p) && !ByPage(p) && Fits(p.offset + LimitOf(p)) && p.offset % LimitOf(p) != 0
    ensures !NumberFits(p.offset + LimitOf(p), p)
  {
    BrokenPage(p.offset, LimitOf(p));
  }

  lemma NextPlace(limit: nat, q: nat)
    ensures (q + 1) * limit == q * limit + limit
  {
  }

  lemma WholePages(count: nat, limit: nat, q: nat)
    requires limit > 0
    ensures q * limit + limit < count <==> q + 1 < TotalPages(count, limit)
  {
    var n := TotalPages(count, limit);
    TotalPagesIsLeast(count, limit);
    NextPlace(limit, q);
    if q + 1 < n {
      Multiples(q + 1, n - 1, limit);
    } else {
      Multiples(n, q + 1, limit);
    }
  }

  /** As many items as reach from the start of the list to the next offset take one page more. */
  lemma BrokenPage(offset: nat, limit: nat)
    requires limit > 0 && offset % limit != 0
    ensures offset / limit + 1 < TotalPages(offset + limit, limit)
  {
    MorePages(offset + limit, limit, offset / limit, offset % limit);
  }

  lemma MorePages(count: nat, limit: nat, q: nat, r: nat)
    requires 0 < r < limit && count == q * limit + r + limit
    ensures q + 1 < TotalPages(count, limit)
  {
    TotalPagesIsLeast(count, limit);
    NextPlace(limit, q);
    if TotalPages(count, limit) <= q + 1 {
      Multiples(TotalPages(count, limit), q + 1, limit);
    }
  }

  predicate NumberFits(count: nat, p: Params)
    requires Bound(p)
  {
    HasNext(count, p) <==> p.offset / LimitOf(p) + 1 < TotalPages(count, LimitOf(p))
  }
}
