/** How an execution's completed tasks fill the task list, in any order in which put-off retries
    and workers may complete them. */
module Progress {
  import opened Replay
  import opened Worker
  import opened ReplayLaws
  import opened Protocol
  import opened Reads

  // --- Which put-off retries matter ---------------------------------------------------

  /** A put-off retry of the j-th task adds a name that is not the name of an earlier task. */
  ghost predicate AddsName(cfg: Config, j: nat)
    requires j < |TaskList(cfg.def)|
  {
    PutsOff(cfg, TaskList(cfg.def)[j]) && Attainable(cfg, j)
    && RetryName(TaskList(cfg.def)[j]) !in TaskList(cfg.def)[..j]
  }

  /** Such a retry's name is that of the task right behind, or there is no task behind: so it never
      displaces another task. */
  ghost predicate InStep(cfg: Config) {
    cfg.wf != "" && forall j | 0 <= j < |TaskList(cfg.def)| && AddsName(cfg, j) ::
      j + 1 == |TaskList(cfg.def)| || TaskList(cfg.def)[j + 1] == RetryName(TaskList(cfg.def)[j])
  }

  /** Only the last task adds such a name. */
  ghost predicate LastOnly(cfg: Config) {
    cfg.wf != "" && forall j | 0 <= j < |TaskList(cfg.def)| && AddsName(cfg, j) :: j + 1 == |TaskList(cfg.def)|
  }

  /** The same where every task before can start by itself. */
  ghost predicate DelayAt(cfg: Config, j: nat)
    requires j < |TaskList(cfg.def)|
  {
    PutsOffAt(cfg, j) && RetryName(TaskList(cfg.def)[j]) !in TaskList(cfg.def)[..j]
  }

  ghost predicate DelaysRetries(cfg: Config) {
    exists j | 0 <= j < |TaskList(cfg.def)| :: DelayAt(cfg, j)
  }

  /** No put-off retry adds a name of its own. */
  ghost predicate Plain(cfg: Config) {
    cfg.wf != "" && !DelaysRetries(cfg)
  }

  /** Where no task is completed by the retry of the task before, what is attained is reached. */
  lemma AttainedIsReached(cfg: Config, j: nat) returns (i: nat)
    requires j < |TaskList(cfg.def)| && Attainable(cfg, j)
    ensures Reachable(cfg.def, j) || (i + 1 <= j && DelayAt(cfg, i))
  {
    i := FirstStuck(cfg, j);
    if i < j {
      assert CanPass(cfg, i);
      i := i - 1;
      RetryPasses(cfg, TaskList(cfg.def), j, i);
    }
  }

  lemma RetryPasses(cfg: Config, list: seq<string>, j: nat, i: nat)
    requires list == TaskList(cfg.def) && i + 1 < j < |list| && Distinct(list[..j + 1])
    requires forall k | 0 <= k <= i :: CanStart(cfg.def, list[k])
    requires PutsOff(cfg, list[i]) && list[i + 1] == RetryName(list[i])
    ensures DelayAt(cfg, i)
  {
    UpToRetry(list, j + 1, i);
    OwnNameDelays(cfg, list, i, list[i + 1]);
  }

  lemma OwnNameDelays(cfg: Config, list: seq<string>, i: nat, retry: string)
    requires list == TaskList(cfg.def) && i < |list| && PutsOff(cfg, list[i]) && Distinct(list[..i + 1])
    requires forall k | 0 <= k <= i :: CanStart(cfg.def, list[k])
    requires retry == RetryName(list[i]) && retry !in list[..i]
    ensures DelayAt(cfg, i)
  {
  }

  lemma UpToRetry(list: seq<string>, n: nat, i: nat)
    requires i + 1 < n <= |list| && Distinct(list[..n])
    ensures Distinct(list[..i + 1]) && list[i + 1] !in list[..i]
  {
    DistinctUpTo(list, n, i + 1);
    NewAt(list, n, i + 1);
    assert list[..i] <= list[..i + 1];
  }

  lemma DistinctUpTo(list: seq<string>, n: nat, m: nat)
    requires m <= n <= |list| && Distinct(list[..n])
    ensures Distinct(list[..m])
  {
    assert forall i | 0 <= i < m :: list[..m][i] == list[..n][i];
  }

  lemma NewAt(list: seq<string>, n: nat, m: nat)
    requires m < n <= |list| && Distinct(list[..n])
    ensures forall i | 0 <= i < n && list[i] == list[m] :: i == m
    ensures list[m] !in list[..m]
  {
    assert forall i | 0 <= i < n :: list[..n][i] == list[i];
  }

  lemma {:induction false} FirstStuck(cfg: Config, j: nat) returns (i: nat)
    requires j < |TaskList(cfg.def)|
    ensures i <= j && (forall k | 0 <= k < i :: CanStart(cfg.def, TaskList(cfg.def)[k]))
    ensures i < j ==> !CanStart(cfg.def, TaskList(cfg.def)[i])
  {
    i := 0;
    if j > 0 {
      i := FirstStuck(cfg, j - 1);
      if i == j - 1 && CanStart(cfg.def, TaskList(cfg.def)[i]) {
        i := j;
      }
    }
  }

  lemma PlainIsInStep(cfg: Config)
    requires Plain(cfg)
    ensures LastOnly(cfg) && forall j | 0 <= j < |TaskList(cfg.def)| && Attainable(cfg, j) :: Reachable(cfg.def, j)
  {
    forall j | 0 <= j < |TaskList(cfg.def)| && Attainable(cfg, j) ensures Reachable(cfg.def, j) && !AddsName(cfg, j) {
      var i := AttainedIsReached(cfg, j);
      assert !DelayAt(cfg, j);
    }
  }

  lemma LastOnlyIsInStep(cfg: Config)
    requires LastOnly(cfg)
    ensures InStep(cfg)
  {
  }

  /** A task name is shorter than the name of its retry. */
  lemma RetryIsLonger(name: string)
    ensures RetryName(name) != name
  {
    assert |RetryName(name)| == |name| + 6;
  }

  // --- Where names come from ----------------------------------------------------------

  /** A requested task came in turn. */
  lemma AskedInTurn(cfg: Config, stream: seq<Event>, x: string, name: string)
    requires Ordered(cfg, stream) && x != "" && Asked(cfg, stream, x, name)
    ensures InTurn(cfg, stream, x, name) && RunsInExecutor(cfg.def, name)
  {
    var k := AskedAt(cfg, stream, x, name);
    OrderedAt(cfg, stream, k);
    TurnStays(cfg, stream, k, x, name);
  }

  lemma AskedAt(cfg: Config, stream: seq<Event>, x: string, name: string) returns (k: nat)
    requires x != "" && Asked(cfg, stream, x, name)
    ensures k < |stream| && Requests(stream[k], name)
    ensures stream[k].workflowId == cfg.wf && stream[k].executionId == x
  {
    var history := History(stream, cfg.wf, x);
    OutstandingIsBounded(history, name);
    var i :| 0 <= i < |history| && Requests(history[i], name);
    HistoryMembers(stream, cfg.wf, x);
    assert history[i] in stream;
    k :| 0 <= k < |stream| && stream[k] == history[i];
  }

  /** The task may complete: in turn, or by a put-off retry. */
  ghost predicate Due(cfg: Config, stream: seq<Event>, x: string, name: string) {
    (InTurn(cfg, stream, x, name) && CanStart(cfg.def, name)) || RetryDue(cfg, stream, x, name)
  }

  lemma SuccessIsDue(cfg: Config, stream: seq<Event>, e: Event)
    requires Ordered(cfg, stream) && EventOk(cfg, stream, e) && IsSuccess(e)
    ensures Due(cfg, stream, e.executionId, TaskName(e.data.fields))
    ensures !OfTenant(cfg, e.tenantId) ==> RetryDue(cfg, stream, e.executionId, TaskName(e.data.fields))
  {
    if e.kind.TaskCompleted? && e.source.ExecutorService? {
      AskedInTurn(cfg, stream, e.executionId, TaskName(e.data.fields));
    }
  }

  lemma DueStays(cfg: Config, stream: seq<Event>, n: nat, x: string, name: string)
    requires n <= |stream| && x != "" && Due(cfg, stream[..n], x, name)
    ensures Due(cfg, stream, x, name)
  {
    TurnStays(cfg, stream, n, x, name);
  }

  lemma {:induction false} DoneIsDue(cfg: Config, stream: seq<Event>, x: string, name: string)
    requires Ordered(cfg, stream) && x != "" && name in DoneBy(cfg, stream, x)
    ensures Due(cfg, stream, x, name)
  {
    var front, e := Front(stream), Last(stream);
    assert stream == front + [e];
    DoneBySnoc(cfg, front, e, x);
    if name in DoneBy(cfg, front, x) {
      DoneIsDue(cfg, front, x, name);
    } else {
      SuccessIsDue(cfg, front, e);
    }
    DueStays(cfg, stream, |front|, x, name);
  }

  /** The place of a requested task, which is also where its retries belong. */
  lemma PlaceOf(cfg: Config, stream: seq<Event>, x: string, task: string) returns (q: nat)
    requires Ordered(cfg, stream) && x != "" && Asked(cfg, stream, x, task)
    ensures q < |TaskList(cfg.def)| && TaskList(cfg.def)[q] == task && Ready(cfg, stream, x, q)
  {
    AskedInTurn(cfg, stream, x, task);
    q :| 0 <= q < |TaskList(cfg.def)| && TaskList(cfg.def)[q] == task && Ready(cfg, stream, x, q);
  }

  // --- The shape of the completed tasks -----------------------------------------------

  /** How many tasks from the k-th on are completed and new. */
  function Filled(list: seq<string>, done: seq<string>, k: nat): nat
    requires k <= |list|
    decreases |list| - k
  {
    if k < |list| && list[k] in done && list[k] !in list[..k] then Filled(list, done, k + 1) else k
  }

  lemma {:induction false} FilledIs(list: seq<string>, done: seq<string>, k: nat)
    requires k <= |list| && Distinct(list[..k]) && forall i | 0 <= i < k :: list[i] in done
    ensures var f := Filled(list, done, k);
            k <= f <= |list| && Distinct(list[..f]) && (forall i | 0 <= i < f :: list[i] in done)
            && (f < |list| ==> list[f] !in done || list[f] in list[..f])
    decreases |list| - k
  {
    if k < |list| && list[k] in done && list[k] !in list[..k] {
      assert list[..k + 1] == list[..k] + [list[k]];
      FilledIs(list, done, k + 1);
    }
  }

  function Fill(cfg: Config, stream: seq<Event>, x: string): nat {
    Filled(TaskList(cfg.def), DoneBy(cfg, stream, x), 0)
  }

  /** No more than that many tasks are completed from the start without repetition. */
  lemma NotFurther(list: seq<string>, done: seq<string>, q: nat)
    requires q <= |list| && Distinct(list[..q]) && forall i | 0 <= i < q :: list[i] in done
    ensures q <= Filled(list, done, 0)
  {
    var f := Filled(list, done, 0);
    FilledIs(list, done, 0);
    if f < q {
      NewAt(list, q, f);
    }
  }

  lemma ReadyIsFilled(cfg: Config, stream: seq<Event>, x: string, q: nat)
    requires q < |TaskList(cfg.def)| && Ready(cfg, stream, x, q)
    ensures q <= Fill(cfg, stream, x)
    ensures q == Fill(cfg, stream, x) <==> TaskList(cfg.def)[q] !in DoneBy(cfg, stream, x)
  {
    var list, done := TaskList(cfg.def), DoneBy(cfg, stream, x);
    DistinctUpTo(list, q + 1, q);
    NotFurther(list, done, q);
    if list[q] in done {
      NotFurther(list, done, q + 1);
    } else {
      FilledUpTo(list, done, q);
    }
  }

  lemma FilledUpTo(list: seq<string>, done: seq<string>, q: nat)
    requires q < |list| && list[q] !in done
    ensures Filled(list, done, 0) <= q
  {
    FilledIs(list, done, 0);
  }

  /** The task at the end of the filled part was requested and is open, and its put-off retry was
      completed. */
  ghost predicate Ahead(cfg: Config, stream: seq<Event>, x: string, k: nat) {
    var list, done := TaskList(cfg.def), DoneBy(cfg, stream, x);
    && k < |list| && list[k] !in done && Asked(cfg, stream, x, list[k])
    && AddsName(cfg, k) && RetryName(list[k]) in done
  }

  /** A name that is due is that of a filled task, of the retry of the open task, or of the last
      task's retry. */
  ghost predicate Near(cfg: Config, stream: seq<Event>, x: string, name: string) {
    var list, k := TaskList(cfg.def), Fill(cfg, stream, x);
    k <= |list| && (name in list[..k] || (Ahead(cfg, stream, x, k) && name == RetryName(list[k]))
                    || (0 < k == |list| && name == RetryName(list[k - 1])))
  }

  lemma DoneIsNear(cfg: Config, stream: seq<Event>, x: string, name: string)
    requires InStep(cfg) && Ordered(cfg, stream) && x != "" && name in DoneBy(cfg, stream, x)
    ensures Near(cfg, stream, x, name)
  {
    var list, done, k := TaskList(cfg.def), DoneBy(cfg, stream, x), Fill(cfg, stream, x);
    FilledIs(list, done, 0);
    DoneIsDue(cfg, stream, x, name);
    if InTurn(cfg, stream, x, name) {
      var q :| 0 <= q < |list| && list[q] == name && Ready(cfg, stream, x, q);
      ReadyIsFilled(cfg, stream, x, q);
      assert list[..k][q] == name;
    } else {
      var task :| Asked(cfg, stream, x, task) && PutsOff(cfg, task) && name == RetryName(task);
      var q := PlaceOf(cfg, stream, x, task);
      RetryIsNear(cfg, stream, x, q);
    }
  }

  lemma RetryIsNear(cfg: Config, stream: seq<Event>, x: string, q: nat)
    requires InStep(cfg) && q < |TaskList(cfg.def)| && Ready(cfg, stream, x, q)
    requires Asked(cfg, stream, x, TaskList(cfg.def)[q]) && PutsOff(cfg, TaskList(cfg.def)[q])
    requires RetryName(TaskList(cfg.def)[q]) in DoneBy(cfg, stream, x)
    ensures Near(cfg, stream, x, RetryName(TaskList(cfg.def)[q]))
  {
    var list, done, k := TaskList(cfg.def), DoneBy(cfg, stream, x), Fill(cfg, stream, x);
    var retry := RetryName(list[q]);
    FilledIs(list, done, 0);
    ReadyIsFilled(cfg, stream, x, q);
    if retry in list[..q] {
      var m :| 0 <= m < q && list[..q][m] == retry;
      assert list[..k][m] == retry;
    } else {
      assert AddsName(cfg, q);
      if q < k && q + 1 < |list| {
        assert list[q + 1] == retry;
        if q + 1 < k {
          assert list[..k][q + 1] == retry;
        }
      }
    }
  }

  /** All completed tasks are filled, or there is one more: the open task's retry, or the last's. */
  ghost predicate Shaped(cfg: Config, stream: seq<Event>, x: string) {
    var list, done, k := TaskList(cfg.def), DoneBy(cfg, stream, x), Fill(cfg, stream, x);
    && k <= |list| && Distinct(list[..k]) && (forall i | 0 <= i < k :: list[i] in done)
    && (k < |list| ==> list[k] !in done || list[k] in list[..k])
    && (|done| == k || (|done| == k + 1 && (Ahead(cfg, stream, x, k) || k == |list|)))
  }

  lemma DoneIsShaped(cfg: Config, stream: seq<Event>, x: string)
    requires InStep(cfg) && Ordered(cfg, stream) && x != ""
    ensures Shaped(cfg, stream, x)
  {
    var list, done, k := TaskList(cfg.def), DoneBy(cfg, stream, x), Fill(cfg, stream, x);
    FilledIs(list, done, 0);
    DoneIsDistinct(Successes(History(stream, cfg.wf, x)));
    forall name | name in done ensures Near(cfg, stream, x, name) {
      DoneIsNear(cfg, stream, x, name);
    }
    if extra :| extra in done && extra !in list[..k] {
      OneMore(done, list[..k], extra);
    } else {
      SameSize(done, list[..k]);
    }
  }

  lemma SameSize(done: seq<string>, filled: seq<string>)
    requires Distinct(done) && Distinct(filled)
    requires forall name :: name in done <==> name in filled
    ensures |done| == |filled|
  {
    DistinctCount(done);
    DistinctCount(filled);
    assert (set n | n in done) == (set n | n in filled);
  }

  lemma OneMore(done: seq<string>, filled: seq<string>, extra: string)
    requires Distinct(done) && Distinct(filled) && extra in done && extra !in filled
    requires forall name | name in filled :: name in done
    requires forall name | name in done :: name in filled || name == extra
    ensures |done| == |filled| + 1
  {
    SameSize(done, filled + [extra]);
  }

  lemma IsBefore(list: seq<string>, q: nat, i: nat)
    requires i < q <= |list|
    ensures list[i] in list[..q]
  {
    assert list[..q][i] == list[i];
  }

  /** The filled tasks are passed. */
  lemma FilledPass(cfg: Config, stream: seq<Event>, x: string, i: nat)
    requires InStep(cfg) && Ordered(cfg, stream) && x != "" && i < Fill(cfg, stream, x) <= |TaskList(cfg.def)|
    ensures CanPass(cfg, i)
  {
    var list, done, k := TaskList(cfg.def), DoneBy(cfg, stream, x), Fill(cfg, stream, x);
    FilledIs(list, done, 0);
    DoneIsDue(cfg, stream, x, list[i]);
    if !CanStart(cfg.def, list[i]) {
      var task :| Asked(cfg, stream, x, task) && PutsOff(cfg, task) && list[i] == RetryName(task);
      var q := PlaceOf(cfg, stream, x, task);
      ReadyIsFilled(cfg, stream, x, q);
      RetryFillsPlace(cfg, q, i, k);
    }
  }

  /** A filled task with the name of a retry is one that the retry passes. */
  lemma RetryFillsPlace(cfg: Config, q: nat, i: nat, k: nat)
    requires InStep(cfg) && i < k <= |TaskList(cfg.def)| && q <= k && q < |TaskList(cfg.def)|
    requires Distinct(TaskList(cfg.def)[..k]) && Attainable(cfg, q) && PutsOff(cfg, TaskList(cfg.def)[q])
    requires TaskList(cfg.def)[i] == RetryName(TaskList(cfg.def)[q])
    ensures CanPass(cfg, i)
  {
    var list := TaskList(cfg.def);
    RetryIsLonger(list[q]);
    NewAt(list, k, i);
    if list[i] in list[..q] {
      var m :| 0 <= m < q && list[..q][m] == list[i];
      assert m == i;
    } else {
      assert AddsName(cfg, q);
      if i < q {
        IsBefore(list, q, i);
      } else {
        assert list[q + 1] == list[i];
      }
    }
  }

  /** The first task that is neither filled nor completed is ready. */
  lemma NextIsReady(cfg: Config, stream: seq<Event>, x: string)
    requires InStep(cfg) && Ordered(cfg, stream) && x != ""
    requires var list, k := TaskList(cfg.def), Fill(cfg, stream, x);
             k < |list| && list[k] !in DoneBy(cfg, stream, x)
    ensures Ready(cfg, stream, x, Fill(cfg, stream, x))
  {
    var list, done, k := TaskList(cfg.def), DoneBy(cfg, stream, x), Fill(cfg, stream, x);
    FilledIs(list, done, 0);
    OneFurther(list, done, k);
    forall i | 0 <= i < k ensures CanPass(cfg, i) {
      FilledPass(cfg, stream, x, i);
    }
  }

  lemma OneFurther(list: seq<string>, done: seq<string>, k: nat)
    requires k < |list| && Distinct(list[..k]) && list[k] !in done && forall i | 0 <= i < k :: list[i] in done
    ensures Distinct(list[..k + 1])
  {
    assert forall i | 0 <= i < k :: list[..k][i] == list[i] == list[..k + 1][i];
  }

  // --- In order -----------------------------------------------------------------------

  lemma PrefixExtends(done: seq<string>, list: seq<string>, name: string)
    requires done <= list && |done| < |list| && list[|done|] == name
    ensures done + [name] <= list
  {
  }

  /** Where no put-off retry adds a name of its own, a put-off retry repeats a completed task. */
  lemma RetryIsDone(cfg: Config, stream: seq<Event>, x: string, name: string)
    requires Plain(cfg) && Ordered(cfg, stream) && x != "" && RetryDue(cfg, stream, x, name)
    ensures name in DoneBy(cfg, stream, x) && IsRetryName(cfg, name)
  {
    PlainIsInStep(cfg);
    var list := TaskList(cfg.def);
    var task :| Asked(cfg, stream, x, task) && PutsOff(cfg, task) && name == RetryName(task);
    var q := PlaceOf(cfg, stream, x, task);
    assert PutsOffAt(cfg, q) && !DelayAt(cfg, q);
    var m :| 0 <= m < q && list[..q][m] == name;
    assert list[m] in DoneBy(cfg, stream, x);
  }

  /** In such a configuration the completed list of every execution is an initial part of the task
      list, in order. */
  lemma {:induction false} DoneIsPrefix(cfg: Config, stream: seq<Event>, x: string)
    requires Plain(cfg) && Ordered(cfg, stream) && x != ""
    ensures DoneBy(cfg, stream, x) <= TaskList(cfg.def)
  {
    if stream != [] {
      var front, e := Front(stream), Last(stream);
      DoneIsPrefix(cfg, front, x);
      assert stream == front + [e];
      DoneBySnoc(cfg, front, e, x);
      if DoneBy(cfg, stream, x) != DoneBy(cfg, front, x) {
        var name := TaskName(e.data.fields);
        SuccessIsDue(cfg, front, e);
        if RetryDue(cfg, front, x, name) {
          RetryIsDone(cfg, front, x, name);
        }
        TurnIsNext(cfg, front, x, name);
        PrefixExtends(DoneBy(cfg, front, x), TaskList(cfg.def), name);
      }
    }
  }

  /** A task in turn that is not completed is exactly the next one. */
  lemma TurnIsNext(cfg: Config, stream: seq<Event>, x: string, name: string)
    requires DoneBy(cfg, stream, x) <= TaskList(cfg.def)
    requires InTurn(cfg, stream, x, name) && name !in DoneBy(cfg, stream, x)
    ensures |DoneBy(cfg, stream, x)| < |TaskList(cfg.def)|
    ensures TaskList(cfg.def)[|DoneBy(cfg, stream, x)|] == name
  {
    var list, done := TaskList(cfg.def), DoneBy(cfg, stream, x);
    var q :| 0 <= q < |list| && list[q] == name && Ready(cfg, stream, x, q);
    IsAfter(list, done, q);
  }

  lemma IsAfter(list: seq<string>, done: seq<string>, q: nat)
    requires done <= list && q < |list| && list[q] !in done
    requires Distinct(list[..q + 1]) && forall i | 0 <= i < q :: list[i] in done
    ensures q == |done|
  {
    assert forall i | 0 <= i < |done| :: done[i] == list[i] && done[i] in done;
    NewAt(list, q + 1, if |done| < q then |done| else q);
  }
}
