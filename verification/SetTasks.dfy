/** Variables and the replay: what a set task writes into the worker's own state is gone at the
    next replay, whatever run it is part of. */
module SetTasks {
  import opened Values
  import opened Replay
  import opened ReplayLaws
  import opened Worker
  import opened Protocol
  import opened Safety
  import opened Guarantees
  import opened Runs

  // --- Set tasks leave no trace -------------------------------------------------------

  /** The history without the completions of set tasks. */
  function WithoutSets(h: seq<Event>): seq<Event> {
    if h == [] then [] else WithoutSets(Front(h)) + if IsSetCompletion(Last(h)) then [] else [Last(h)]
  }

  /** Expressions see the same data in both states. */
  predicate SameData(s: State, t: State) {
    s.variables == t.variables && s.input == t.input
  }

  lemma ApplyKeepsSameData(s: State, t: State, e: Event)
    requires SameData(s, t)
    ensures SameData(Apply(s, e), Apply(t, e))
  {
    if IsCompletion(e) {
      CompletionKeepsSameData(s, t, e);
    }
  }

  lemma CompletionKeepsSameData(s: State, t: State, e: Event)
    requires SameData(s, t) && IsCompletion(e)
    ensures SameData(Apply(s, e), Apply(t, e))
  {
    assert Apply(s, e) == ApplyCompletion(s, e.data.fields) && Apply(t, e) == ApplyCompletion(t, e.data.fields);
  }

  lemma SetCompletionKeepsData(s: State, e: Event)
    requires IsSetCompletion(e) && WithoutOutput(e)
    ensures SameData(Apply(s, e), s)
  {
  }

  lemma {:induction false} SetsLeaveNoTrace(id: string, h: seq<Event>)
    requires forall e | e in h && IsSetCompletion(e) :: WithoutOutput(e)
    ensures SameData(Rebuilt(id, h), Rebuilt(id, WithoutSets(h)))
  {
    if h != [] {
      var front, e := Front(h), Last(h);
      assert h == front + [e];
      SetsLeaveNoTrace(id, front);
      if IsSetCompletion(e) {
        SetCompletionKeepsData(Rebuilt(id, front), e);
        assert WithoutSets(front) + [] == WithoutSets(front);
      } else {
        ApplyKeepsSameData(Rebuilt(id, front), Rebuilt(id, WithoutSets(front)), e);
        RebuiltSnoc(id, WithoutSets(front), e);
      }
    }
  }

  lemma SetCompletionsHaveNoOutput(cfg: Config, stream: seq<Event>, e: Event)
    requires Sourced(cfg, stream) && e in stream
    ensures IsSetCompletion(e) ==> WithoutOutput(e)
    ensures e.kind.TaskCompleted? ==> IsSetCompletion(e) || e.source.ExecutorService?
    ensures e.kind.TimerFired? ==> WithoutOutput(e)
  {
    var i :| 0 <= i < |stream| && stream[i] == e;
    SourcedAt(cfg, stream, i);
  }

  lemma ReadIsSourced(cfg: Config, steps: seq<Step>, n: nat, x: string, tenants: seq<string>, e: Event)
    requires cfg.wf != "" && x != "" && n <= |After(cfg, steps).stream|
    requires Lists(After(cfg, steps).stream[..n], cfg.wf, tenants)
    requires e in Read(After(cfg, steps).stream[..n], cfg.wf, x, tenants)
    ensures IsSetCompletion(e) ==> WithoutOutput(e)
    ensures e.kind.TaskCompleted? ==> IsSetCompletion(e) || e.source.ExecutorService?
    ensures e.kind.TimerFired? ==> WithoutOutput(e)
  {
    SourceInvHolds(cfg, steps);
    ReadMembers(cfg, After(cfg, steps).stream[..n], x, tenants);
    assert e in After(cfg, steps).stream;
    SetCompletionsHaveNoOutput(cfg, After(cfg, steps).stream, e);
  }

  /** In every run, a replay gives expressions the same data as if no set task had ever run. */
  lemma SetTasksLeaveNoTrace(cfg: Config, steps: seq<Step>, n: nat, x: string, tenants: seq<string>)
    requires cfg.wf != "" && x != "" && n <= |After(cfg, steps).stream|
    requires Lists(After(cfg, steps).stream[..n], cfg.wf, tenants)
    ensures var h := Read(After(cfg, steps).stream[..n], cfg.wf, x, tenants);
            ExpressionContext(Rebuilt(cfg.def.id, h)) == ExpressionContext(Rebuilt(cfg.def.id, WithoutSets(h)))
  {
    var h := Read(After(cfg, steps).stream[..n], cfg.wf, x, tenants);
    forall e | e in h && IsSetCompletion(e) ensures WithoutOutput(e) {
      ReadIsSourced(cfg, steps, n, x, tenants, e);
    }
    SetsLeaveNoTrace(cfg.def.id, h);
    SameContext(Rebuilt(cfg.def.id, h), Rebuilt(cfg.def.id, WithoutSets(h)));
  }

  lemma SameContext(s: State, t: State)
    requires SameData(s, t)
    ensures ExpressionContext(s) == ExpressionContext(t)
  {
  }

  // --- Where variables come from ------------------------------------------------------

  /** A start event, an executor's answer, or an event that no service of the protocol publishes. */
  predicate FromOutside(e: Event) {
    e.kind.ExecutionStarted? || (e.kind.TaskCompleted? && e.source.ExecutorService?) || Inert(e.kind)
  }

  /** The i-th event is the last that writes the variable, and writes this value. */
  predicate WritesLast(h: seq<Event>, i: nat, name: string, value: Json)
    requires i < |h|
  {
    && name in Writes(h[i]) && Writes(h[i])[name] == value
    && forall j | i < j < |h| :: name !in Writes(h[j])
  }

  lemma {:induction false} LastWriter(h: seq<Event>, name: string) returns (k: nat)
    ensures k <= |h| && (forall j | k <= j < |h| :: name !in Writes(h[j]))
    ensures k == 0 || name in Writes(h[k - 1])
  {
    if h == [] || name in Writes(Last(h)) {
      k := |h|;
    } else {
      k := LastWriter(Front(h), name);
      assert forall j | k <= j < |h| - 1 :: h[j] == Front(h)[j];
    }
  }

  lemma ReplayedVariable(id: string, h: seq<Event>, name: string, value: Json)
    ensures Lookup(Variables(Rebuilt(id, h)), name) == Some(value)
            <==> exists i | 0 <= i < |h| :: WritesLast(h, i, name, value)
  {
    var k := LastWriter(h, name);
    VariableIsLastWritten(id, h, name, k);
    if k > 0 {
      assert WritesLast(h, k - 1, name, Writes(h[k - 1])[name]);
    }
  }

  lemma WriterIsOutside(e: Event, name: string)
    requires name in Writes(e)
    requires e.kind.TaskCompleted? ==> e.source.ExecutorService? || WithoutOutput(e)
    requires e.kind.TimerFired? ==> WithoutOutput(e)
    ensures FromOutside(e)
  {
  }

  lemma InputIsWritten(s: State, e: Event)
    ensures Apply(s, e).input == s.input || Apply(s, e).input == Some(Writes(e))
  {
  }

  /** The workflow's input is among its variables. */
  lemma {:induction false} InputIsInVariables(id: string, h: seq<Event>)
    ensures forall name | name in Rebuilt(id, h).input.GetOr(map[]) :: name in Variables(Rebuilt(id, h))
  {
    if h != [] {
      InputIsInVariables(id, Front(h));
      InputIsWritten(Rebuilt(id, Front(h)), Last(h));
      ApplyWrites(Rebuilt(id, Front(h)), Last(h));
    }
  }

  lemma ContextHasVariables(s: State, name: string)
    requires forall n | n in s.input.GetOr(map[]) :: n in Variables(s)
    requires name != "workflow" && name != "now"
    ensures Lookup(ExpressionContext(s), name) == Lookup(Variables(s), name)
  {
  }

  /** In every run, an expression on a replayed state finds under a name the value that a start
      event, an executor's answer or an outside event wrote last: the value of a set task exactly
      if one of those wrote it last. */
  lemma ExpressionSeesOutsideOnly(
    cfg: Config, steps: seq<Step>, n: nat, x: string, tenants: seq<string>, name: string, value: Json)
    requires cfg.wf != "" && x != "" && n <= |After(cfg, steps).stream|
    requires name != "workflow" && name != "now"
    requires Lists(After(cfg, steps).stream[..n], cfg.wf, tenants)
    ensures var h := Read(After(cfg, steps).stream[..n], cfg.wf, x, tenants);
            Lookup(ExpressionContext(Rebuilt(cfg.def.id, h)), name) == Some(value)
            <==> exists i | 0 <= i < |h| :: FromOutside(h[i]) && WritesLast(h, i, name, value)
  {
    var h := Read(After(cfg, steps).stream[..n], cfg.wf, x, tenants);
    InputIsInVariables(cfg.def.id, h);
    ContextHasVariables(Rebuilt(cfg.def.id, h), name);
    ReplayedVariable(cfg.def.id, h, name, value);
    forall i | 0 <= i < |h| && WritesLast(h, i, name, value) ensures FromOutside(h[i]) {
      ReadIsSourced(cfg, steps, n, x, tenants, h[i]);
      WriterIsOutside(h[i], name);
    }
  }

  // --- A run that loses its variables -------------------------------------------------

  /** A workflow that begins with a set task: in some run the task is completed on the state that
      the worker read, which writes its evaluated data there, and no later read replays to any
      variable at all. */
  lemma SetVariablesAreLost(cfg: Config, x: string) returns (steps: seq<Step>, state: State)
    requires cfg.wf != "" && x != "" && TaskType(cfg.def, TaskList(cfg.def)[0]) == "set" && NowFree(cfg.def)
    requires var body := FirstBody(cfg.def.tasks, TaskList(cfg.def)[0]);
             "set" in body && body["set"].Obj? && body["set"].fields != map[]
    ensures var stream, name := After(cfg, steps).stream, TaskList(cfg.def)[0];
            && stream == [StartOf(cfg, x)] + [SetCompletedEvent(cfg.def, state, name, MIDNIGHT)]
            && state == StateOf(cfg, x, [StartOf(cfg, x)])
            && SetFields(cfg.def, state, name, MIDNIGHT) != map[]
            && DoneBy(cfg, stream, x) == [name]
            && forall tenants | Lists(stream, cfg.wf, tenants) ::
                 Variables(Rebuilt(cfg.def.id, Read(stream, cfg.wf, x, tenants))) == map[]
  {
    var name := TaskList(cfg.def)[0];
    var begun := BeginRun(cfg, x);
    var pass, e;
    pass, state, e := TaskStarts(cfg, x, begun, []);
    steps := begun + pass;
    SetCompletes(cfg, x, begun, pass, [], state, e, name);
    SetCompletedShape(cfg.def, state, name, MIDNIGHT);
    assert [] + [name] == [name];
    StartOfSet(cfg.def, state, name, e);
    SetDataKeepsKeys(FirstBody(cfg.def.tasks, name)["set"], state);
    forall tenants | Lists(After(cfg, steps).stream, cfg.wf, tenants)
      ensures Variables(Rebuilt(cfg.def.id, Read(After(cfg, steps).stream, cfg.wf, x, tenants))) == map[]
    {
      NothingWritten(cfg, x, After(cfg, steps).stream, tenants, StartOf(cfg, x), e);
    }
  }

  lemma SetDataKeepsKeys(config: Json, s: State)
    requires config.Obj?
    ensures SetData(config, s, MIDNIGHT).Obj? && SetData(config, s, MIDNIGHT).fields.Keys == config.fields.Keys
  {
  }

  lemma StartOfSet(def: Definition, s: State, name: string, e: Event)
    requires TaskType(def, name) == "set" && StartTask(def, s, name, MIDNIGHT) == Publish(e)
    ensures e == SetCompletedEvent(def, s, name, MIDNIGHT)
  {
  }

  lemma NothingWritten(
    cfg: Config, x: string, stream: seq<Event>, tenants: seq<string>, start: Event, e: Event)
    requires cfg.wf != "" && x != "" && stream == [start] + [e] && Lists(stream, cfg.wf, tenants)
    requires start == StartOf(cfg, x) && IsSetCompletion(e) && WithoutOutput(e)
    ensures Variables(Rebuilt(cfg.def.id, Read(stream, cfg.wf, x, tenants))) == map[]
  {
    var h := Read(stream, cfg.wf, x, tenants);
    ReadMembers(cfg, stream, x, tenants);
    WriteNothing(cfg, x, start, e);
    forall i | 0 <= i < |h| ensures Writes(h[i]) == map[] {
      assert h[i] in h;
    }
    NoVariables(cfg.def.id, h);
  }

  lemma WriteNothing(cfg: Config, x: string, start: Event, e: Event)
    requires start == StartOf(cfg, x) && IsSetCompletion(e) && WithoutOutput(e)
    ensures Writes(start) == map[] && Writes(e) == map[]
  {
  }

  lemma NoVariables(id: string, h: seq<Event>)
    requires forall i | 0 <= i < |h| :: Writes(h[i]) == map[]
    ensures Variables(Rebuilt(id, h)) == map[]
  {
    var variables := Variables(Rebuilt(id, h));
    forall name ensures name !in variables {
      ReplayedVariable(id, h, name, Lookup(variables, name).GetOr(Null));
    }
  }
}
