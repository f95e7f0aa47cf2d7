/** What start_all and stop_all tell their caller: which hook every call went to and what it answered, the error code
    as a fact about the trace, and the state and last error each component is left with. */
module ComponentAnswers {
  import opened SysTypes
  import opened ComponentModel
  import opened ComponentLifecycle
  import opened ComponentResolve
  import opened ComponentConfluence
  import opened ComponentTable
  import opened ComponentTheorems
  import opened ComponentOrder

  // ----- hooks

  /** Call `k` went to the descriptor's own hook for it, if there is one, and carries that hook's answer. */
  ghost predicate Answered(descs: map<nat, Desc>, trace: seq<Call>, k: nat, cb: Callbacks)
    requires k < |trace|
  {
    var c := trace[k];
    && c.id in descs
    && (c.op.Init? ==> c.hooked == descs[c.id].hasInit)
    && (c.op.Start? ==> c.hooked == descs[c.id].hasStart)
    && (c.op.Stop? ==> c.hooked == descs[c.id].hasStop)
    && (c.op.Deinit? || c.op.EarlyDeinit? ==> c.hooked == descs[c.id].hasDeinit)
    && c.result == if c.hooked then cb(trace[..k], c.op, c.id) else Ok
  }

  ghost predicate AnsweredFrom(descs: map<nat, Desc>, trace: seq<Call>, n: nat, cb: Callbacks) {
    forall k :: n <= k < |trace| ==> Answered(descs, trace, k, cb)
  }

  lemma {:induction false} InvokeIsAnswered(t: Table, e: Engine, id: nat, op: Op, n: nat, cb: Callbacks)
    requires Sized(t, e) && id in t.descs && AnsweredFrom(t.descs, e.trace, n, cb)
    ensures AnsweredFrom(t.descs, e.trace + [Invoke(e, t.descs[id], op, cb)], n, cb)
  {
    var longer := e.trace + [Invoke(e, t.descs[id], op, cb)];
    assert longer[..|e.trace|] == e.trace;
    forall k | n <= k < |longer|
      ensures Answered(t.descs, longer, k, cb)
    {
      if k < |e.trace| {
        assert Answered(t.descs, e.trace, k, cb) && longer[..k] == e.trace[..k];
      }
    }
  }

  // ----- failures

  /** A failed init or start of a required component. */
  ghost predicate Fatal(descs: map<nat, Desc>, c: Call) {
    (c.op.Init? || c.op.Start?) && c.id in descs && descs[c.id].Required() && c.result != Ok
  }

  ghost predicate Harmless(descs: map<nat, Desc>, trace: seq<Call>) {
    forall k :: 0 <= k < |trace| ==> !Fatal(descs, trace[k])
  }

  /** The failure of a component after one more call on it. */
  function Later(failure: SysErr, c: Call): SysErr {
    if (c.op.Init? || c.op.Start? || c.op.Stop?) && c.result != Ok then c.result else failure
  }

  /** The answer of the last init, start or stop of a component that failed; deinit reports nothing. */
  function FailureOf(trace: seq<Call>, id: nat): SysErr {
    if trace == [] then Ok
    else
      var c := trace[|trace| - 1];
      var before := FailureOf(trace[..|trace| - 1], id);
      if c.id == id then Later(before, c) else before
  }

  lemma FailureSnoc(trace: seq<Call>, c: Call, id: nat)
    ensures FailureOf(trace + [c], id) == if c.id == id then Later(FailureOf(trace, id), c) else FailureOf(trace, id)
  {
    assert (trace + [c])[..|trace|] == trace;
  }

  lemma LifeAdds(trace: seq<Call>, c: Call, id: nat)
    ensures LifeOf(trace + [c], id) == if c.id == id then Next(LifeOf(trace, id), c) else LifeOf(trace, id)
  {
    assert (trace + [c])[..|trace|] == trace;
  }

  /** State and last error, told by the component's life and its failure. */
  ghost predicate Tells(r: Runtime, l: Life, failure: SysErr) {
    && (r.state.Failed? <==> failure != Ok)
    && r.lastError == (if failure != Ok then failure else if r.state.Skipped? then ErrDependency else Ok)
    && match l
       case Fresh => r.state.Discovered? || r.state.Skipped?
       case Refused => r.state.Failed?
       case Live => r.state.Initialized? || r.state.Skipped?
       case Up => r.state.Running?
       case Faulted => r.state.Failed?
       case Down => r.state.Failed? || r.state.Stopped?
       case Gone => r.state.Failed? || r.state.Stopped? || r.state.Skipped?
       case Broken => false
  }

  ghost predicate RecordsTell(t: Table, e: Engine) {
    forall id :: id in t.descs ==> id in e.rt && Tells(e.rt[id], LifeOf(e.trace, id), FailureOf(e.trace, id))
  }

  /** A skipped component has a dependency that failed or was skipped itself. */
  ghost predicate SkipsHaveCause(descs: map<nat, Desc>, rt: map<nat, Runtime>) {
    forall id :: id in descs && id in rt && rt[id].state.Skipped? ==> LostDep(rt, descs[id].deps)
  }

  /** A call on one component changes what is told about that component only. */
  lemma {:induction false} CallTells(t: Table, e: Engine, e': Engine, c: Call)
    requires RecordsTell(t, e) && c.id in t.descs && ChangedAt(e.rt, e'.rt, c.id) && e'.trace == e.trace + [c]
    requires Tells(e'.rt[c.id], LifeOf(e'.trace, c.id), FailureOf(e'.trace, c.id))
    ensures RecordsTell(t, e')
  {
    hide Tells, LifeOf, FailureOf;
    forall id | id in t.descs
      ensures id in e'.rt && Tells(e'.rt[id], LifeOf(e'.trace, id), FailureOf(e'.trace, id))
    {
      LifeAdds(e.trace, c, id);
      FailureSnoc(e.trace, c, id);
    }
  }

  /** Failed and skipped components stay so, and nothing that was not skipped becomes so without a cause. */
  lemma {:induction false} CauseStays(descs: map<nat, Desc>, rt: map<nat, Runtime>, rt': map<nat, Runtime>, id: nat)
    requires SkipsHaveCause(descs, rt) && ChangedAt(rt, rt', id) && id in descs
    requires rt[id].state.Failed? || rt[id].state.Skipped? ==> rt'[id].state.Failed? || rt'[id].state.Skipped?
    requires rt'[id].state.Skipped? ==> rt[id].state.Skipped? || LostDep(rt, descs[id].deps)
    ensures SkipsHaveCause(descs, rt')
  {
    forall x | x in descs && x in rt' && rt'[x].state.Skipped?
      ensures LostDep(rt', descs[x].deps)
    {
      assert LostDep(rt, descs[x].deps);
      var d :| d in descs[x].deps && (d !in rt || rt[d].state.Failed? || rt[d].state.Skipped?);
      assert d !in rt' || rt'[d].state.Failed? || rt'[d].state.Skipped?;
    }
  }

  /** The answers from call `n` on, and what the records say. */
  ghost predicate Closing(t: Table, e: Engine, n: nat, cb: Callbacks) {
    AnsweredFrom(t.descs, e.trace, n, cb) && RecordsTell(t, e) && SkipsHaveCause(t.descs, e.rt)
  }

  lemma {:induction false} UpdateChanges(rt: map<nat, Runtime>, id: nat, r: Runtime)
    requires id in rt
    ensures ChangedAt(rt, rt[id := r], id)
  {
  }

  /** What one call does to the record of its component. */
  ghost predicate OneCall(t: Table, e: Engine, e': Engine, id: nat, op: Op, cb: Callbacks)
    requires Sized(t, e) && id in t.descs
  {
    var c := Invoke(e, t.descs[id], op, cb);
    && e'.trace == e.trace + [c] && ChangedAt(e.rt, e'.rt, id)
    && Tells(e'.rt[id], Next(LifeOf(e.trace, id), c), Later(FailureOf(e.trace, id), c))
    && (e.rt[id].state.Failed? || e.rt[id].state.Skipped? ==> e'.rt[id].state.Failed? || e'.rt[id].state.Skipped?)
    && (e'.rt[id].state.Skipped? ==> e.rt[id].state.Skipped? || LostDep(e.rt, t.descs[id].deps))
  }

  lemma CallCloses(t: Table, e: Engine, e': Engine, id: nat, op: Op, n: nat, cb: Callbacks)
    requires Sized(t, e) && id in t.descs && Closing(t, e, n, cb) && OneCall(t, e, e', id, op, cb)
    ensures Closing(t, e', n, cb)
  {
    hide LifeOf, FailureOf, AnsweredFrom, LostDep, SkipsHaveCause, RecordsTell, Tells, Next, Later, Hook;
    var call := Invoke(e, t.descs[id], op, cb);
    InvokeIsAnswered(t, e, id, op, n, cb);
    LifeAdds(e.trace, call, id);
    FailureSnoc(e.trace, call, id);
    CallTells(t, e, e', call);
    CauseStays(t.descs, e.rt, e'.rt, id);
  }

  // ----- what the stages of a start-up keep

  /** Something was never resolved, or something required was skipped. */
  ghost predicate Missing(descs: map<nat, Desc>, rt: map<nat, Runtime>) {
    exists id :: id in descs && id in rt && (rt[id].state.Discovered? || (descs[id].Required() && rt[id].state.Skipped?))
  }

  /** How the trace and the records stand when a stage ends. */
  ghost predicate Explains(t: Table, e: Engine, o: Outcome, cb: Callbacks) {
    && Closing(t, e, 0, cb)
    && (if o.CallbackFailed? then
          && e.trace != [] && Fatal(t.descs, e.trace[|e.trace| - 1]) && e.trace[|e.trace| - 1].result == o.error
          && Harmless(t.descs, e.trace[..|e.trace| - 1])
        else Harmless(t.descs, e.trace))
    && (o.RequiredSkipped? || o.NoProgress? ==> Missing(t.descs, e.rt))
  }

  /** A call that is not fatal, or the fatal call that ends the stage. */
  lemma {:induction false} OneMoreCall(descs: map<nat, Desc>, trace: seq<Call>, c: Call)
    requires Harmless(descs, trace)
    ensures !Fatal(descs, c) ==> Harmless(descs, trace + [c])
    ensures (trace + [c])[..|trace + [c]| - 1] == trace
  {
  }

  lemma RecordTells(t: Table, e: Engine, id: nat, n: nat, cb: Callbacks)
    requires Sized(t, e) && id in t.descs && Closing(t, e, n, cb)
    ensures Tells(e.rt[id], LifeOf(e.trace, id), FailureOf(e.trace, id))
  {
  }

  lemma InitExplains(t: Table, e: Engine, id: nat, cb: Callbacks)
    requires Sized(t, e) && Explains(t, e, Done, cb) && id in t.descs && e.rt[id].state.Discovered?
    ensures var (e', outcome) := InitializeComponent(e, t.descs[id], cb);
            Explains(t, e', outcome, cb)
  {
    hide LifeOf, FailureOf, Harmless, LostDep, Closing;
    var e' := InitializeComponent(e, t.descs[id], cb).0;
    var call := Invoke(e, t.descs[id], Init, cb);
    RecordTells(t, e, id, 0, cb);
    UpdateChanges(e.rt, id, e'.rt[id]);
    CallCloses(t, e, e', id, Init, 0, cb);
    OneMoreCall(t.descs, e.trace, call);
  }

  lemma {:induction false} SkipHasCause(descs: map<nat, Desc>, rt: map<nat, Runtime>, id: nat)
    requires SkipsHaveCause(descs, rt) && id in descs && id in rt && rt[id].state.Discovered?
    requires CheckDeps(rt, descs[id].deps, false) == DepFailed
    ensures SkipsHaveCause(descs, SetState(rt, id, Skipped, ErrDependency))
  {
    hide LostDep, SkipsHaveCause, CheckDeps;
    FailedMeansLost(rt, descs[id].deps);
    CauseStays(descs, rt, SetState(rt, id, Skipped, ErrDependency), id);
  }

  lemma {:induction false} ScanHasCause(descs: map<nat, Desc>, order: seq<nat>, rt: map<nat, Runtime>, phase: nat,
                                        pending: nat, skipped: bool, candidate: Option<nat>)
    requires rt.Keys == descs.Keys && SkipsHaveCause(descs, rt) && forall id :: id in order ==> id in descs
    ensures SkipsHaveCause(descs, ScanFrom(descs, order, rt, phase, pending, skipped, candidate).rt)
  {
    hide SkipsHaveCause;
    if order != [] {
      var id, rest := order[0], order[1..];
      if !rt[id].state.Discovered? || descs[id].phase != phase {
        ScanHasCause(descs, rest, rt, phase, pending, skipped, candidate);
      } else {
        match CheckDeps(rt, descs[id].deps, false)
        case DepFailed =>
          SkipHasCause(descs, rt, id);
          if !descs[id].Required() {
            ScanHasCause(descs, rest, SetState(rt, id, Skipped, ErrDependency), phase, pending + 1, true, candidate);
          }
        case Ready => ScanHasCause(descs, rest, rt, phase, pending + 1, skipped, Better(id, candidate));
        case Waiting => ScanHasCause(descs, rest, rt, phase, pending + 1, skipped, candidate);
      }
    }
  }

  lemma {:induction false} SkipsTell(t: Table, e: Engine, phase: nat, rt: map<nat, Runtime>)
    requires Sized(t, e) && RecordsTell(t, e) && OnlySkips(t.descs, phase, e.rt, rt)
    ensures RecordsTell(t, e.(rt := rt))
  {
    hide LifeOf, FailureOf, DepsInitialized, RecordsTell;
    forall id | id in t.descs
      ensures id in rt && Tells(rt[id], LifeOf(e.trace, id), FailureOf(e.trace, id))
    {
      OneTells(t, e, id);
    }
    TellsAll(t, e.(rt := rt));
  }

  lemma OneTells(t: Table, e: Engine, id: nat)
    requires RecordsTell(t, e) && id in t.descs
    ensures id in e.rt && Tells(e.rt[id], LifeOf(e.trace, id), FailureOf(e.trace, id))
  {
  }

  lemma TellsAll(t: Table, e: Engine)
    requires forall id :: id in t.descs ==> id in e.rt && Tells(e.rt[id], LifeOf(e.trace, id), FailureOf(e.trace, id))
    ensures RecordsTell(t, e)
  {
  }

  lemma ScanExplains(t: Table, e: Engine, phase: nat, cb: Callbacks)
    requires Linked(t) && Sized(t, e) && Tidy(e.rt) && Explains(t, e, Done, cb)
    ensures var s := FullScan(t, e, phase);
            && Explains(t, e.(rt := s.rt), Done, cb)
            && (s.ScanRefused? ==> Missing(t.descs, s.rt))
  {
    hide ScanFrom, Tidy, OnlySkips, AnsweredFrom, Harmless, RecordsTell, SkipsHaveCause;
    FullScanFacts(t, e, phase);
    ScanKeepsRequired(t.descs, t.order, e.rt, phase, 0, false, None);
    ScanHasCause(t.descs, t.order, e.rt, phase, 0, false, None);
    SkipsTell(t, e, phase, FullScan(t, e, phase).rt);
  }

  lemma {:induction false} PendingIsMissing(descs: map<nat, Desc>, rt: map<nat, Runtime>, phase: nat)
    requires rt.Keys == descs.Keys && Pending(descs, rt, phase) != {}
    ensures Missing(descs, rt)
  {
    var id :| id in Pending(descs, rt, phase);
  }

  lemma Restates(t: Table, e: Engine, o: Outcome, cb: Callbacks)
    requires Explains(t, e, Done, cb) && !o.CallbackFailed?
    requires o.RequiredSkipped? || o.NoProgress? ==> Missing(t.descs, e.rt)
    ensures Explains(t, e, o, cb)
  {
  }

  lemma RoundExplains(t: Table, e: Engine, phase: nat, cb: Callbacks)
    requires Linked(t) && Sized(t, e) && Tidy(e.rt) && Explains(t, e, Done, cb)
    ensures var r := PhaseRound(t, e, phase, cb);
            Explains(t, r.e, if r.Finished? then r.outcome else Done, cb)
  {
    hide ScanFrom, Tidy, OnlySkips, InitializeComponent, Explains, Missing;
    FullScanFacts(t, e, phase);
    ScanExplains(t, e, phase, cb);
    var s := FullScan(t, e, phase);
    var e1 := e.(rt := s.rt);
    if s.ScanDone? && s.candidate.Some? {
      assert s.candidate.value in ReadySet(t.descs, s.rt, phase);
      InitExplains(t, e1, s.candidate.value, cb);
    } else if s.ScanRefused? {
      Restates(t, e1, RequiredSkipped(s.id), cb);
    } else if Pending(t.descs, e.rt, phase) != {} && !s.skipped {
      PendingIsMissing(t.descs, e.rt, phase);
      Restates(t, e1, NoProgress, cb);
    }
  }

  lemma {:induction false} PhaseExplains(t: Table, e: Engine, phase: nat, cb: Callbacks)
    requires Linked(t) && Sized(t, e) && Tidy(e.rt) && Explains(t, e, Done, cb)
    ensures var (e', outcome) := InitializePhase(t, e, phase, cb);
            Explains(t, e', outcome, cb)
    decreases |Pending(t.descs, e.rt, phase)|
  {
    hide PhaseRound, Tidy, Explains;
    RoundExplains(t, e, phase, cb);
    var r := PhaseRound(t, e, phase, cb);
    if r.Again? {
      PhaseExplains(t, r.e, phase, cb);
    }
  }

  lemma {:induction false} InitsExplain(t: Table, e: Engine, phase: nat, cb: Callbacks)
    requires phase <= PHASE_COUNT && Linked(t) && Sized(t, e) && Tidy(e.rt) && Explains(t, e, Done, cb)
    ensures var (e', outcome) := InitializeFrom(t, e, phase, cb);
            Explains(t, e', outcome, cb)
    decreases PHASE_COUNT - phase
  {
    hide InitializePhase, Tidy, Explains;
    if phase < PHASE_COUNT {
      PhaseExplains(t, e, phase, cb);
      var (e1, outcome) := InitializePhase(t, e, phase, cb);
      if outcome.Done? {
        InitsExplain(t, e1, phase + 1, cb);
      }
    }
  }

  // ----- starts

  lemma {:induction false} NotReadyMeansLost(rt: map<nat, Runtime>, deps: seq<nat>)
    requires CheckDeps(rt, deps, true) == DepFailed
    ensures LostDep(rt, deps)
  {
    if deps[0] in rt && !rt[deps[0]].state.Failed? && !rt[deps[0]].state.Skipped? {
      NotReadyMeansLost(rt, deps[1..]);
      var d :| d in deps[1..] && (d !in rt || rt[d].state.Failed? || rt[d].state.Skipped?);
      assert d in deps;
    } else {
      assert deps[0] in deps;
    }
  }

  /** The component about to be started is initialised, and nothing it did has failed. */
  lemma PreparedTells(t: Table, e: Engine, i: nat)
    requires StartStage(t, e, i) && i < |e.initOrder| && RecordsTell(t, e)
    ensures Sized(t, e)
    ensures var id := e.initOrder[i];
            && id in t.descs && e.rt[id].state.Initialized? && e.rt[id].initialized && LifeOf(e.trace, id).Live?
            && FailureOf(e.trace, id) == Ok && e.rt[id].lastError == Ok
    ensures CheckDeps(e.rt, t.descs[e.initOrder[i]].deps, true) != Waiting
  {
    hide LifeOf, FailureOf, WellOrdered, Orders, CheckDeps;
    var id := e.initOrder[i];
    NextToStart(t, e, i);
    StartNeverWaits(t, e, i);
    assert Prepared(e.rt[id], LivesAfter(t.descs, e.trace)[id]);
    assert Tells(e.rt[id], LifeOf(e.trace, id), FailureOf(e.trace, id));
  }

  /** A component is skipped at its start: one early deinit, or the end of the start-up. */
  lemma SkipShape(t: Table, e: Engine, id: nat, cb: Callbacks)
    requires Sized(t, e) && id in t.descs && e.rt[id].initialized && CheckDeps(e.rt, t.descs[id].deps, true) != Ready
    ensures var (e', outcome) := StartComponent(e, t.descs[id], cb);
            if t.descs[id].Required() then
              outcome == RequiredSkipped(id) && e' == e.(rt := SetState(e.rt, id, Skipped, ErrDependency))
            else
              && outcome == Done && e'.trace == e.trace + [Invoke(e, t.descs[id], EarlyDeinit, cb)]
              && ChangedAt(e.rt, e'.rt, id)
              && e'.rt[id] == e.rt[id].(state := Skipped, lastError := ErrDependency, initialized := false)
  {
    hide CheckDeps;
    var skipped := e.rt[id].(state := Skipped, lastError := ErrDependency);
    UpdateChanges(e.rt, id, skipped);
    UpdatedTwice(e.rt, id, skipped, skipped.(initialized := false));
  }

  lemma SkipExplains(t: Table, e: Engine, id: nat, cb: Callbacks)
    requires Sized(t, e) && Explains(t, e, Done, cb) && id in t.descs && e.rt[id].state.Initialized? && e.rt[id].initialized
    requires LifeOf(e.trace, id).Live? && FailureOf(e.trace, id) == Ok
    requires CheckDeps(e.rt, t.descs[id].deps, true) == DepFailed
    ensures var (e', outcome) := StartComponent(e, t.descs[id], cb);
            Explains(t, e', outcome, cb)
  {
    hide LifeOf, FailureOf, Harmless, LostDep, CheckDeps, Closing, StartComponent, Hook;
    var e' := StartComponent(e, t.descs[id], cb).0;
    NotReadyMeansLost(e.rt, t.descs[id].deps);
    SkipShape(t, e, id, cb);
    if t.descs[id].Required() {
      SkippedCloses(t, e, id, cb);
    } else {
      CallCloses(t, e, e', id, EarlyDeinit, 0, cb);
      OneMoreCall(t.descs, e.trace, Invoke(e, t.descs[id], EarlyDeinit, cb));
    }
  }

  lemma SkippedCloses(t: Table, e: Engine, id: nat, cb: Callbacks)
    requires Sized(t, e) && Closing(t, e, 0, cb) && id in t.descs && e.rt[id].state.Initialized?
    requires LostDep(e.rt, t.descs[id].deps)
    ensures Closing(t, e.(rt := SetState(e.rt, id, Skipped, ErrDependency)), 0, cb)
  {
    hide LifeOf, FailureOf, LostDep, SkipsHaveCause;
    var rt' := SetState(e.rt, id, Skipped, ErrDependency);
    UpdateChanges(e.rt, id, rt'[id]);
    CauseStays(t.descs, e.rt, rt', id);
    RecordTells(t, e, id, 0, cb);
  }

  /** The start hook is called, and succeeds or ends the start-up. */
  lemma CalledExplains(t: Table, e: Engine, id: nat, cb: Callbacks)
    requires Sized(t, e) && Explains(t, e, Done, cb) && id in t.descs && e.rt[id].state.Initialized? && e.rt[id].lastError == Ok
    requires LifeOf(e.trace, id).Live? && FailureOf(e.trace, id) == Ok
    requires CheckDeps(e.rt, t.descs[id].deps, true) == Ready
    requires Invoke(e, t.descs[id], Start, cb).result == Ok || t.descs[id].Required()
    ensures var (e', outcome) := StartComponent(e, t.descs[id], cb);
            Explains(t, e', outcome, cb)
  {
    hide LifeOf, FailureOf, Harmless, LostDep, CheckDeps, Closing;
    var e' := StartComponent(e, t.descs[id], cb).0;
    var call := Invoke(e, t.descs[id], Start, cb);
    UpdateChanges(e.rt, id, e'.rt[id]);
    CallCloses(t, e, e', id, Start, 0, cb);
    OneMoreCall(t.descs, e.trace, call);
  }

  /** The engine between a failed optional start and its early deinit. */
  function AfterFailure(t: Table, e: Engine, id: nat, cb: Callbacks): Engine
    requires Sized(t, e) && id in t.descs
  {
    var call := Invoke(e, t.descs[id], Start, cb);
    e.(trace := e.trace + [call], rt := SetState(e.rt, id, Failed, call.result))
  }

  lemma FailureExplains(t: Table, e: Engine, id: nat, cb: Callbacks)
    requires Sized(t, e) && Explains(t, e, Done, cb) && id in t.descs && e.rt[id].state.Initialized?
    requires LifeOf(e.trace, id).Live? && FailureOf(e.trace, id) == Ok
    requires Invoke(e, t.descs[id], Start, cb).result != Ok && !t.descs[id].Required()
    ensures var e1 := AfterFailure(t, e, id, cb);
            Sized(t, e1) && Explains(t, e1, Done, cb) && LifeOf(e1.trace, id).Faulted? && FailureOf(e1.trace, id) != Ok
  {
    hide LifeOf, FailureOf, Harmless, LostDep, CheckDeps, Closing;
    var e' := AfterFailure(t, e, id, cb);
    var call := Invoke(e, t.descs[id], Start, cb);
    UpdateChanges(e.rt, id, e'.rt[id]);
    CallCloses(t, e, e', id, Start, 0, cb);
    OneMoreCall(t.descs, e.trace, call);
    LifeAdds(e.trace, call, id);
    FailureSnoc(e.trace, call, id);
  }

  lemma DropExplains(t: Table, e: Engine, id: nat, cb: Callbacks)
    requires Sized(t, e) && Explains(t, e, Done, cb) && id in t.descs
    requires LifeOf(e.trace, id).Faulted? && FailureOf(e.trace, id) != Ok
    ensures Explains(t, DropInitialized(e, t.descs[id], EarlyDeinit, cb), Done, cb)
  {
    hide LifeOf, FailureOf, Harmless, LostDep, Closing;
    var e' := DropInitialized(e, t.descs[id], EarlyDeinit, cb);
    RecordTells(t, e, id, 0, cb);
    UpdateChanges(e.rt, id, e'.rt[id]);
    CallCloses(t, e, e', id, EarlyDeinit, 0, cb);
    OneMoreCall(t.descs, e.trace, Invoke(e, t.descs[id], EarlyDeinit, cb));
  }

  lemma StartIsTwoSteps(t: Table, e: Engine, id: nat, cb: Callbacks)
    requires Sized(t, e) && id in t.descs && CheckDeps(e.rt, t.descs[id].deps, true) == Ready
    requires Invoke(e, t.descs[id], Start, cb).result != Ok && !t.descs[id].Required()
    ensures id in AfterFailure(t, e, id, cb).rt
    ensures StartComponent(e, t.descs[id], cb) ==
            (DropInitialized(AfterFailure(t, e, id, cb), t.descs[id], EarlyDeinit, cb), Done)
  {
    hide CheckDeps;
  }

  lemma StartExplains(t: Table, e: Engine, i: nat, cb: Callbacks)
    requires StartStage(t, e, i) && i < |e.initOrder| && Explains(t, e, Done, cb)
    ensures Sized(t, e) && e.initOrder[i] in t.descs
    ensures var (e', outcome) := StartComponent(e, t.descs[e.initOrder[i]], cb);
            Explains(t, e', outcome, cb)
  {
    hide StartStage, StartComponent, LifeOf, FailureOf, CheckDeps, Explains, AfterFailure, DropInitialized;
    var id := e.initOrder[i];
    ExplainsRecords(t, e, Done, cb);
    PreparedTells(t, e, i);
    if CheckDeps(e.rt, t.descs[id].deps, true) != Ready {
      SkipExplains(t, e, id, cb);
    } else if Invoke(e, t.descs[id], Start, cb).result == Ok || t.descs[id].Required() {
      CalledExplains(t, e, id, cb);
    } else {
      StartIsTwoSteps(t, e, id, cb);
      FailureExplains(t, e, id, cb);
      DropExplains(t, AfterFailure(t, e, id, cb), id, cb);
    }
  }

  lemma ExplainsRecords(t: Table, e: Engine, o: Outcome, cb: Callbacks)
    requires Explains(t, e, o, cb)
    ensures AnsweredFrom(t.descs, e.trace, 0, cb) && RecordsTell(t, e) && SkipsHaveCause(t.descs, e.rt)
  {
  }

  lemma {:induction false} StartsExplain(t: Table, e: Engine, i: nat, cb: Callbacks)
    requires StartStage(t, e, i) && Explains(t, e, Done, cb)
    ensures Sized(t, e) && i <= |e.initOrder|
    ensures var (e', outcome) := StartFrom(t, e, i, cb);
            Explains(t, e', outcome, cb)
    decreases |e.initOrder| - i
  {
    hide StartComponent, StartStage, Core, Explains;
    StageOrder(t, e, i);
    if i < |e.initOrder| {
      StartKeepsStage(t, e, i, cb);
      StartExplains(t, e, i, cb);
      var (e1, outcome) := StartComponent(e, t.descs[e.initOrder[i]], cb);
      if outcome.Done? {
        StartsExplain(t, e1, i + 1, cb);
      }
    }
  }

  // ----- rollback

  /** Nothing skipped or never resolved changes its state. */
  ghost predicate KeepsMissing(rt: map<nat, Runtime>, rt': map<nat, Runtime>) {
    && rt'.Keys == rt.Keys
    && forall id :: id in rt && (rt[id].state.Discovered? || rt[id].state.Skipped?) ==> rt'[id].state == rt[id].state
  }

  /** A started component runs, and nothing it did has failed. */
  lemma StartedTells(t: Table, e: Engine)
    requires Core(t, e) && RecordsTell(t, e) && e.startOrder != []
    ensures Sized(t, e)
    ensures var id := e.startOrder[|e.startOrder| - 1];
            && id in t.descs && e.rt[id].state.Running? && LifeOf(e.trace, id).Up?
            && FailureOf(e.trace, id) == Ok && e.rt[id].lastError == Ok
  {
    hide LifeOf, FailureOf, WellOrdered, Orders;
    var id := e.startOrder[|e.startOrder| - 1];
    assert RecordMatches(e.rt[id], LivesAfter(t.descs, e.trace)[id]) && e.rt[id].started;
    assert Tells(e.rt[id], LifeOf(e.trace, id), FailureOf(e.trace, id));
  }

  lemma StopLastShape(t: Table, e: Engine, cb: Callbacks)
    requires Sized(t, e) && e.startOrder != []
    ensures var id := e.startOrder[|e.startOrder| - 1];
            var call := Invoke(e, t.descs[id], Stop, cb);
            var (r, e') := (e.rt[id], StopLast(t, e, cb).0);
            && e'.trace == e.trace + [call] && ChangedAt(e.rt, e'.rt, id)
            && e'.rt[id] == if call.result != Ok then r.(started := false, state := Failed, lastError := call.result)
                            else r.(started := false, state := Stopped)
  {
    var id := e.startOrder[|e.startOrder| - 1];
    UpdateChanges(e.rt, id, StopLast(t, e, cb).0.rt[id]);
  }

  lemma HaltCloses(t: Table, e: Engine, n: nat, cb: Callbacks)
    requires Sized(t, e) && e.startOrder != [] && Closing(t, e, n, cb)
    requires var id := e.startOrder[|e.startOrder| - 1];
             e.rt[id].state.Running? && LifeOf(e.trace, id).Up? && FailureOf(e.trace, id) == Ok && e.rt[id].lastError == Ok
    ensures Closing(t, StopLast(t, e, cb).0, n, cb) && KeepsMissing(e.rt, StopLast(t, e, cb).0.rt)
  {
    hide LifeOf, FailureOf, LostDep, Closing, StopLast, KeepsMissing, Hook;
    var id := e.startOrder[|e.startOrder| - 1];
    var e' := StopLast(t, e, cb).0;
    StopLastShape(t, e, cb);
    CallCloses(t, e, e', id, Stop, n, cb);
    ChangeKeepsMissing(e.rt, e'.rt, id);
  }

  lemma StopCloses(t: Table, e: Engine, n: nat, cb: Callbacks)
    requires Core(t, e) && e.startOrder != [] && Closing(t, e, n, cb)
    ensures Sized(t, e) && Closing(t, StopLast(t, e, cb).0, n, cb) && KeepsMissing(e.rt, StopLast(t, e, cb).0.rt)
  {
    hide LifeOf, FailureOf, Core, Closing, StopLast, KeepsMissing;
    ClosingRecords(t, e, n, cb);
    StartedTells(t, e);
    HaltCloses(t, e, n, cb);
  }

  lemma ClosingRecords(t: Table, e: Engine, n: nat, cb: Callbacks)
    requires Closing(t, e, n, cb)
    ensures AnsweredFrom(t.descs, e.trace, n, cb) && RecordsTell(t, e) && SkipsHaveCause(t.descs, e.rt)
  {
  }

  lemma {:induction false} ChangeKeepsMissing(rt: map<nat, Runtime>, rt': map<nat, Runtime>, id: nat)
    requires ChangedAt(rt, rt', id)
    requires rt[id].state.Discovered? || rt[id].state.Skipped? ==> rt'[id].state == rt[id].state
    ensures KeepsMissing(rt, rt')
  {
  }

  lemma {:induction false} StopsClose(t: Table, e: Engine, n: nat, cb: Callbacks)
    requires Core(t, e) && Closing(t, e, n, cb)
    ensures Sized(t, e) && Closing(t, StopStarted(t, e, cb).0, n, cb) && KeepsMissing(e.rt, StopStarted(t, e, cb).0.rt)
    decreases |e.startOrder|
  {
    hide Core, Closing, StopLast;
    CoreIsSized(t, e);
    if e.startOrder != [] {
      StopKeepsCore(t, e, cb);
      StopCloses(t, e, n, cb);
      StopsClose(t, StopLast(t, e, cb).0, n, cb);
    }
  }

  lemma InitializedTells(t: Table, e: Engine, id: nat)
    requires Core(t, e) && RecordsTell(t, e) && e.startOrder == [] && id in t.descs
    ensures Sized(t, e)
    ensures e.rt[id].initialized ==>
              LifeOf(e.trace, id).Live? || LifeOf(e.trace, id).Faulted? || LifeOf(e.trace, id).Down?
    ensures Tells(e.rt[id], LifeOf(e.trace, id), FailureOf(e.trace, id))
  {
    hide LifeOf, FailureOf, WellOrdered, Orders;
    assert RecordMatches(e.rt[id], LivesAfter(t.descs, e.trace)[id]) && !e.rt[id].started;
  }

  lemma DeinitLastShape(t: Table, e: Engine, cb: Callbacks)
    requires Sized(t, e) && e.initOrder != [] && e.rt[e.initOrder[|e.initOrder| - 1]].initialized
    ensures var id := e.initOrder[|e.initOrder| - 1];
            var r := e.rt[id];
            var e' := DeinitLast(t, e, cb);
            && e'.trace == e.trace + [Invoke(e, t.descs[id], Deinit, cb)] && ChangedAt(e.rt, e'.rt, id)
            && e'.rt[id] == if r.state.Failed? || r.state.Skipped? then r.(initialized := false)
                            else r.(initialized := false, state := Stopped)
  {
    var id := e.initOrder[|e.initOrder| - 1];
    UpdateChanges(e.rt, id, e.rt[id].(initialized := false));
    UpdatedTwice(e.rt, id, e.rt[id].(initialized := false), e.rt[id].(initialized := false, state := Stopped));
  }

  lemma DeinitCloses(t: Table, e: Engine, n: nat, cb: Callbacks)
    requires Core(t, e) && e.initOrder != [] && e.startOrder == [] && Closing(t, e, n, cb)
    ensures Sized(t, e) && Closing(t, DeinitLast(t, e, cb), n, cb) && KeepsMissing(e.rt, DeinitLast(t, e, cb).rt)
  {
    hide LifeOf, FailureOf, LostDep, Core, Closing;
    CoreIsSized(t, e);
    ClosingRecords(t, e, n, cb);
    var id := e.initOrder[|e.initOrder| - 1];
    InitializedTells(t, e, id);
    if e.rt[id].initialized {
      DropCloses(t, e, n, cb);
    } else {
      SameCloses(t, e, DeinitLast(t, e, cb), n, cb);
    }
  }

  lemma DropCloses(t: Table, e: Engine, n: nat, cb: Callbacks)
    requires Sized(t, e) && e.initOrder != [] && Closing(t, e, n, cb)
    requires var id := e.initOrder[|e.initOrder| - 1];
             && e.rt[id].initialized && Tells(e.rt[id], LifeOf(e.trace, id), FailureOf(e.trace, id))
             && (LifeOf(e.trace, id).Live? || LifeOf(e.trace, id).Faulted? || LifeOf(e.trace, id).Down?)
    ensures Closing(t, DeinitLast(t, e, cb), n, cb) && KeepsMissing(e.rt, DeinitLast(t, e, cb).rt)
  {
    hide LifeOf, FailureOf, LostDep, Closing, DeinitLast, KeepsMissing, Hook;
    var id := e.initOrder[|e.initOrder| - 1];
    var e' := DeinitLast(t, e, cb);
    DeinitLastShape(t, e, cb);
    CallCloses(t, e, e', id, Deinit, n, cb);
    ChangeKeepsMissing(e.rt, e'.rt, id);
  }

  lemma {:induction false} UpdatedTwice(rt: map<nat, Runtime>, id: nat, r: Runtime, r': Runtime)
    requires id in rt
    ensures ChangedAt(rt, rt[id := r][id := r'], id)
  {
  }

  lemma SameCloses(t: Table, e: Engine, e': Engine, n: nat, cb: Callbacks)
    requires Closing(t, e, n, cb) && e'.rt == e.rt && e'.trace == e.trace
    ensures Closing(t, e', n, cb) && KeepsMissing(e.rt, e'.rt)
  {
  }

  lemma {:induction false} DeinitsClose(t: Table, e: Engine, n: nat, cb: Callbacks)
    requires Core(t, e) && e.startOrder == [] && Closing(t, e, n, cb)
    ensures Sized(t, e) && Closing(t, DeinitializeAll(t, e, cb), n, cb) && KeepsMissing(e.rt, DeinitializeAll(t, e, cb).rt)
    decreases |e.initOrder|
  {
    hide Core, Closing, DeinitLast;
    CoreIsSized(t, e);
    if e.initOrder != [] {
      DeinitKeepsCore(t, e, cb);
      DeinitCloses(t, e, n, cb);
      DeinitsClose(t, DeinitLast(t, e, cb), n, cb);
    }
  }

  lemma RollbackCloses(t: Table, e: Engine, n: nat, cb: Callbacks)
    requires Core(t, e) && Closing(t, e, n, cb)
    ensures Sized(t, e)
    ensures var e' := Rollback(t, e, cb).0;
            Closing(t, e', n, cb) && KeepsMissing(e.rt, e'.rt)
  {
    hide Core, Closing, StopStarted, DeinitializeAll;
    CoreIsSized(t, e);
    StopsKeepCore(t, e, cb);
    StopsClose(t, e, n, cb);
    DeinitsClose(t, StopStarted(t, e, cb).0, n, cb);
  }

  /** A rollback adds stops and deinits only. */
  lemma RollbackAdds(t: Table, e: Engine, cb: Callbacks)
    requires Core(t, e)
    ensures Sized(t, e)
    ensures var trace := Rollback(t, e, cb).0.trace;
            && e.trace <= trace
            && forall k :: |e.trace| <= k < |trace| ==> trace[k].op.Stop? || trace[k].op.Deinit?
  {
    hide StopStarted, DeinitializeAll, WellOrdered, Flags, LifeOf;
    StopsReverseStarts(t, e, cb);
    DeinitsReverseInits(t, StopStarted(t, e, cb).0, cb);
  }

  lemma {:induction false} StopsKeepInitialized(t: Table, e: Engine, cb: Callbacks)
    requires Sized(t, e)
    ensures forall id :: id in e.rt ==>
              id in StopStarted(t, e, cb).0.rt && StopStarted(t, e, cb).0.rt[id].initialized == e.rt[id].initialized
    decreases |e.startOrder|
  {
    if e.startOrder != [] {
      StopLastShape(t, e, cb);
      hide StopLast, Sized;
      StopsKeepInitialized(t, StopLast(t, e, cb).0, cb);
    }
  }

  /** The calls of a rollback: the stops in reverse start order, then the deinits of what is initialised in reverse
      initialisation order; and its code is the first error among the stops. */
  ghost predicate RolledBack(e: Engine, trace: seq<Call>, code: SysErr) {
    && e.trace <= trace && |e.trace| + |e.startOrder| <= |trace|
    && var (stops, deinits) := (trace[|e.trace|..|e.trace| + |e.startOrder|], trace[|e.trace| + |e.startOrder|..]);
    && (forall k :: 0 <= k < |stops| ==> stops[k].op.Stop?) && CallIds(stops) == Reverse(e.startOrder)
    && (forall k :: 0 <= k < |deinits| ==> deinits[k].op.Deinit?)
    && CallIds(deinits) == Reverse(StillInitialized(e.rt, e.initOrder))
    && code == FirstError(stops)
  }

  lemma RollbackIs(t: Table, e: Engine, cb: Callbacks)
    requires Core(t, e)
    ensures Sized(t, e)
    ensures var (e', code) := Rollback(t, e, cb);
            RolledBack(e, e'.trace, code)
  {
    hide Core, StopStarted, DeinitializeAll, StillInitialized, FirstError;
    CoreIsSized(t, e);
    CoreIsDistinct(t, e);
    var e1 := StopStarted(t, e, cb).0;
    var e' := Rollback(t, e, cb).0;
    StopsReverseStarts(t, e, cb);
    StopsKeepInitialized(t, e, cb);
    DeinitsReverseInits(t, e1, cb);
    StillInitializedFrame(e.rt, e1.rt, e.initOrder);
    assert |e1.trace[|e.trace|..]| == |Reverse(e.startOrder)| == |e.startOrder|;
    assert e'.trace[|e.trace|..|e1.trace|] == e1.trace[|e.trace|..];
  }

  lemma CoreIsDistinct(t: Table, e: Engine)
    requires Core(t, e)
    ensures Distinct(e.initOrder)
    ensures forall id :: id in e.initOrder ==> id in e.rt
  {
  }

  // ----- start_all and stop_all

  /** The fatal call is the only one, nothing but stops and deinits comes after it, and its answer is the error code. */
  ghost predicate EndsIt(descs: map<nat, Desc>, trace: seq<Call>, k: nat, code: SysErr)
    requires k < |trace|
  {
    && code == trace[k].result
    && (forall j :: 0 <= j < k ==> !Fatal(descs, trace[j]))
    && (forall j :: k < j < |trace| ==> trace[j].op.Stop? || trace[j].op.Deinit?)
  }

  /** The error code, told by the trace and by what was skipped or never resolved. */
  ghost predicate CodeTells(descs: map<nat, Desc>, e: Engine, code: SysErr) {
    && (code == Ok <==> Harmless(descs, e.trace) && !Missing(descs, e.rt))
    && (forall k :: 0 <= k < |e.trace| && Fatal(descs, e.trace[k]) ==> EndsIt(descs, e.trace, k, code))
    && (code != Ok && Harmless(descs, e.trace) ==> code == ErrDependency)
  }

  lemma {:induction false} StillMissing(descs: map<nat, Desc>, rt: map<nat, Runtime>, rt': map<nat, Runtime>)
    requires Missing(descs, rt) && KeepsMissing(rt, rt')
    ensures Missing(descs, rt')
  {
    var id :| id in descs && id in rt && (rt[id].state.Discovered? || (descs[id].Required() && rt[id].state.Skipped?));
    assert rt'[id].state == rt[id].state;
  }

  /** Stops and deinits after a harmless trace do no harm. */
  lemma {:induction false} StaysHarmless(descs: map<nat, Desc>, before: seq<Call>, after: seq<Call>)
    requires Harmless(descs, before) && before <= after
    requires forall k :: |before| <= k < |after| ==> after[k].op.Stop? || after[k].op.Deinit?
    ensures Harmless(descs, after)
  {
    forall k | 0 <= k < |after|
      ensures !Fatal(descs, after[k])
    {
      if k < |before| {
        assert after[k] == before[k];
      }
    }
  }

  /** The fatal call stays the last one that matters. */
  lemma {:induction false} EndsBefore(descs: map<nat, Desc>, before: seq<Call>, after: seq<Call>)
    requires before != [] && Fatal(descs, before[|before| - 1]) && Harmless(descs, before[..|before| - 1])
    requires before <= after
    requires forall k :: |before| <= k < |after| ==> after[k].op.Stop? || after[k].op.Deinit?
    ensures !Harmless(descs, after)
    ensures forall k :: 0 <= k < |after| && Fatal(descs, after[k]) ==>
              EndsIt(descs, after, k, before[|before| - 1].result)
  {
    var last := |before| - 1;
    assert after[last] == before[last];
    forall j | 0 <= j < last
      ensures !Fatal(descs, after[j])
    {
      assert after[j] == before[..last][j];
    }
  }

  lemma FailureAnswers(t: Table, e: Engine, o: Outcome, cb: Callbacks)
    requires Core(t, e) && Explains(t, e, o, cb) && !o.Done? && Honest(o)
    ensures Sized(t, e)
    ensures var e' := Rollback(t, e, cb).0;
            CodeTells(t.descs, e', Code(o)) && Closing(t, e', 0, cb)
  {
    hide Rollback, Core, LifeOf, FailureOf, Fatal, Harmless, EndsIt, RecordsTell, SkipsHaveCause, AnsweredFrom, Missing,
         KeepsMissing;
    CoreIsSized(t, e);
    RollbackCloses(t, e, 0, cb);
    RollbackAdds(t, e, cb);
    var e' := Rollback(t, e, cb).0;
    if o.CallbackFailed? {
      EndsBefore(t.descs, e.trace, e'.trace);
    } else {
      StaysHarmless(t.descs, e.trace, e'.trace);
      StillMissing(t.descs, e.rt, e'.rt);
      HarmlessHasNone(t.descs, e'.trace);
    }
  }

  lemma {:induction false} HarmlessHasNone(descs: map<nat, Desc>, trace: seq<Call>)
    requires Harmless(descs, trace)
    ensures forall k :: 0 <= k < |trace| ==> !Fatal(descs, trace[k])
  {
  }

  lemma SuccessAnswers(t: Table, e: Engine, cb: Callbacks)
    requires AllUp(t, e) && Explains(t, e, Done, cb)
    ensures CodeTells(t.descs, e, Ok) && Closing(t, e, 0, cb)
  {
    hide LifeOf, FailureOf, Fatal, EndsIt, RecordsTell, SkipsHaveCause, AnsweredFrom;
    HarmlessHasNone(t.descs, e.trace);
  }

  lemma FreshExplains(ds: seq<Desc>, cb: Callbacks)
    requires TableOk(ds)
    ensures Explains(TableOf(ds), Discover(ds), Done, cb)
  {
    hide TableOk;
  }

  lemma LaunchAnswers(t: Table, e: Engine, cb: Callbacks)
    requires Linked(t) && Sized(t, e) && Tidy(e.rt) && LaunchReady(t, e) && Explains(t, e, Done, cb)
    ensures var (e', outcome) := Launch(t, e, cb);
            CodeTells(t.descs, e', Code(outcome)) && Closing(t, e', 0, cb)
  {
    hide InitStage, InitializeFrom, StartFrom, Rollback, Core, AllUp, NoneLost, ResolvedBelow, StartStage, Tidy, Explains,
         CodeTells, Closing, Untouched, ValidTable;
    InitializeKeepsStage(t, e, 0, cb);
    InitsExplain(t, e, 0, cb);
    var (e1, outcome) := InitializeFrom(t, e, 0, cb);
    InitStageIsCore(t, e1);
    if outcome.Done? {
      StartReady(t, e1);
      StartsKeepStage(t, e1, 0, cb);
      StartsExplain(t, e1, 0, cb);
      var (e2, outcome2) := StartFrom(t, e1, 0, cb);
      if outcome2.Done? {
        StartedAllUp(t, e2);
        SuccessAnswers(t, e2, cb);
      } else {
        FailureAnswers(t, e2, outcome2, cb);
      }
    } else {
      FailureAnswers(t, e1, outcome, cb);
    }
  }

  /** What sys_component_start_all answers. It succeeds exactly when no init or start of a required component failed, no
      required component was skipped and nothing was left unresolved. A failed call of a required component ends it: the
      code is that call's answer, and only the rollback follows. Every other failure is a dependency error. */
  lemma StartAllCode(section: seq<Desc>, before: Engine, cb: Callbacks)
    requires |section| <= MAX_COMPONENTS && TableOk(Collect(section))
    ensures var descs := TableOf(Collect(section)).descs;
            var (e, code) := StartAll(section, before, cb);
            && (code == Ok <==> Harmless(descs, e.trace) && !Missing(descs, e.rt))
            && (forall k :: 0 <= k < |e.trace| && Fatal(descs, e.trace[k]) ==> EndsIt(descs, e.trace, k, code))
            && (code != Ok && Harmless(descs, e.trace) ==> code == ErrDependency)
  {
    hide StartAll, TableOk, Discover, DescMap, Collect, LifeOf, FailureOf, Fatal, EndsIt, Harmless, Missing, Closing;
    StartAllTells(section, before, cb);
  }

  lemma StartAllTells(section: seq<Desc>, before: Engine, cb: Callbacks)
    requires |section| <= MAX_COMPONENTS && TableOk(Collect(section))
    ensures var t := TableOf(Collect(section));
            var (e, code) := StartAll(section, before, cb);
            CodeTells(t.descs, e, code) && Closing(t, e, 0, cb)
  {
    hide StartAll, Launch, LaunchReady, TableOk, Explains, CodeTells, Closing, Discover, DescMap, Linked, Sized, Tidy, Collect;
    StartAllIsLaunch(section, before, cb);
    FreshExplains(Collect(section), cb);
    LaunchAnswers(TableOf(Collect(section)), Discover(Collect(section)), cb);
  }

  /** What sys_component_stop_all calls and answers after a start_all, successful or not. */
  lemma StopAllCode(section: seq<Desc>, before: Engine, cb: Callbacks, cbStop: Callbacks)
    requires |section| <= MAX_COMPONENTS && TableOk(Collect(section))
    ensures var t := TableOf(Collect(section));
            var e := StartAll(section, before, cb).0;
            Sized(t, e) && RolledBack(e, Rollback(t, e, cbStop).0.trace, Rollback(t, e, cbStop).1)
  {
    hide StartAll, TableOk, Rollback, Core, Discover, DescMap, Collect, RolledBack, Released, AllUp;
    StartAllSafe(section, before, cb, cbStop);
    RollbackIs(TableOf(Collect(section)), StartAll(section, before, cb).0, cbStop);
  }

  /** Every call of a start_all, and of the stop_all after it, went to the descriptor's own hook and has its answer. */
  lemma HooksAreCalled(section: seq<Desc>, before: Engine, cb: Callbacks, cbStop: Callbacks)
    requires |section| <= MAX_COMPONENTS && TableOk(Collect(section))
    ensures var t := TableOf(Collect(section));
            var e := StartAll(section, before, cb).0;
            && Sized(t, e)
            && AnsweredFrom(t.descs, e.trace, 0, cb)
            && e.trace <= Rollback(t, e, cbStop).0.trace
            && AnsweredFrom(t.descs, Rollback(t, e, cbStop).0.trace, |e.trace|, cbStop)
  {
    hide StartAll, TableOk, Rollback, Core, CodeTells, Discover, DescMap, Collect, AnsweredFrom, RecordsTell, SkipsHaveCause,
         Sized, Released, AllUp;
    var t := TableOf(Collect(section));
    var e := StartAll(section, before, cb).0;
    StartAllTells(section, before, cb);
    StartAllSafe(section, before, cb, cbStop);
    NothingYet(t.descs, e.trace, cbStop);
    RollbackCloses(t, e, |e.trace|, cbStop);
    RollbackAdds(t, e, cbStop);
  }

  lemma {:induction false} NothingYet(descs: map<nat, Desc>, trace: seq<Call>, cb: Callbacks)
    ensures AnsweredFrom(descs, trace, |trace|, cb)
  {
  }

  /** The state and the last error of every component after a start_all, and after the stop_all that follows. */
  lemma RecordsAreTold(section: seq<Desc>, before: Engine, cb: Callbacks, cbStop: Callbacks)
    requires |section| <= MAX_COMPONENTS && TableOk(Collect(section))
    ensures var t := TableOf(Collect(section));
            var e := StartAll(section, before, cb).0;
            && Sized(t, e)
            && RecordsTell(t, e) && SkipsHaveCause(t.descs, e.rt)
            && RecordsTell(t, Rollback(t, e, cbStop).0) && SkipsHaveCause(t.descs, Rollback(t, e, cbStop).0.rt)
  {
    hide StartAll, TableOk, Rollback, Core, CodeTells, Discover, DescMap, Collect, AnsweredFrom, RecordsTell, SkipsHaveCause,
         Sized, Released, AllUp;
    var t := TableOf(Collect(section));
    var e := StartAll(section, before, cb).0;
    StartAllTells(section, before, cb);
    StartAllSafe(section, before, cb, cbStop);
    NothingYet(t.descs, e.trace, cbStop);
    RollbackCloses(t, e, |e.trace|, cbStop);
  }

  /** After a successful start, a component runs exactly if nothing it did failed and all its dependencies run, it has
      failed exactly if its init or start did, and otherwise it was skipped. */
  lemma StartedExactly(section: seq<Desc>, before: Engine, cb: Callbacks, id: nat)
    requires |section| <= MAX_COMPONENTS && TableOk(Collect(section)) && StartAll(section, before, cb).1 == Ok
    requires id in TableOf(Collect(section)).descs
    ensures var descs := TableOf(Collect(section)).descs;
            var e := StartAll(section, before, cb).0;
            && id in e.rt
            && (e.rt[id].state.Running? <==> FailureOf(e.trace, id) == Ok && AllRunning(e.rt, descs[id].deps))
            && (e.rt[id].state.Failed? <==> FailureOf(e.trace, id) != Ok)
            && (e.rt[id].state.Skipped? <==> FailureOf(e.trace, id) == Ok && !AllRunning(e.rt, descs[id].deps))
  {
    hide StartAll, TableOk, Rollback, Core, Discover, DescMap, Collect, LifeOf, FailureOf, Released, AllRunning;
    RecordsAreTold(section, before, cb, cb);
    StartAllSafe(section, before, cb, cb);
    var t := TableOf(Collect(section));
    var e := StartAll(section, before, cb).0;
    assert Tells(e.rt[id], LifeOf(e.trace, id), FailureOf(e.trace, id));
    if e.rt[id].state.Skipped? {
      LostNotRunning(e.rt, t.descs[id].deps);
    }
  }

  lemma {:induction false} LostNotRunning(rt: map<nat, Runtime>, deps: seq<nat>)
    requires LostDep(rt, deps)
    ensures !AllRunning(rt, deps)
  {
  }
}
