/** Link order does not matter: two orders of the same table make the same calls and end in the same state,
    although the skips of a scan spread at a different pace. */
module ComponentConfluence {
  import opened SysTypes
  import opened ComponentModel
  import opened ComponentLifecycle
  import opened ComponentResolve

  // ----- records only move forward

  /** Once a record is resolved it stays as it is for the rest of the init stage. */
  ghost predicate Grow(rt: map<nat, Runtime>, rtF: map<nat, Runtime>) {
    && rt.Keys == rtF.Keys
    && forall id :: id in rt && !rt[id].state.Discovered? ==> rtF[id] == rt[id]
  }

  ghost predicate SameOutside(descs: map<nat, Desc>, phase: nat, rt: map<nat, Runtime>, rt': map<nat, Runtime>) {
    && rt.Keys == rt'.Keys == descs.Keys
    && forall id :: id in descs && descs[id].phase != phase ==> rt'[id] == rt[id]
  }

  lemma {:induction false} GrowTrans(rt: map<nat, Runtime>, rt1: map<nat, Runtime>, rt2: map<nat, Runtime>)
    requires Grow(rt, rt1) && Grow(rt1, rt2)
    ensures Grow(rt, rt2)
  {
    forall id | id in rt && !rt[id].state.Discovered?
      ensures rt2[id] == rt[id]
    {
      assert rt1[id] == rt[id];
    }
  }

  lemma {:induction false} SkipsGrow(descs: map<nat, Desc>, phase: nat, rt: map<nat, Runtime>, rt': map<nat, Runtime>)
    requires OnlySkips(descs, phase, rt, rt')
    ensures Grow(rt, rt') && SameOutside(descs, phase, rt, rt')
  {
  }

  lemma InitGrows(t: Table, e: Engine, id: nat, cb: Callbacks)
    requires Sized(t, e) && id in t.descs && e.rt[id].state.Discovered?
    ensures var e' := InitializeComponent(e, t.descs[id], cb).0;
            Grow(e.rt, e'.rt) && SameOutside(t.descs, t.descs[id].phase, e.rt, e'.rt)
  {
  }

  lemma RoundGrows(t: Table, e: Engine, phase: nat, cb: Callbacks)
    requires Linked(t)
    requires Sized(t, e) && Tidy(e.rt)
    ensures var r := PhaseRound(t, e, phase, cb);
            Grow(e.rt, r.e.rt) && SameOutside(t.descs, phase, e.rt, r.e.rt)
  {
    hide FullScan, InitializeComponent, Grow, Tidy;
    FullScanFacts(t, e, phase);
    var s := FullScan(t, e, phase);
    SkipsGrow(t.descs, phase, e.rt, s.rt);
    if s.ScanDone? && s.candidate.Some? {
      var e1 := e.(rt := s.rt);
      assert s.candidate.value in ReadySet(t.descs, s.rt, phase);
      InitGrows(t, e1, s.candidate.value, cb);
      GrowTrans(e.rt, s.rt, InitializeComponent(e1, t.descs[s.candidate.value], cb).0.rt);
    }
  }

  lemma {:induction false} PhaseGrows(t: Table, e: Engine, phase: nat, cb: Callbacks)
    requires Linked(t)
    requires Sized(t, e) && Tidy(e.rt)
    ensures var e' := InitializePhase(t, e, phase, cb).0;
            Grow(e.rt, e'.rt) && SameOutside(t.descs, phase, e.rt, e'.rt)
    decreases |Pending(t.descs, e.rt, phase)|
  {
    hide PhaseRound, Grow, Tidy;
    RoundGrows(t, e, phase, cb);
    var r := PhaseRound(t, e, phase, cb);
    if r.Again? {
      PhaseGrows(t, r.e, phase, cb);
      GrowTrans(e.rt, r.e.rt, InitializePhase(t, r.e, phase, cb).0.rt);
    } else {
      assert Grow(e.rt, InitializePhase(t, e, phase, cb).0.rt);
    }
  }

  // ----- why a component ends up skipped

  /** The first dependency that is not initialized. */
  function FirstMissing(rt: map<nat, Runtime>, deps: seq<nat>): (d: Option<nat>)
    ensures d.Some? ==> d.value in deps && !(d.value in rt && rt[d.value].initialized)
  {
    if deps == [] then None
    else if deps[0] in rt && rt[deps[0]].initialized then FirstMissing(rt, deps[1..])
    else Some(deps[0])
  }

  /** Not available, for a reason settled before the phase or by a failed init. */
  ghost predicate Lost(descs: map<nat, Desc>, rt: map<nat, Runtime>, phase: nat, d: nat) {
    d !in rt || d !in descs || rt[d].state.Failed? || (descs[d].phase < phase && rt[d].state.Skipped?)
  }

  /** The first missing dependency leads, through first missing dependencies, to one that is lost. */
  least predicate Doomed[nat](descs: map<nat, Desc>, rt: map<nat, Runtime>, phase: nat, id: nat) {
    && id in descs
    && var d := FirstMissing(rt, descs[id].deps);
    && d.Some?
    && (Lost(descs, rt, phase, d.value) || Doomed(descs, rt, phase, d.value))
  }

  lemma {:induction false} FailedMeansFirstMissing(rt: map<nat, Runtime>, rtF: map<nat, Runtime>, deps: seq<nat>)
    requires Tidy(rt) && Tidy(rtF) && Grow(rt, rtF) && CheckDeps(rt, deps, false) == DepFailed
    ensures var d := FirstMissing(rtF, deps);
            && d.Some?
            && (d.value !in rt || rt[d.value].state.Failed? || rt[d.value].state.Skipped?)
  {
    if deps[0] in rt && rt[deps[0]].initialized {
      FailedMeansFirstMissing(rt, rtF, deps[1..]);
    }
  }

  lemma {:induction false} FirstMissingFails(rt: map<nat, Runtime>, rtF: map<nat, Runtime>, deps: seq<nat>)
    requires rt.Keys == rtF.Keys && Tidy(rt)
    requires forall id :: id in rt ==> (rt[id].initialized <==> rtF[id].initialized)
    requires var d := FirstMissing(rtF, deps);
             d.Some? && (d.value !in rt || rt[d.value].state.Failed? || rt[d.value].state.Skipped?)
    ensures CheckDeps(rt, deps, false) == DepFailed
  {
    if deps[0] in rt && rt[deps[0]].initialized {
      FirstMissingFails(rt, rtF, deps[1..]);
    }
  }

  /** Every component of the phase that is skipped so far is doomed in the final state. */
  ghost predicate SkipsDoomed(descs: map<nat, Desc>, phase: nat, rt: map<nat, Runtime>, rtF: map<nat, Runtime>) {
    && rt.Keys == descs.Keys
    && forall id :: id in descs && rt[id].state.Skipped? && descs[id].phase >= phase ==> Doomed(descs, rtF, phase, id)
  }

  lemma {:induction false} SkipIsDoomed(descs: map<nat, Desc>, phase: nat, rt: map<nat, Runtime>, rtF: map<nat,
                                        Runtime>, id: nat)
    requires rt.Keys == descs.Keys && id in descs
    requires Tidy(rt) && Tidy(rtF) && Grow(rt, rtF) && SkipsDoomed(descs, phase, rt, rtF)
    requires CheckDeps(rt, descs[id].deps, false) == DepFailed
    ensures Doomed(descs, rtF, phase, id)
  {
    FailedMeansFirstMissing(rt, rtF, descs[id].deps);
    var d := FirstMissing(rtF, descs[id].deps).value;
    if !Lost(descs, rtF, phase, d) {
      assert rt[d].state.Skipped? && descs[d].phase >= phase;
    }
  }

  lemma {:induction false} OneMoreDoomed(descs: map<nat, Desc>, phase: nat, rt: map<nat, Runtime>, rtF: map<nat,
                                         Runtime>, id: nat)
    requires SkipsDoomed(descs, phase, rt, rtF) && id in descs && Doomed(descs, rtF, phase, id)
    ensures SkipsDoomed(descs, phase, SetState(rt, id, Skipped, ErrDependency), rtF)
  {
    hide Doomed;
  }

  lemma {:induction false} SkipDooms(descs: map<nat, Desc>, phase: nat, rt: map<nat, Runtime>, rtF: map<nat, Runtime>,
                                     id: nat)
    requires rt.Keys == descs.Keys && id in descs && rt[id].state.Discovered?
    requires Tidy(rt) && Tidy(rtF) && Grow(rt, rtF) && SkipsDoomed(descs, phase, rt, rtF)
    requires CheckDeps(rt, descs[id].deps, false) == DepFailed
    ensures var rt' := SetState(rt, id, Skipped, ErrDependency);
            Tidy(rt') && SkipsDoomed(descs, phase, rt', rtF)
  {
    hide SkipsDoomed, Grow, CheckDeps, Doomed;
    SkipIsDoomed(descs, phase, rt, rtF, id);
    OneMoreDoomed(descs, phase, rt, rtF, id);
  }

  lemma {:induction false} ScanDooms(descs: map<nat, Desc>, order: seq<nat>, rt: map<nat, Runtime>, phase: nat,
                                     pending: nat, skipped: bool, candidate: Option<nat>, rtF: map<nat, Runtime>)
    requires rt.Keys == descs.Keys && Tidy(rt) && Tidy(rtF) && forall id :: id in order ==> id in descs
    requires Grow(ScanFrom(descs, order, rt, phase, pending, skipped, candidate).rt, rtF)
    requires SkipsDoomed(descs, phase, rt, rtF)
    ensures SkipsDoomed(descs, phase, ScanFrom(descs, order, rt, phase, pending, skipped, candidate).rt, rtF)
  {
    hide Grow, SkipsDoomed, Doomed, OnlySkips, Pending, Tidy, CheckDeps;
    if order != [] {
      var id, rest := order[0], order[1..];
      var s := ScanFrom(descs, order, rt, phase, pending, skipped, candidate);
      ScanSkips(descs, order, rt, phase, pending, skipped, candidate);
      SkipsGrow(descs, phase, rt, s.rt);
      GrowTrans(rt, s.rt, rtF);
      if !rt[id].state.Discovered? || descs[id].phase != phase {
        ScanDooms(descs, rest, rt, phase, pending, skipped, candidate, rtF);
      } else {
        match CheckDeps(rt, descs[id].deps, false)
        case DepFailed =>
          var rt' := SetState(rt, id, Skipped, ErrDependency);
          SkipDooms(descs, phase, rt, rtF, id);
          if !descs[id].Required() {
            ScanDooms(descs, rest, rt', phase, pending + 1, true, candidate, rtF);
          }
        case Ready => ScanDooms(descs, rest, rt, phase, pending + 1, skipped, Better(id, candidate), rtF);
        case Waiting => ScanDooms(descs, rest, rt, phase, pending + 1, skipped, candidate, rtF);
      }
    }
  }

  lemma {:induction false} InitKeepsDoomed(t: Table, e: Engine, phase: nat, id: nat, cb: Callbacks, rtF: map<nat,
                                           Runtime>)
    requires Sized(t, e) && id in t.descs && SkipsDoomed(t.descs, phase, e.rt, rtF)
    ensures SkipsDoomed(t.descs, phase, InitializeComponent(e, t.descs[id], cb).0.rt, rtF)
  {
    hide Doomed;
  }

  lemma {:induction false} ActiveDooms(t: Table, e1: Engine, phase: nat, id: nat, cb: Callbacks, rtF: map<nat, Runtime>)
    requires Sized(t, e1) && id in t.descs && e1.rt[id].state.Discovered?
    requires Grow(InitializeComponent(e1, t.descs[id], cb).0.rt, rtF)
    ensures Grow(e1.rt, rtF)
    ensures SkipsDoomed(t.descs, phase, e1.rt, rtF) ==>
              SkipsDoomed(t.descs, phase, InitializeComponent(e1, t.descs[id], cb).0.rt, rtF)
  {
    hide Doomed, Grow, SkipsDoomed, InitializeComponent;
    InitGrows(t, e1, id, cb);
    GrowTrans(e1.rt, InitializeComponent(e1, t.descs[id], cb).0.rt, rtF);
    if SkipsDoomed(t.descs, phase, e1.rt, rtF) {
      InitKeepsDoomed(t, e1, phase, id, cb, rtF);
    }
  }

  lemma {:induction false} RoundDooms(t: Table, e: Engine, phase: nat, cb: Callbacks, rtF: map<nat, Runtime>)
    requires Linked(t)
    requires Sized(t, e) && Tidy(e.rt) && Tidy(rtF)
    requires Grow(PhaseRound(t, e, phase, cb).e.rt, rtF)
    requires SkipsDoomed(t.descs, phase, e.rt, rtF)
    ensures SkipsDoomed(t.descs, phase, PhaseRound(t, e, phase, cb).e.rt, rtF)
  {
    hide Doomed, Tidy, Grow, SkipsDoomed, InitializeComponent, ScanFrom, OnlySkips, CheckDeps, DepsInitialized;
    FullScanFacts(t, e, phase);
    var s := FullScan(t, e, phase);
    if s.ScanDone? && s.candidate.Some? {
      assert s.candidate.value in ReadySet(t.descs, s.rt, phase);
      ActiveDooms(t, e.(rt := s.rt), phase, s.candidate.value, cb, rtF);
    }
    ScanDooms(t.descs, t.order, e.rt, phase, 0, false, None, rtF);
  }

  lemma {:induction false} PhaseDooms(t: Table, e: Engine, phase: nat, cb: Callbacks, rtF: map<nat, Runtime>)
    requires Linked(t)
    requires Sized(t, e) && Tidy(e.rt) && Tidy(rtF)
    requires Grow(InitializePhase(t, e, phase, cb).0.rt, rtF)
    requires SkipsDoomed(t.descs, phase, e.rt, rtF)
    ensures SkipsDoomed(t.descs, phase, InitializePhase(t, e, phase, cb).0.rt, rtF)
    decreases |Pending(t.descs, e.rt, phase)|
  {
    hide PhaseRound, SkipsDoomed, Grow, Tidy;
    var r := PhaseRound(t, e, phase, cb);
    if r.Again? {
      PhaseGrows(t, r.e, phase, cb);
      GrowTrans(r.e.rt, InitializePhase(t, r.e, phase, cb).0.rt, rtF);
      RoundDooms(t, e, phase, cb, rtF);
      PhaseDooms(t, r.e, phase, cb, rtF);
    } else {
      RoundDooms(t, e, phase, cb, rtF);
    }
  }

  // ----- the second order, compared with a run of the first that resolved everything

  /** The final records of a phase that ended well. */
  ghost predicate WellEnded(descs: map<nat, Desc>, phase: nat, rtF: map<nat, Runtime>) {
    && rtF.Keys == descs.Keys && Tidy(rtF)
    && (forall id :: id in descs && rtF[id].initialized ==> DepsInitialized(rtF, descs[id].deps))
    && (forall id :: id in descs && descs[id].phase == phase ==> !rtF[id].state.Discovered?)
    && (forall id :: id in descs && descs[id].phase == phase && descs[id].Required() ==> rtF[id].initialized)
    && SkipsDoomed(descs, phase, rtF, rtF)
  }

  /** Nothing given up so far is initialized in the final state. */
  ghost predicate Outside(descs: map<nat, Desc>, phase: nat, rt: map<nat, Runtime>, rtF: map<nat, Runtime>) {
    && rt.Keys == rtF.Keys == descs.Keys
    && (forall id :: id in descs && (rt[id].state.Failed? || rt[id].state.Skipped?) ==> !rtF[id].initialized)
    && (forall id :: id in descs && descs[id].phase == phase && rt[id].state.Skipped? ==>
          !DepsInitialized(rtF, descs[id].deps))
  }

  ghost predicate Open(r: Runtime) {
    r == Runtime(Discovered, Ok, false, false) || r == Runtime(Skipped, ErrDependency, false, false)
  }

  /** Equal records, except that one side may already have skipped what the other has not looked at yet. */
  ghost predicate Near(descs: map<nat, Desc>, phase: nat, rt: map<nat, Runtime>, rt': map<nat, Runtime>) {
    && rt.Keys == rt'.Keys == descs.Keys
    && forall id :: id in descs ==>
         rt[id] == rt'[id] || (descs[id].phase == phase && Open(rt[id]) && Open(rt'[id]))
  }

  lemma {:induction false} FailedDepIsOut(rt: map<nat, Runtime>, rtF: map<nat, Runtime>, deps: seq<nat>)
    requires rt.Keys == rtF.Keys && CheckDeps(rt, deps, false) == DepFailed
    requires forall id :: id in rt && (rt[id].state.Failed? || rt[id].state.Skipped?) ==> !rtF[id].initialized
    ensures !DepsInitialized(rtF, deps)
  {
    if deps[0] in rt && rtF[deps[0]].initialized {
      FailedDepIsOut(rt, rtF, deps[1..]);
      assert forall d :: d in deps[1..] ==> d in deps;
    }
  }

  /** Scanning in any order skips only components that are not initialized in the final state. */
  lemma {:induction false} OutsideKeys(descs: map<nat, Desc>, phase: nat, rt: map<nat, Runtime>,
                                       rtF: map<nat, Runtime>)
    requires Outside(descs, phase, rt, rtF)
    ensures rt.Keys == descs.Keys
  {
  }

  lemma {:induction false} SkipStaysOutside(descs: map<nat, Desc>, phase: nat, rt: map<nat, Runtime>,
                                            rtF: map<nat, Runtime>, id: nat)
    requires WellEnded(descs, phase, rtF) && Outside(descs, phase, rt, rtF)
    requires id in descs && id in rt && descs[id].phase == phase && CheckDeps(rt, descs[id].deps, false) == DepFailed
    ensures !descs[id].Required() && Outside(descs, phase, SetState(rt, id, Skipped, ErrDependency), rtF)
  {
    hide CheckDeps, Doomed, DepsInitialized;
    FailedDepIsOut(rt, rtF, descs[id].deps);
  }

  lemma {:induction false} ScanStaysOutside(descs: map<nat, Desc>, order: seq<nat>, rt: map<nat, Runtime>, phase: nat,
                                            pending: nat, skipped: bool, candidate: Option<nat>, rtF: map<nat, Runtime>)
    requires WellEnded(descs, phase, rtF) && Outside(descs, phase, rt, rtF) && forall id :: id in order ==> id in descs
    ensures var s := ScanFrom(descs, order, rt, phase, pending, skipped, candidate);
            s.ScanDone? && Outside(descs, phase, s.rt, rtF)
  {
    hide CheckDeps, Outside, WellEnded, DepsInitialized;
    OutsideKeys(descs, phase, rt, rtF);
    if order != [] {
      var id, rest := order[0], order[1..];
      if !rt[id].state.Discovered? || descs[id].phase != phase {
        ScanStaysOutside(descs, rest, rt, phase, pending, skipped, candidate, rtF);
      } else {
        match CheckDeps(rt, descs[id].deps, false)
        case DepFailed =>
          SkipStaysOutside(descs, phase, rt, rtF, id);
          ScanStaysOutside(descs, rest, SetState(rt, id, Skipped, ErrDependency), phase, pending + 1, true, candidate, rtF);
        case Ready => ScanStaysOutside(descs, rest, rt, phase, pending + 1, skipped, Better(id, candidate), rtF);
        case Waiting => ScanStaysOutside(descs, rest, rt, phase, pending + 1, skipped, candidate, rtF);
      }
    }
  }

  lemma {:induction false} ReadySame(descs: map<nat, Desc>, phase: nat, rtA: map<nat, Runtime>, rtB: map<nat,
                                     Runtime>, rtF: map<nat, Runtime>)
    requires Near(descs, phase, rtA, rtB) && Grow(rtA, rtF) && Tidy(rtA) && Tidy(rtB)
    requires Outside(descs, phase, rtA, rtF) && Outside(descs, phase, rtB, rtF)
    ensures ReadySet(descs, rtA, phase) == ReadySet(descs, rtB, phase)
  {
    forall id | id in descs
      ensures id in ReadySet(descs, rtA, phase) <==> id in ReadySet(descs, rtB, phase)
    {
      ReadySameAt(descs, phase, rtA, rtB, rtF, id);
    }
  }

  lemma {:induction false} ReadySameAt(descs: map<nat, Desc>, phase: nat, rtA: map<nat, Runtime>, rtB: map<nat,
                                       Runtime>, rtF: map<nat, Runtime>, id: nat)
    requires Near(descs, phase, rtA, rtB) && Grow(rtA, rtF) && Tidy(rtA) && Tidy(rtB) && id in descs
    requires Outside(descs, phase, rtA, rtF) && Outside(descs, phase, rtB, rtF)
    ensures id in ReadySet(descs, rtA, phase) <==> id in ReadySet(descs, rtB, phase)
  {
    assert DepsInitialized(rtA, descs[id].deps) <==> DepsInitialized(rtB, descs[id].deps);
    assert DepsInitialized(rtA, descs[id].deps) ==> DepsInitialized(rtF, descs[id].deps);
  }

  /** In a phase where nothing can be skipped any more, every doomed component has been given up. */
  lemma {:induction false} DoomedGivenUp(k: nat, descs: map<nat, Desc>, phase: nat, rtB: map<nat, Runtime>,
                                         rtF: map<nat, Runtime>, id: nat)
    requires Near(descs, phase, rtF, rtB) && Tidy(rtB) && Tidy(rtF)
    requires Doomed#[k](descs, rtF, phase, id) && descs[id].phase <= phase && !rtF[id].initialized
    requires forall x :: x in descs ==> DepsKnown(descs, descs[x])
    requires forall x :: x in descs && descs[x].phase < phase ==> !rtF[x].state.Discovered?
    requires forall x :: x in Pending(descs, rtB, phase) ==> CheckDeps(rtB, descs[x].deps, false) != DepFailed
    ensures rtB[id].state.Failed? || rtB[id].state.Skipped?
  {
    if descs[id].phase == phase {
      var d := FirstMissing(rtF, descs[id].deps).value;
      assert DepsKnown(descs, descs[id]);
      if !Lost(descs, rtF, phase, d) {
        DoomedGivenUp(k - 1, descs, phase, rtB, rtF, d);
      }
      FirstMissingFails(rtB, rtF, descs[id].deps);
      assert id !in Pending(descs, rtB, phase);
    }
  }

  /** The tables agree on everything but the link order. */
  ghost predicate SameTable(tA: Table, tB: Table) {
    tA.descs == tB.descs && ValidTable(tA) && ValidTable(tB)
  }

  /** What the comparison of two runs of a phase knows at the start of every round. */
  ghost predicate Compared(descs: map<nat, Desc>, phase: nat, eA: Engine, eB: Engine, rtF: map<nat, Runtime>) {
    && eB == eA.(rt := eB.rt)
    && Near(descs, phase, eA.rt, eB.rt)
    && Outside(descs, phase, eA.rt, rtF) && Outside(descs, phase, eB.rt, rtF)
  }

  lemma {:induction false} SkipsStayNear(descs: map<nat, Desc>, phase: nat, rtA: map<nat, Runtime>, rtB: map<nat,
                                         Runtime>,
                      rtA': map<nat, Runtime>, rtB': map<nat, Runtime>)
    requires Near(descs, phase, rtA, rtB) && AllPlain(rtA) && AllPlain(rtB)
    requires OnlySkips(descs, phase, rtA, rtA') && OnlySkips(descs, phase, rtB, rtB')
    ensures Near(descs, phase, rtA', rtB')
  {
    forall id | id in descs
      ensures rtA'[id] == rtB'[id] || (descs[id].phase == phase && Open(rtA'[id]) && Open(rtB'[id]))
    {
      assert rtA[id].state.Discovered? ==> Open(rtA[id]);
      assert rtB[id].state.Discovered? ==> Open(rtB[id]);
    }
  }

  /** Discovered records are as collect_components made them. */
  ghost predicate AllPlain(rt: map<nat, Runtime>) {
    forall id :: id in rt && rt[id].state.Discovered? ==> Open(rt[id])
  }

  lemma InitStagePlain(t: Table, e: Engine)
    requires InitStage(t, e)
    ensures AllPlain(e.rt)
  {
  }

  lemma {:induction false} UpdateNear(descs: map<nat, Desc>, phase: nat, rtA: map<nat, Runtime>, rtB: map<nat,
                                      Runtime>, id: nat, r: Runtime)
    requires Near(descs, phase, rtA, rtB) && id in descs
    ensures Near(descs, phase, rtA[id := r], rtB[id := r])
  {
  }

  lemma {:induction false} UpdateOutside(descs: map<nat, Desc>, phase: nat, rt: map<nat, Runtime>, rtF: map<nat,
                                         Runtime>, id: nat, r: Runtime)
    requires Outside(descs, phase, rt, rtF) && id in descs && !r.state.Skipped?
    requires r.state.Failed? ==> !rtF[id].initialized
    ensures Outside(descs, phase, rt[id := r], rtF)
  {
  }

  /** Both runs initialise the same component with the same answer. */
  lemma {:induction false} InitStaysCompared(t: Table, phase: nat, eA: Engine, eB: Engine, id: nat, cb: Callbacks,
                                             rtF: map<nat, Runtime>)
    requires Sized(t, eA) && Sized(t, eB) && Compared(t.descs, phase, eA, eB, rtF)
    requires id in t.descs && eA.rt[id] == eB.rt[id]
    requires Tidy(rtF) && Grow(InitializeComponent(eA, t.descs[id], cb).0.rt, rtF)
    ensures var (eA', outcomeA) := InitializeComponent(eA, t.descs[id], cb);
            var (eB', outcomeB) := InitializeComponent(eB, t.descs[id], cb);
            outcomeA == outcomeB && Compared(t.descs, phase, eA', eB', rtF)
  {
    var eA' := InitializeComponent(eA, t.descs[id], cb).0;
    assert !eA'.rt[id].state.Discovered?;
    hide Near, Outside;
    UpdateNear(t.descs, phase, eA.rt, eB.rt, id, eA'.rt[id]);
    UpdateOutside(t.descs, phase, eA.rt, rtF, id, eA'.rt[id]);
    UpdateOutside(t.descs, phase, eB.rt, rtF, id, eA'.rt[id]);
  }

  lemma {:induction false} ScansStayCompared(tA: Table, tB: Table, phase: nat, eA: Engine, eB: Engine, rtF: map<nat,
                                             Runtime>)
    requires SameTable(tA, tB) && InitStage(tA, eA) && InitStage(tB, eB)
    requires WellEnded(tA.descs, phase, rtF) && Compared(tA.descs, phase, eA, eB, rtF)
    ensures var (sA, sB) := (FullScan(tA, eA, phase), FullScan(tB, eB, phase));
            && sA.ScanDone? && sB.ScanDone?
            && Compared(tA.descs, phase, eA.(rt := sA.rt), eB.(rt := sB.rt), rtF)
            && Compared(tA.descs, phase, eA.(rt := sA.rt), eB, rtF)
            && Compared(tA.descs, phase, eA, eB.(rt := sB.rt), rtF)
  {
    hide InitStage, Near, Outside, AllPlain, WellEnded, ScanFrom;
    InitStageTidy(tA, eA);
    InitStageTidy(tB, eB);
    InitStagePlain(tA, eA);
    InitStagePlain(tB, eB);
    FullScanFacts(tA, eA, phase);
    FullScanFacts(tB, eB, phase);
    ScanStaysOutside(tA.descs, tA.order, eA.rt, phase, 0, false, None, rtF);
    ScanStaysOutside(tB.descs, tB.order, eB.rt, phase, 0, false, None, rtF);
    var (sA, sB) := (FullScan(tA, eA, phase), FullScan(tB, eB, phase));
    SkipsStayNear(tA.descs, phase, eA.rt, eB.rt, sA.rt, sB.rt);
    SkipsStayNear(tA.descs, phase, eA.rt, eB.rt, sA.rt, eB.rt);
    SkipsStayNear(tA.descs, phase, eA.rt, eB.rt, eA.rt, sB.rt);
  }

  lemma {:induction false} TailDone(descs: map<nat, Desc>, phase: nat, rtF: map<nat, Runtime>, rtB: map<nat, Runtime>)
    requires WellEnded(descs, phase, rtF) && Near(descs, phase, rtF, rtB) && Pending(descs, rtB, phase) == {}
    ensures rtB == rtF
  {
    forall id | id in descs
      ensures rtB[id] == rtF[id]
    {
      assert id !in Pending(descs, rtB, phase);
    }
  }

  lemma {:induction false} NoSkipLeftMeansDone(descs: map<nat, Desc>, phase: nat, rtF: map<nat, Runtime>,
                                               rtB: map<nat, Runtime>, id: nat)
    requires WellEnded(descs, phase, rtF) && Near(descs, phase, rtF, rtB) && Tidy(rtB)
    requires forall x :: x in descs ==> DepsKnown(descs, descs[x])
    requires forall x :: x in descs && descs[x].phase < phase ==> !rtF[x].state.Discovered?
    requires forall x :: x in Pending(descs, rtB, phase) ==> CheckDeps(rtB, descs[x].deps, false) != DepFailed
    ensures id !in Pending(descs, rtB, phase)
  {
    if id in descs && descs[id].phase == phase && rtF[id].state.Skipped? {
      assert Doomed(descs, rtF, phase, id);
      hide Doomed, WellEnded, CheckDeps;
      var k: nat :| Doomed#[k](descs, rtF, phase, id);
      DoomedGivenUp(k, descs, phase, rtB, rtF, id);
    }
  }

  lemma {:induction false} TailNotStuck(descs: map<nat, Desc>, phase: nat, rtF: map<nat, Runtime>, rtB: map<nat,
                                        Runtime>)
    requires WellEnded(descs, phase, rtF) && Near(descs, phase, rtF, rtB) && Tidy(rtB)
    requires forall x :: x in descs ==> DepsKnown(descs, descs[x])
    requires forall x :: x in descs && descs[x].phase < phase ==> !rtF[x].state.Discovered?
    ensures !Stuck(descs, rtB, phase)
  {
    assert rtB.Keys == descs.Keys;
    hide WellEnded, CheckDeps, Tidy, Near;
    if forall x :: x in Pending(descs, rtB, phase) ==> CheckDeps(rtB, descs[x].deps, false) != DepFailed {
      forall id
        ensures id !in Pending(descs, rtB, phase)
      {
        NoSkipLeftMeansDone(descs, phase, rtF, rtB, id);
      }
      assert Pending(descs, rtB, phase) == {};
    }
  }

  /** With nothing ready, a round finishes, skips, or is stuck. */
  lemma QuietRound(t: Table, e: Engine, phase: nat, cb: Callbacks)
    requires Linked(t)
    requires Sized(t, e) && Tidy(e.rt) && ReadySet(t.descs, e.rt, phase) == {}
    requires FullScan(t, e, phase).ScanDone?
    ensures var r := PhaseRound(t, e, phase, cb);
            && r.e == e.(rt := FullScan(t, e, phase).rt)
            && (r.Finished? ==> r.outcome.Done? || r.outcome.NoProgress?)
            && (r.Finished? && r.outcome.Done? ==> r.e == e && Pending(t.descs, e.rt, phase) == {})
  {
    hide ScanFrom, InitializeComponent, Tidy;
    FullScanFacts(t, e, phase);
  }

  lemma {:induction false} TailReady(descs: map<nat, Desc>, phase: nat, rtF: map<nat, Runtime>, rtB: map<nat, Runtime>)
    requires WellEnded(descs, phase, rtF) && Near(descs, phase, rtF, rtB) && Tidy(rtB)
    requires Outside(descs, phase, rtF, rtF) && Outside(descs, phase, rtB, rtF)
    ensures ReadySet(descs, rtB, phase) == {}
  {
    ReadySame(descs, phase, rtF, rtB, rtF);
    forall id
      ensures id !in ReadySet(descs, rtF, phase)
    {
    }
  }

  /** The first run has finished the phase; the second has only skips left to make, and makes them all. */
  lemma {:induction false} TailCatchesUp(tA: Table, tB: Table, eF: Engine, eB: Engine, phase: nat, cb: Callbacks)
    requires Linked(tB) && Sized(tB, eB) && Tidy(eB.rt)
    requires SameTable(tA, tB) && InitStage(tA, eF) && InitStage(tB, eB) && ResolvedBelow(tA, eF, phase)
    requires WellEnded(tA.descs, phase, eF.rt) && Compared(tA.descs, phase, eF, eB, eF.rt)
    ensures InitStage(tB, eB) && InitializePhase(tB, eB, phase, cb) == (eF, Done)
    decreases |Pending(tB.descs, eB.rt, phase)|
  {
    hide InitStage, FullScan, Stuck, Near, Outside, WellEnded, PhaseRound, Tidy;
    InitStageTidy(tA, eF);
    InitStageTidy(tB, eB);
    TailReady(tA.descs, phase, eF.rt, eB.rt);
    TailNotStuck(tA.descs, phase, eF.rt, eB.rt);
    ScansStayCompared(tA, tB, phase, eF, eB, eF.rt);
    QuietRound(tB, eB, phase, cb);
    RoundGivesUpStuck(tB, eB, phase, cb);
    RoundKeepsStage(tB, eB, phase, cb);
    var r := PhaseRound(tB, eB, phase, cb);
    if r.Again? {
      TailCatchesUp(tA, tB, eF, r.e, phase, cb);
    } else {
      TailDone(tA.descs, phase, eF.rt, eB.rt);
    }
  }

  /** A round that initialises something: the least ready component, in both orders. */
  lemma ActiveRound(t: Table, e: Engine, phase: nat, cb: Callbacks, least: nat)
    requires Linked(t)
    requires Sized(t, e) && Tidy(e.rt) && FullScan(t, e, phase).ScanDone?
    requires IsLeast(Some(least), ReadySet(t.descs, e.rt, phase))
    ensures var s := FullScan(t, e, phase);
            var e1 := e.(rt := s.rt);
            && least in t.descs && s.rt[least] == e.rt[least] && s.rt[least].state.Discovered?
            && var (e2, outcome) := InitializeComponent(e1, t.descs[least], cb);
            PhaseRound(t, e, phase, cb) == if outcome.Done? then Again(e2) else Finished(e2, outcome)
  {
    hide ScanFrom, InitializeComponent, Tidy;
    FullScanFacts(t, e, phase);
    var s := FullScan(t, e, phase);
    assert s.candidate == Some(least);
    assert least in ReadySet(t.descs, s.rt, phase);
    assert least in Pending(t.descs, e.rt, phase);
  }

  lemma {:induction false} SameDiscovered(descs: map<nat, Desc>, phase: nat, rtA: map<nat, Runtime>, rtB: map<nat,
                                          Runtime>, id: nat)
    requires Near(descs, phase, rtA, rtB) && id in descs && rtA[id].state.Discovered? && rtB[id].state.Discovered?
    ensures rtA[id] == rtB[id]
  {
  }

  lemma {:induction false} ActiveStep(tA: Table, tB: Table, eA: Engine, eB: Engine, phase: nat, cb: Callbacks,
                                      rtF: map<nat, Runtime>, least: nat)
    requires Linked(tA) && Sized(tA, eA) && Tidy(eA.rt) && Linked(tB) && Sized(tB, eB) && Tidy(eB.rt)
    requires SameTable(tA, tB) && InitStage(tA, eA) && InitStage(tB, eB)
    requires WellEnded(tA.descs, phase, rtF) && Compared(tA.descs, phase, eA, eB, rtF) && Tidy(rtF)
    requires IsLeast(Some(least), ReadySet(tA.descs, eA.rt, phase))
    requires ReadySet(tA.descs, eA.rt, phase) == ReadySet(tA.descs, eB.rt, phase)
    requires PhaseRound(tA, eA, phase, cb).Again? && Grow(PhaseRound(tA, eA, phase, cb).e.rt, rtF)
    ensures var rB := PhaseRound(tB, eB, phase, cb);
            rB.Again? && Compared(tA.descs, phase, PhaseRound(tA, eA, phase, cb).e, rB.e, rtF)
  {
    hide InitStage, FullScan, Near, Outside, WellEnded, PhaseRound, Tidy, Grow, InitializeComponent, IsLeast, ReadySet,
         ValidTable, Linked;
    ScansStayCompared(tA, tB, phase, eA, eB, rtF);
    ActiveRound(tA, eA, phase, cb, least);
    ActiveRound(tB, eB, phase, cb, least);
    var eA1 := eA.(rt := FullScan(tA, eA, phase).rt);
    var eB1 := eB.(rt := FullScan(tB, eB, phase).rt);
    SameDiscovered(tA.descs, phase, eA1.rt, eB1.rt, least);
    InitStaysCompared(tA, phase, eA1, eB1, least, cb, rtF);
  }

  /** Two orders, one phase: if the first resolves it, so does the second, with the same engine. */
  lemma {:induction false} Lockstep(tA: Table, tB: Table, eA: Engine, eB: Engine, phase: nat, cb: Callbacks, eF: Engine)
    requires Linked(tA) && Sized(tA, eA) && Tidy(eA.rt) && Linked(tB) && Sized(tB, eB) && Tidy(eB.rt)
    requires InitializePhase(tA, eA, phase, cb) == (eF, Done)
    requires SameTable(tA, tB) && InitStage(tA, eA) && InitStage(tB, eB)
    requires InitStage(tA, eF) && ResolvedBelow(tA, eF, phase) && WellEnded(tA.descs, phase, eF.rt)
    requires Compared(tA.descs, phase, eA, eB, eF.rt)
    ensures InitializePhase(tB, eB, phase, cb) == (eF, Done)
    decreases |Pending(tA.descs, eA.rt, phase)|
  {
    hide InitStage, FullScan, Near, Outside, WellEnded, PhaseRound, Tidy, Grow, InitializeComponent, ResolvedBelow;
    InitStageTidy(tA, eF);
    PhaseGrows(tA, eA, phase, cb);
    ReadySame(tA.descs, phase, eA.rt, eB.rt, eF.rt);
    ScansStayCompared(tA, tB, phase, eA, eB, eF.rt);
    RoundKeepsStage(tA, eA, phase, cb);
    RoundKeepsStage(tB, eB, phase, cb);
    var rA := PhaseRound(tA, eA, phase, cb);
    var ready := ReadySet(tA.descs, eA.rt, phase);
    if ready == {} {
      QuietRound(tA, eA, phase, cb);
      if rA.Again? {
        Lockstep(tA, tB, rA.e, eB, phase, cb, eF);
      } else {
        TailCatchesUp(tA, tB, eF, eB, phase, cb);
      }
    } else {
      var least := Least(ready);
      ActiveRound(tA, eA, phase, cb, least);
      PhaseGrows(tA, rA.e, phase, cb);
      ActiveStep(tA, tB, eA, eB, phase, cb, eF.rt, least);
      Lockstep(tA, tB, rA.e, PhaseRound(tB, eB, phase, cb).e, phase, cb, eF);
    }
  }

  lemma {:induction false} Least(s: set<nat>) returns (x: nat)
    requires s != {}
    ensures IsLeast(Some(x), s)
  {
    var y :| y in s;
    if s == {y} {
      x := y;
    } else {
      x := Least(s - {y});
      assert forall z :: z in s ==> z == y || z in s - {y};
      if y < x {
        x := y;
      }
    }
  }

  // ----- all phases, and the whole start

  ghost predicate Untouched(t: Table, e: Engine, phase: nat)
    requires Sized(t, e)
  {
    forall id :: id in t.descs && t.descs[id].phase >= phase ==> e.rt[id].state.Discovered?
  }

  lemma InitializedAreClosed(t: Table, e: Engine)
    requires InitStage(t, e)
    ensures forall id :: id in t.descs && e.rt[id].initialized ==> DepsInitialized(e.rt, t.descs[id].deps)
  {
    forall id | id in t.descs && e.rt[id].initialized
      ensures DepsInitialized(e.rt, t.descs[id].deps)
    {
      var k :| 0 <= k < |e.initOrder| && e.initOrder[k] == id;
      assert DepsWithin(t.descs, e.initOrder[k], e.initOrder[..k]);
    }
  }

  /** The final records of a successful phase meet the conditions the comparison starts from. */
  lemma EndsWell(t: Table, e: Engine, phase: nat, cb: Callbacks)
    requires Linked(t) && ValidTable(t) && InitStage(t, e)
    requires ResolvedBelow(t, e, phase) && NoneLost(t, e) && Untouched(t, e, phase)
    requires Sized(t, e) && Tidy(e.rt) && InitializePhase(t, e, phase, cb).1.Done?
    ensures var eF := InitializePhase(t, e, phase, cb).0;
            && InitStage(t, eF) && ResolvedBelow(t, eF, phase + 1) && NoneLost(t, eF) && Untouched(t, eF, phase + 1)
            && WellEnded(t.descs, phase, eF.rt) && Outside(t.descs, phase, e.rt, eF.rt)
  {
    hide InitializePhase, InitStage, DepsInitialized, Doomed, ValidTable, Linked;
    var eF := InitializePhase(t, e, phase, cb).0;
    PhaseKeepsStage(t, e, phase, cb);
    PhaseGrows(t, e, phase, cb);
    InitStageTidy(t, eF);
    InitializedAreClosed(t, eF);
    assert SkipsDoomed(t.descs, phase, e.rt, eF.rt);
    PhaseDooms(t, e, phase, cb, eF.rt);
  }

  lemma StageSame(tA: Table, tB: Table, e: Engine)
    requires SameTable(tA, tB)
    ensures InitStage(tA, e) <==> InitStage(tB, e)
  {
    hide WellOrdered, DependenciesFirst, Distinct, LivesAfter;
  }

  lemma PhaseFollows(tA: Table, tB: Table, e: Engine, phase: nat, cb: Callbacks)
    requires Linked(tA) && Linked(tB) && Sized(tA, e) && Sized(tB, e) && Tidy(e.rt)
    requires SameTable(tA, tB) && InitStage(tA, e)
    requires ResolvedBelow(tA, e, phase) && NoneLost(tA, e) && Untouched(tA, e, phase)
    requires InitializePhase(tA, e, phase, cb).1.Done?
    ensures InitializePhase(tB, e, phase, cb) == InitializePhase(tA, e, phase, cb)
  {
    hide InitializePhase, InitStage, WellEnded, Outside;
    EndsWell(tA, e, phase, cb);
    StageSame(tA, tB, e);
    var eF := InitializePhase(tA, e, phase, cb).0;
    assert Compared(tA.descs, phase, e, e, eF.rt);
    Lockstep(tA, tB, e, e, phase, cb, eF);
  }

  /** One phase in two link orders: it resolves in one iff in the other, and then both end in the same engine. */
  lemma PhaseConfluent(tA: Table, tB: Table, e: Engine, phase: nat, cb: Callbacks)
    requires Linked(tA) && Linked(tB) && Sized(tA, e) && Sized(tB, e) && Tidy(e.rt)
    requires SameTable(tA, tB) && InitStage(tA, e)
    requires ResolvedBelow(tA, e, phase) && NoneLost(tA, e) && Untouched(tA, e, phase)
    ensures var (rA, rB) := (InitializePhase(tA, e, phase, cb), InitializePhase(tB, e, phase, cb));
            (rA.1.Done? <==> rB.1.Done?) && (rA.1.Done? ==> rA == rB)
  {
    hide InitializePhase, InitStage, Tidy, ValidTable;
    StageSame(tA, tB, e);
    if InitializePhase(tA, e, phase, cb).1.Done? {
      PhaseFollows(tA, tB, e, phase, cb);
    } else if InitializePhase(tB, e, phase, cb).1.Done? {
      PhaseFollows(tB, tA, e, phase, cb);
    }
  }

  /** The stage invariants, as the induction over the phases carries them. */
  ghost predicate PhaseStart(tA: Table, tB: Table, e: Engine, phase: nat) {
    && Linked(tA) && Linked(tB) && Sized(tA, e) && Sized(tB, e) && Tidy(e.rt)
    && InitStage(tA, e) && ResolvedBelow(tA, e, phase) && NoneLost(tA, e) && Untouched(tA, e, phase)
  }

  lemma PhaseAgrees(tA: Table, tB: Table, e: Engine, phase: nat, cb: Callbacks)
    requires SameTable(tA, tB) && PhaseStart(tA, tB, e, phase)
    requires InitializePhase(tA, e, phase, cb).1.Done?
    ensures InitializePhase(tB, e, phase, cb) == InitializePhase(tA, e, phase, cb)
    ensures PhaseStart(tA, tB, InitializePhase(tA, e, phase, cb).0, phase + 1)
  {
    hide InitializePhase, InitStage, NoneLost, ResolvedBelow, Untouched, WellEnded, Outside, Tidy;
    EndsWell(tA, e, phase, cb);
    PhaseFollows(tA, tB, e, phase, cb);
  }

  lemma {:induction false} InitializeConfluent(tA: Table, tB: Table, e: Engine, phase: nat, cb: Callbacks)
    requires phase <= PHASE_COUNT && Linked(tA) && Linked(tB) && Sized(tA, e) && Sized(tB, e) && Tidy(e.rt)
    requires SameTable(tA, tB) && PhaseStart(tA, tB, e, phase)
    requires InitializeFrom(tA, e, phase, cb).1.Done?
    ensures InitializeFrom(tB, e, phase, cb) == InitializeFrom(tA, e, phase, cb)
    decreases PHASE_COUNT - phase
  {
    hide InitializePhase, InitStage, NoneLost, ResolvedBelow, Untouched, Tidy, Sized, Linked, SameTable;
    if phase < PHASE_COUNT {
      PhaseAgrees(tA, tB, e, phase, cb);
      InitializeConfluent(tA, tB, InitializePhase(tA, e, phase, cb).0, phase + 1, cb);
    }
  }

  lemma StartKeepsSize(t: Table, e: Engine, id: nat, cb: Callbacks)
    requires Sized(t, e) && id in t.descs
    ensures var e' := StartComponent(e, t.descs[id], cb).0;
            Sized(t, e') && e'.initOrder == e.initOrder
  {
    hide CheckDeps, Invoke;
  }

  lemma {:induction false} StartSame(tA: Table, tB: Table, e: Engine, i: nat, cb: Callbacks)
    requires tA.descs == tB.descs && Sized(tA, e) && Sized(tB, e) && i <= |e.initOrder|
    ensures StartFrom(tA, e, i, cb) == StartFrom(tB, e, i, cb)
    decreases |e.initOrder| - i
  {
    hide CheckDeps, Invoke, StartComponent;
    if i < |e.initOrder| {
      StartKeepsSize(tA, e, e.initOrder[i], cb);
      var (e1, outcome) := StartComponent(e, tA.descs[e.initOrder[i]], cb);
      if outcome.Done? {
        StartSame(tA, tB, e1, i + 1, cb);
      }
    }
  }

  lemma {:induction false} StopSame(tA: Table, tB: Table, e: Engine, cb: Callbacks)
    requires tA.descs == tB.descs && Sized(tA, e) && Sized(tB, e)
    ensures StopStarted(tA, e, cb) == StopStarted(tB, e, cb)
    decreases |e.startOrder|
  {
    if e.startOrder != [] {
      StopSame(tA, tB, StopLast(tA, e, cb).0, cb);
    }
  }

  lemma {:induction false} DeinitSame(tA: Table, tB: Table, e: Engine, cb: Callbacks)
    requires tA.descs == tB.descs && Sized(tA, e) && Sized(tB, e)
    ensures DeinitializeAll(tA, e, cb) == DeinitializeAll(tB, e, cb)
    decreases |e.initOrder|
  {
    if e.initOrder != [] {
      DeinitSame(tA, tB, DeinitLast(tA, e, cb), cb);
    }
  }

  /** The start-up as a whole. Once the phases are resolved even a failing start is the same in both orders. */
  lemma LaunchConfluent(tA: Table, tB: Table, e: Engine, cb: Callbacks)
    requires Linked(tA) && Linked(tB) && Sized(tA, e) && Sized(tB, e) && Tidy(e.rt)
    requires SameTable(tA, tB) && InitStage(tA, e) && NoneLost(tA, e) && Untouched(tA, e, 0)
    ensures InitializeFrom(tA, e, 0, cb).1.Done? <==> InitializeFrom(tB, e, 0, cb).1.Done?
    ensures InitializeFrom(tA, e, 0, cb).1.Done? ==> Launch(tA, e, cb) == Launch(tB, e, cb)
  {
    hide InitStage, InitializeFrom, Tidy, StartFrom, StopStarted, DeinitializeAll;
    StageSame(tA, tB, e);
    assert PhaseStart(tA, tB, e, 0) && PhaseStart(tB, tA, e, 0);
    if InitializeFrom(tA, e, 0, cb).1.Done? {
      InitializeConfluent(tA, tB, e, 0, cb);
      var e1 := InitializeFrom(tA, e, 0, cb).0;
      StartSame(tA, tB, e1, 0, cb);
      var e2 := StartFrom(tA, e1, 0, cb).0;
      StopSame(tA, tB, e2, cb);
      DeinitSame(tA, tB, StopStarted(tA, e2, cb).0, cb);
    } else if InitializeFrom(tB, e, 0, cb).1.Done? {
      InitializeConfluent(tB, tA, e, 0, cb);
    }
  }
}
