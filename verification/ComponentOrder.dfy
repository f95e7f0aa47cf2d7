/** Link order and failing start-ups: if no required component depends on one that a scan may skip, every start-up makes
    the same calls and returns the same error in any link order, whatever fails. */
module ComponentOrder {
  import opened SysTypes
  import opened ComponentModel
  import opened ComponentLifecycle
  import opened ComponentResolve
  import opened ComponentConfluence
  import opened ComponentTable
  import opened ComponentTheorems

  /** No required component depends on an optional one of its own phase that itself has dependencies. */
  ghost predicate FirmDeps(descs: map<nat, Desc>) {
    forall x, d :: x in descs && d in descs && d in descs[x].deps && descs[x].Required() ==>
      descs[d].Required() || descs[d].phase != descs[x].phase || descs[d].deps == []
  }

  /** Required components only depend on required ones. */
  ghost predicate RequiredOnRequired(descs: map<nat, Desc>) {
    forall x, d :: x in descs && d in descs && d in descs[x].deps && descs[x].Required() ==> descs[d].Required()
  }

  // ----- whether a scan is refused

  /** No required component is failed or skipped. */
  ghost predicate RequiredKept(descs: map<nat, Desc>, rt: map<nat, Runtime>) {
    forall id :: id in descs && descs[id].Required() ==> id in rt && !rt[id].state.Failed? && !rt[id].state.Skipped?
  }

  /** A required component that the phase still has to initialise has lost a dependency. */
  ghost predicate Refusing(descs: map<nat, Desc>, phase: nat, rt: map<nat, Runtime>, x: nat)
    requires rt.Keys == descs.Keys
  {
    x in Pending(descs, rt, phase) && descs[x].Required() && CheckDeps(rt, descs[x].deps, false) == DepFailed
  }

  ghost predicate NoneRefusing(descs: map<nat, Desc>, phase: nat, rt: map<nat, Runtime>)
    requires rt.Keys == descs.Keys
  {
    forall x :: x in descs ==> !Refusing(descs, phase, rt, x)
  }

  lemma {:induction false} SameCheck(rt: map<nat, Runtime>, rt': map<nat, Runtime>, deps: seq<nat>)
    requires forall d :: d in deps ==> (d in rt <==> d in rt') && (d in rt ==> rt'[d] == rt[d])
    ensures CheckDeps(rt', deps, false) == CheckDeps(rt, deps, false)
  {
    if deps != [] {
      SameCheck(rt, rt', deps[1..]);
    }
  }

  /** Skipping an optional component changes nothing for the required ones of its phase. */
  lemma {:induction false} SkipKeepsRefusals(descs: map<nat, Desc>, phase: nat, rt: map<nat, Runtime>, id: nat, x: nat)
    requires rt.Keys == descs.Keys && FirmDeps(descs) && id in Pending(descs, rt, phase) && !descs[id].Required()
    requires CheckDeps(rt, descs[id].deps, false) == DepFailed
    ensures Refusing(descs, phase, SetState(rt, id, Skipped, ErrDependency), x) <==> Refusing(descs, phase, rt, x)
  {
    if x in descs && descs[x].phase == phase && descs[x].Required() {
      assert descs[id].deps != [];
      assert id !in descs[x].deps;
      hide CheckDeps, FirmDeps;
      SameCheck(rt, SetState(rt, id, Skipped, ErrDependency), descs[x].deps);
    }
  }

  /** A scan is refused exactly when it comes across a required component that had lost a dependency before the scan. */
  lemma {:induction false} ScanRefusedIff(descs: map<nat, Desc>, order: seq<nat>, rt: map<nat, Runtime>, phase: nat,
                                          pending: nat, skipped: bool, candidate: Option<nat>)
    requires rt.Keys == descs.Keys && FirmDeps(descs) && forall id :: id in order ==> id in descs
    ensures ScanFrom(descs, order, rt, phase, pending, skipped, candidate).ScanRefused? <==>
            exists x :: x in order && Refusing(descs, phase, rt, x)
  {
    hide FirmDeps, Refusing;
    if order != [] {
      var id, rest := order[0], order[1..];
      assert order == [id] + rest;
      RefusingIs(descs, phase, rt, id);
      if id !in Pending(descs, rt, phase) {
        ScanRefusedIff(descs, rest, rt, phase, pending, skipped, candidate);
      } else {
        match CheckDeps(rt, descs[id].deps, false)
        case DepFailed =>
          if !descs[id].Required() {
            var rt' := SetState(rt, id, Skipped, ErrDependency);
            ScanRefusedIff(descs, rest, rt', phase, pending + 1, true, candidate);
            forall x
              ensures Refusing(descs, phase, rt', x) <==> Refusing(descs, phase, rt, x)
            {
              SkipKeepsRefusals(descs, phase, rt, id, x);
            }
          }
        case Ready => ScanRefusedIff(descs, rest, rt, phase, pending + 1, skipped, Better(id, candidate));
        case Waiting => ScanRefusedIff(descs, rest, rt, phase, pending + 1, skipped, candidate);
      }
    }
  }

  lemma {:induction false} RefusingIs(descs: map<nat, Desc>, phase: nat, rt: map<nat, Runtime>, x: nat)
    requires rt.Keys == descs.Keys
    ensures Refusing(descs, phase, rt, x) <==>
            x in descs && descs[x].phase == phase && rt[x].state.Discovered? && descs[x].Required()
            && CheckDeps(rt, descs[x].deps, false) == DepFailed
  {
  }

  lemma {:induction false} ScanKeepsRefusals(descs: map<nat, Desc>, order: seq<nat>, rt: map<nat, Runtime>, phase: nat,
                                             pending: nat, skipped: bool, candidate: Option<nat>)
    requires rt.Keys == descs.Keys && FirmDeps(descs) && forall id :: id in order ==> id in descs
    requires NoneRefusing(descs, phase, rt)
    ensures NoneRefusing(descs, phase, ScanFrom(descs, order, rt, phase, pending, skipped, candidate).rt)
  {
    hide FirmDeps, Refusing;
    if order != [] {
      var id, rest := order[0], order[1..];
      RefusingIs(descs, phase, rt, id);
      if id !in Pending(descs, rt, phase) {
        ScanKeepsRefusals(descs, rest, rt, phase, pending, skipped, candidate);
      } else {
        match CheckDeps(rt, descs[id].deps, false)
        case DepFailed =>
          var rt' := SetState(rt, id, Skipped, ErrDependency);
          forall x | x in descs
            ensures !Refusing(descs, phase, rt', x)
          {
            SkipKeepsRefusals(descs, phase, rt, id, x);
          }
          ScanKeepsRefusals(descs, rest, rt', phase, pending + 1, true, candidate);
        case Ready => ScanKeepsRefusals(descs, rest, rt, phase, pending + 1, skipped, Better(id, candidate));
        case Waiting => ScanKeepsRefusals(descs, rest, rt, phase, pending + 1, skipped, candidate);
      }
    }
  }

  // ----- why a component was skipped

  ghost predicate LostDep(rt: map<nat, Runtime>, deps: seq<nat>) {
    exists d :: d in deps && (d !in rt || rt[d].state.Failed? || rt[d].state.Skipped?)
  }

  /** Every skipped component of the phase has lost a dependency. */
  ghost predicate Justified(descs: map<nat, Desc>, phase: nat, rt: map<nat, Runtime>) {
    && rt.Keys == descs.Keys
    && forall id :: id in descs && descs[id].phase == phase && rt[id].state.Skipped? ==> LostDep(rt, descs[id].deps)
  }

  lemma {:induction false} FailedMeansLost(rt: map<nat, Runtime>, deps: seq<nat>)
    requires CheckDeps(rt, deps, false) == DepFailed
    ensures LostDep(rt, deps)
  {
    if deps[0] in rt && !rt[deps[0]].state.Failed? && !rt[deps[0]].state.Skipped? {
      FailedMeansLost(rt, deps[1..]);
      var d :| d in deps[1..] && (d !in rt || rt[d].state.Failed? || rt[d].state.Skipped?);
      assert d in deps;
    } else {
      assert deps[0] in deps;
    }
  }

  lemma {:induction false} LostStays(rt: map<nat, Runtime>, rt': map<nat, Runtime>, deps: seq<nat>)
    requires LostDep(rt, deps) && Grow(rt, rt')
    ensures LostDep(rt', deps)
  {
    var d :| d in deps && (d !in rt || rt[d].state.Failed? || rt[d].state.Skipped?);
    assert d in rt ==> rt'[d] == rt[d];
  }

  lemma {:induction false} SkipIsJustified(descs: map<nat, Desc>, phase: nat, rt: map<nat, Runtime>, id: nat)
    requires Justified(descs, phase, rt) && id in descs && rt[id].state.Discovered? && LostDep(rt, descs[id].deps)
    ensures Justified(descs, phase, SetState(rt, id, Skipped, ErrDependency))
  {
    var rt' := SetState(rt, id, Skipped, ErrDependency);
    forall x | x in descs && descs[x].phase == phase && rt'[x].state.Skipped?
      ensures LostDep(rt', descs[x].deps)
    {
      LostStays(rt, rt', descs[x].deps);
    }
  }

  lemma {:induction false} ScanJustifies(descs: map<nat, Desc>, order: seq<nat>, rt: map<nat, Runtime>, phase: nat,
                                         pending: nat, skipped: bool, candidate: Option<nat>)
    requires rt.Keys == descs.Keys && Justified(descs, phase, rt) && forall id :: id in order ==> id in descs
    ensures Justified(descs, phase, ScanFrom(descs, order, rt, phase, pending, skipped, candidate).rt)
  {
    hide Justified, LostDep;
    if order != [] {
      var id, rest := order[0], order[1..];
      if !rt[id].state.Discovered? || descs[id].phase != phase {
        ScanJustifies(descs, rest, rt, phase, pending, skipped, candidate);
      } else {
        match CheckDeps(rt, descs[id].deps, false)
        case DepFailed =>
          FailedMeansLost(rt, descs[id].deps);
          SkipIsJustified(descs, phase, rt, id);
          if !descs[id].Required() {
            ScanJustifies(descs, rest, SetState(rt, id, Skipped, ErrDependency), phase, pending + 1, true, candidate);
          }
        case Ready => ScanJustifies(descs, rest, rt, phase, pending + 1, skipped, Better(id, candidate));
        case Waiting => ScanJustifies(descs, rest, rt, phase, pending + 1, skipped, candidate);
      }
    }
  }

  lemma InitJustified(t: Table, e: Engine, phase: nat, id: nat, cb: Callbacks)
    requires Sized(t, e) && id in t.descs && e.rt[id].state.Discovered? && Justified(t.descs, phase, e.rt)
    ensures Justified(t.descs, phase, InitializeComponent(e, t.descs[id], cb).0.rt)
  {
    var e' := InitializeComponent(e, t.descs[id], cb).0;
    InitGrows(t, e, id, cb);
    assert !e'.rt[id].state.Skipped?;
    hide InitializeComponent, Grow, LostDep;
    forall x | x in t.descs && t.descs[x].phase == phase && e'.rt[x].state.Skipped?
      ensures LostDep(e'.rt, t.descs[x].deps)
    {
      assert e'.rt[x] == e.rt[x];
      LostStays(e.rt, e'.rt, t.descs[x].deps);
    }
  }

  // ----- two link orders, side by side

  /** The two runs have made the same calls, and differ only in how far the skips have spread. */
  ghost predicate Twins(descs: map<nat, Desc>, phase: nat, eA: Engine, eB: Engine) {
    && eB == eA.(rt := eB.rt)
    && Near(descs, phase, eA.rt, eB.rt)
    && Justified(descs, phase, eA.rt) && Justified(descs, phase, eB.rt)
  }

  lemma {:induction false} TwinsReady(descs: map<nat, Desc>, phase: nat, rtA: map<nat, Runtime>, rtB: map<nat, Runtime>)
    requires Near(descs, phase, rtA, rtB) && Tidy(rtA) && Tidy(rtB)
    requires Justified(descs, phase, rtA) && Justified(descs, phase, rtB)
    ensures ReadySet(descs, rtA, phase) == ReadySet(descs, rtB, phase)
  {
    forall id | id in descs
      ensures id in ReadySet(descs, rtA, phase) <==> id in ReadySet(descs, rtB, phase)
    {
      TwinsReadyAt(descs, phase, rtA, rtB, id);
    }
  }

  lemma {:induction false} TwinsReadyAt(descs: map<nat, Desc>, phase: nat, rtA: map<nat, Runtime>, rtB: map<nat,
                                        Runtime>, id: nat)
    requires Near(descs, phase, rtA, rtB) && Tidy(rtA) && Tidy(rtB) && id in descs
    requires Justified(descs, phase, rtA) && Justified(descs, phase, rtB)
    ensures id in ReadySet(descs, rtA, phase) <==> id in ReadySet(descs, rtB, phase)
  {
    var deps := descs[id].deps;
    assert DepsInitialized(rtA, deps) <==> DepsInitialized(rtB, deps);
    assert LostDep(rtA, deps) ==> !DepsInitialized(rtA, deps);
    assert LostDep(rtB, deps) ==> !DepsInitialized(rtB, deps);
  }

  lemma {:induction false} SupportAgrees(descs: map<nat, Desc>, phase: nat, rtA: map<nat, Runtime>, rtB: map<nat, Runtime>,
                                         x: nat)
    requires Near(descs, phase, rtA, rtB) && RequiredKept(descs, rtA) && RequiredKept(descs, rtB)
    requires Justified(descs, phase, rtA) && Justified(descs, phase, rtB) && FirmDeps(descs)
    requires x in descs && descs[x].Required() && descs[x].phase == phase && DepsKnown(descs, descs[x])
    ensures rtA[x] == rtB[x] && CheckDeps(rtA, descs[x].deps, false) == CheckDeps(rtB, descs[x].deps, false)
  {
    hide CheckDeps;
    forall d | d in descs[x].deps
      ensures d in rtA && d in rtB && rtA[d] == rtB[d]
    {
    }
    SameCheck(rtB, rtA, descs[x].deps);
  }

  /** Both runs are refused, or neither. */
  lemma {:induction false} TwinsRefuse(descs: map<nat, Desc>, phase: nat, rtA: map<nat, Runtime>, rtB: map<nat, Runtime>)
    requires Near(descs, phase, rtA, rtB) && RequiredKept(descs, rtA) && RequiredKept(descs, rtB)
    requires Justified(descs, phase, rtA) && Justified(descs, phase, rtB) && FirmDeps(descs)
    requires forall id :: id in descs ==> DepsKnown(descs, descs[id])
    ensures NoneRefusing(descs, phase, rtA) <==> NoneRefusing(descs, phase, rtB)
  {
    NearKeys(descs, phase, rtA, rtB);
    hide Near, RequiredKept, Justified, FirmDeps, CheckDeps, DepsKnown;
    forall x | x in descs
      ensures Refusing(descs, phase, rtA, x) <==> Refusing(descs, phase, rtB, x)
    {
      if descs[x].Required() && descs[x].phase == phase {
        SupportAgrees(descs, phase, rtA, rtB, x);
      }
    }
  }

  lemma {:induction false} NearKeys(descs: map<nat, Desc>, phase: nat, rtA: map<nat, Runtime>, rtB: map<nat, Runtime>)
    requires Near(descs, phase, rtA, rtB)
    ensures rtA.Keys == rtB.Keys == descs.Keys
  {
  }

  /** What each side keeps while a phase runs. */
  ghost predicate Going(t: Table, e: Engine, phase: nat) {
    && ValidTable(t) && FirmDeps(t.descs)
    && InitStage(t, e) && RequiredKept(t.descs, e.rt) && Justified(t.descs, phase, e.rt)
  }

  lemma GoingIsTidy(t: Table, e: Engine, phase: nat)
    requires Going(t, e, phase)
    ensures Linked(t) && Sized(t, e) && Tidy(e.rt) && AllPlain(e.rt) && Justified(t.descs, phase, e.rt)
  {
    hide Justified, FirmDeps, Orders, WellOrdered, LivesAfter;
    InitStageTidy(t, e);
    InitStagePlain(t, e);
  }

  lemma GoingIsFirm(t: Table, e: Engine, phase: nat)
    requires Going(t, e, phase)
    ensures FirmDeps(t.descs) && RequiredKept(t.descs, e.rt)
    ensures forall id :: id in t.descs ==> DepsKnown(t.descs, t.descs[id])
  {
    hide Justified, FirmDeps, InitStage, DepsKnown, RequiredKept;
  }

  /** One scan keeps everything, and is refused iff somebody required has lost a dependency. */
  lemma ScanGoesOn(t: Table, e: Engine, phase: nat)
    requires Going(t, e, phase)
    ensures Linked(t) && Sized(t, e)
    ensures var s := FullScan(t, e, phase);
            && (s.ScanDone? <==> NoneRefusing(t.descs, phase, e.rt))
            && (s.ScanDone? ==> Going(t, e.(rt := s.rt), phase) && NoneRefusing(t.descs, phase, s.rt))
  {
    hide ScanFrom, Justified, FirmDeps, InitStage, ResolvedBelow, NoneLost, Refusing;
    InitStageTidy(t, e);
    ScanRefusedIff(t.descs, t.order, e.rt, phase, 0, false, None);
    ScanKeepsRequired(t.descs, t.order, e.rt, phase, 0, false, None);
    ScanJustifies(t.descs, t.order, e.rt, phase, 0, false, None);
    ScanKeepsStage(t, e, phase);
    if NoneRefusing(t.descs, phase, e.rt) {
      ScanKeepsRefusals(t.descs, t.order, e.rt, phase, 0, false, None);
    }
  }

  lemma InitGoesOn(t: Table, e: Engine, phase: nat, id: nat, cb: Callbacks)
    requires Going(t, e, phase) && id in t.descs && id in e.rt && e.rt[id].state.Discovered?
    requires DepsInitialized(e.rt, t.descs[id].deps)
    ensures var (e', outcome) := InitializeComponent(e, t.descs[id], cb);
            outcome.Done? ==> Going(t, e', phase)
  {
    hide Justified, FirmDeps, InitStage, DepsInitialized, ValidTable;
    InitStageTidy(t, e);
    InitKeepsStage(t, e, id, cb);
    InitJustified(t, e, phase, id, cb);
  }

  // ----- once nothing is ready, only skips are left

  ghost predicate NoSkipLeft(descs: map<nat, Desc>, phase: nat, rt: map<nat, Runtime>)
    requires rt.Keys == descs.Keys
  {
    forall x :: x in Pending(descs, rt, phase) ==> CheckDeps(rt, descs[x].deps, false) != DepFailed
  }

  /** A phase with nothing ready calls nothing, and goes on until there is nothing left to skip. */
  lemma {:induction false} QuietTail(t: Table, e: Engine, phase: nat, cb: Callbacks)
    requires Going(t, e, phase) && e.rt.Keys == t.descs.Keys && NoneRefusing(t.descs, phase, e.rt)
    requires Linked(t) && Sized(t, e) && Tidy(e.rt) && ReadySet(t.descs, e.rt, phase) == {}
    ensures var (e', outcome) := InitializePhase(t, e, phase, cb);
            && e' == e.(rt := e'.rt) && OnlySkips(t.descs, phase, e.rt, e'.rt) && NoSkipLeft(t.descs, phase, e'.rt)
            && outcome == (if Pending(t.descs, e'.rt, phase) == {} then Done else NoProgress)
    decreases |Pending(t.descs, e.rt, phase)|
  {
    hide Going, NoneRefusing, FullScan, PhaseRound, Tidy, CheckDeps, OnlySkips, Linked;
    ScanGoesOn(t, e, phase);
    FullScanFacts(t, e, phase);
    QuietRound(t, e, phase, cb);
    RoundGivesUpStuck(t, e, phase, cb);
    var r := PhaseRound(t, e, phase, cb);
    if r.Again? {
      GoingIsTidy(t, r.e, phase);
      QuietTail(t, r.e, phase, cb);
      OnlySkipsTrans(t.descs, phase, e.rt, r.e.rt, InitializePhase(t, r.e, phase, cb).0.rt);
    } else {
      NothingSkipped(t.descs, phase, e.rt);
    }
  }

  lemma {:induction false} NothingSkipped(descs: map<nat, Desc>, phase: nat, rt: map<nat, Runtime>)
    requires rt.Keys == descs.Keys
    ensures OnlySkips(descs, phase, rt, rt)
  {
  }

  /** How two runs of a phase can end: with the same failed callback, both refused, or both with nothing left to skip. */
  ghost predicate TwinEnd(descs: map<nat, Desc>, phase: nat, rA: (Engine, Outcome), rB: (Engine, Outcome)) {
    && rB.0 == rA.0.(rt := rB.0.rt)
    && Near(descs, phase, rA.0.rt, rB.0.rt)
    && if rA.1.CallbackFailed? then rB.1 == rA.1
       else if rA.1.RequiredSkipped? then rB.1.RequiredSkipped?
       else QuietEnd(descs, phase, rA) && QuietEnd(descs, phase, rB)
  }

  ghost predicate QuietEnd(descs: map<nat, Desc>, phase: nat, r: (Engine, Outcome)) {
    && r.0.rt.Keys == descs.Keys && NoSkipLeft(descs, phase, r.0.rt)
    && r.1 == if Pending(descs, r.0.rt, phase) == {} then Done else NoProgress
  }

  lemma QuietTwins(tA: Table, tB: Table, eA: Engine, eB: Engine, phase: nat, cb: Callbacks)
    requires Linked(tA) && Sized(tA, eA) && Tidy(eA.rt) && Linked(tB) && Sized(tB, eB) && Tidy(eB.rt)
    requires tA.descs == tB.descs && Going(tA, eA, phase) && Going(tB, eB, phase) && Twins(tA.descs, phase, eA, eB)
    requires NoneRefusing(tA.descs, phase, eA.rt) && NoneRefusing(tA.descs, phase, eB.rt)
    requires ReadySet(tA.descs, eA.rt, phase) == ReadySet(tA.descs, eB.rt, phase) == {}
    ensures TwinEnd(tA.descs, phase, InitializePhase(tA, eA, phase, cb), InitializePhase(tB, eB, phase, cb))
  {
    hide Going, NoneRefusing, Near, Justified, NoSkipLeft, OnlySkips, InitializePhase, Tidy, AllPlain;
    GoingIsTidy(tA, eA, phase);
    GoingIsTidy(tB, eB, phase);
    QuietTail(tA, eA, phase, cb);
    QuietTail(tB, eB, phase, cb);
    SkipsStayNear(tA.descs, phase, eA.rt, eB.rt,
                  InitializePhase(tA, eA, phase, cb).0.rt, InitializePhase(tB, eB, phase, cb).0.rt);
  }

  lemma RefusedTwins(tA: Table, tB: Table, eA: Engine, eB: Engine, phase: nat, cb: Callbacks)
    requires Linked(tA) && Sized(tA, eA) && Tidy(eA.rt) && Linked(tB) && Sized(tB, eB) && Tidy(eB.rt)
    requires tA.descs == tB.descs && Going(tA, eA, phase) && Going(tB, eB, phase) && Twins(tA.descs, phase, eA, eB)
    requires !NoneRefusing(tA.descs, phase, eA.rt) && !NoneRefusing(tA.descs, phase, eB.rt)
    ensures TwinEnd(tA.descs, phase, InitializePhase(tA, eA, phase, cb), InitializePhase(tB, eB, phase, cb))
  {
    hide Going, NoneRefusing, Near, Justified, OnlySkips, Tidy, AllPlain, ScanFrom, InitializeComponent, QuietEnd;
    GoingIsTidy(tA, eA, phase);
    GoingIsTidy(tB, eB, phase);
    ScanGoesOn(tA, eA, phase);
    ScanGoesOn(tB, eB, phase);
    FullScanFacts(tA, eA, phase);
    FullScanFacts(tB, eB, phase);
    SkipsStayNear(tA.descs, phase, eA.rt, eB.rt, FullScan(tA, eA, phase).rt, FullScan(tB, eB, phase).rt);
  }

  /** Both runs scan, and initialise the same component with the same answer. */
  lemma ActiveTwins(tA: Table, tB: Table, eA: Engine, eB: Engine, phase: nat, cb: Callbacks, least: nat)
    requires Linked(tA) && Sized(tA, eA) && Tidy(eA.rt) && Linked(tB) && Sized(tB, eB) && Tidy(eB.rt)
    requires tA.descs == tB.descs && Going(tA, eA, phase) && Going(tB, eB, phase) && Twins(tA.descs, phase, eA, eB)
    requires NoneRefusing(tA.descs, phase, eA.rt) && NoneRefusing(tA.descs, phase, eB.rt)
    requires IsLeast(Some(least), ReadySet(tA.descs, eA.rt, phase))
    requires ReadySet(tA.descs, eA.rt, phase) == ReadySet(tA.descs, eB.rt, phase)
    ensures var (rA, rB) := (PhaseRound(tA, eA, phase, cb), PhaseRound(tB, eB, phase, cb));
            && rB.e == rA.e.(rt := rB.e.rt) && Near(tA.descs, phase, rA.e.rt, rB.e.rt)
            && if rA.Again? then rB.Again? && Going(tA, rA.e, phase) && Going(tB, rB.e, phase)
               else rA.outcome.CallbackFailed? && rB == Finished(rB.e, rA.outcome)
  {
    hide Going, NoneRefusing, FullScan, Near, Justified, PhaseRound, Tidy, InitializeComponent, IsLeast, ReadySet, OnlySkips, AllPlain, Linked;
    GoingIsTidy(tA, eA, phase);
    GoingIsTidy(tB, eB, phase);
    ScanGoesOn(tA, eA, phase);
    ScanGoesOn(tB, eB, phase);
    FullScanFacts(tA, eA, phase);
    FullScanFacts(tB, eB, phase);
    ActiveRound(tA, eA, phase, cb, least);
    ActiveRound(tB, eB, phase, cb, least);
    var eA1 := eA.(rt := FullScan(tA, eA, phase).rt);
    var eB1 := eB.(rt := FullScan(tB, eB, phase).rt);
    SkipsStayNear(tA.descs, phase, eA.rt, eB.rt, eA1.rt, eB1.rt);
    SameDiscovered(tA.descs, phase, eA1.rt, eB1.rt, least);
    SameInit(tA, phase, eA1, eB1, least, cb);
    LeastIsReady(tA.descs, phase, eA1.rt, least);
    LeastIsReady(tB.descs, phase, eB1.rt, least);
    InitGoesOn(tA, eA1, phase, least, cb);
    InitGoesOn(tB, eB1, phase, least, cb);
  }

  lemma {:induction false} LeastIsReady(descs: map<nat, Desc>, phase: nat, rt: map<nat, Runtime>, least: nat)
    requires rt.Keys == descs.Keys && IsLeast(Some(least), ReadySet(descs, rt, phase))
    ensures least in descs && DepsInitialized(rt, descs[least].deps)
  {
  }

  lemma SameInit(t: Table, phase: nat, eA: Engine, eB: Engine, id: nat, cb: Callbacks)
    requires Sized(t, eA) && Sized(t, eB) && id in t.descs && eA.rt[id] == eB.rt[id]
    requires eB == eA.(rt := eB.rt) && Near(t.descs, phase, eA.rt, eB.rt)
    ensures var (eA', outcomeA) := InitializeComponent(eA, t.descs[id], cb);
            var (eB', outcomeB) := InitializeComponent(eB, t.descs[id], cb);
            && outcomeA == outcomeB && (outcomeA.Done? || outcomeA.CallbackFailed?)
            && eB' == eA'.(rt := eB'.rt) && Near(t.descs, phase, eA'.rt, eB'.rt)
  {
    hide Near;
    UpdateNear(t.descs, phase, eA.rt, eB.rt, id, InitializeComponent(eA, t.descs[id], cb).0.rt[id]);
  }

  lemma {:induction false} PhaseTwins(tA: Table, tB: Table, eA: Engine, eB: Engine, phase: nat, cb: Callbacks)
    requires Linked(tA) && Sized(tA, eA) && Tidy(eA.rt) && Linked(tB) && Sized(tB, eB) && Tidy(eB.rt)
    requires tA.descs == tB.descs && Going(tA, eA, phase) && Going(tB, eB, phase) && Twins(tA.descs, phase, eA, eB)
    ensures TwinEnd(tA.descs, phase, InitializePhase(tA, eA, phase, cb), InitializePhase(tB, eB, phase, cb))
    decreases |Pending(tA.descs, eA.rt, phase)|
  {
    hide Going, NoneRefusing, FirmDeps, RequiredKept, AllPlain, Near, Justified, PhaseRound, Tidy, TwinEnd, ReadySet, IsLeast, Linked;
    GoingIsTidy(tA, eA, phase);
    GoingIsTidy(tB, eB, phase);
    GoingIsFirm(tA, eA, phase);
    GoingIsFirm(tB, eB, phase);
    TwinsReady(tA.descs, phase, eA.rt, eB.rt);
    TwinsRefuse(tA.descs, phase, eA.rt, eB.rt);
    var ready := ReadySet(tA.descs, eA.rt, phase);
    if !NoneRefusing(tA.descs, phase, eA.rt) {
      RefusedTwins(tA, tB, eA, eB, phase, cb);
    } else if ready == {} {
      QuietTwins(tA, tB, eA, eB, phase, cb);
    } else {
      var least := Least(ready);
      ActiveTwins(tA, tB, eA, eB, phase, cb, least);
      var (rA, rB) := (PhaseRound(tA, eA, phase, cb), PhaseRound(tB, eB, phase, cb));
      if rA.Again? {
        GoingIsTidy(tA, rA.e, phase);
        GoingIsTidy(tB, rB.e, phase);
        PhaseTwins(tA, tB, rA.e, rB.e, phase, cb);
      } else {
        SameFailure(tA.descs, phase, (rA.e, rA.outcome), (rB.e, rB.outcome));
      }
    }
  }

  lemma {:induction false} SameFailure(descs: map<nat, Desc>, phase: nat, rA: (Engine, Outcome), rB: (Engine, Outcome))
    requires rB.0 == rA.0.(rt := rB.0.rt) && Near(descs, phase, rA.0.rt, rB.0.rt)
    requires rA.1.CallbackFailed? && rA.1 == rB.1
    ensures TwinEnd(descs, phase, rA, rB)
  {
  }

  // ----- two quiet ends are the same

  /** The final records of a phase in which nothing can be skipped any more. */
  ghost predicate Settling(descs: map<nat, Desc>, phase: nat, rt: map<nat, Runtime>) {
    && rt.Keys == descs.Keys && Tidy(rt) && SkipsDoomed(descs, phase, rt, rt) && NoSkipLeft(descs, phase, rt)
    && (forall x :: x in descs ==> DepsKnown(descs, descs[x]))
    && forall x :: x in descs && descs[x].phase < phase ==> !rt[x].state.Discovered?
  }

  /** What one side has skipped, so has the other. */
  lemma {:induction false} SkippedInBoth(descs: map<nat, Desc>, phase: nat, rtA: map<nat, Runtime>, rtB: map<nat,
                                         Runtime>, id: nat)
    requires Settling(descs, phase, rtA) && Settling(descs, phase, rtB) && Near(descs, phase, rtA, rtB)
    requires id in descs && descs[id].phase == phase && rtA[id].state.Skipped?
    ensures rtB[id].state.Failed? || rtB[id].state.Skipped?
  {
    assert Doomed(descs, rtA, phase, id);
    hide Doomed, CheckDeps;
    var k: nat :| Doomed#[k](descs, rtA, phase, id);
    DoomedGivenUp(k, descs, phase, rtB, rtA, id);
  }

  lemma {:induction false} NearIsSymmetric(descs: map<nat, Desc>, phase: nat, rtA: map<nat, Runtime>, rtB: map<nat,
                                           Runtime>)
    requires Near(descs, phase, rtA, rtB)
    ensures Near(descs, phase, rtB, rtA)
  {
  }

  lemma {:induction false} QuietEndsMeet(descs: map<nat, Desc>, phase: nat, rtA: map<nat, Runtime>, rtB: map<nat,
                                         Runtime>)
    requires Settling(descs, phase, rtA) && Settling(descs, phase, rtB) && Near(descs, phase, rtA, rtB)
    ensures rtA == rtB
  {
    NearIsSymmetric(descs, phase, rtA, rtB);
    forall id | id in descs
      ensures rtA[id] == rtB[id]
    {
      EndsMeetAt(descs, phase, rtA, rtB, id);
    }
  }

  lemma {:induction false} EndsMeetAt(descs: map<nat, Desc>, phase: nat, rtA: map<nat, Runtime>, rtB: map<nat,
                                      Runtime>, id: nat)
    requires Settling(descs, phase, rtA) && Settling(descs, phase, rtB)
    requires Near(descs, phase, rtA, rtB) && Near(descs, phase, rtB, rtA) && id in descs
    ensures rtA[id] == rtB[id]
  {
    hide Settling;
    if rtA[id] != rtB[id] {
      if rtA[id].state.Skipped? {
        SkippedInBoth(descs, phase, rtA, rtB, id);
      } else {
        SkippedInBoth(descs, phase, rtB, rtA, id);
      }
    }
  }

  lemma PhaseSettles(t: Table, e: Engine, phase: nat, cb: Callbacks)
    requires ValidTable(t) && Linked(t) && Sized(t, e) && Tidy(e.rt)
    requires ResolvedBelow(t, e, phase) && Untouched(t, e, phase)
    ensures var rt := InitializePhase(t, e, phase, cb).0.rt;
            rt.Keys == t.descs.Keys && (NoSkipLeft(t.descs, phase, rt) ==> Settling(t.descs, phase, rt))
  {
    hide InitializePhase, Doomed, Tidy, CheckDeps, NoSkipLeft;
    var rt := InitializePhase(t, e, phase, cb).0.rt;
    PhaseGrows(t, e, phase, cb);
    assert SkipsDoomed(t.descs, phase, e.rt, rt);
    PhaseDooms(t, e, phase, cb, rt);
  }

  // ----- all phases

  lemma FreshIsGoing(tA: Table, tB: Table, e: Engine, phase: nat)
    requires SameTable(tA, tB) && PhaseStart(tA, tB, e, phase) && FirmDeps(tA.descs)
    ensures Going(tA, e, phase) && Going(tB, e, phase) && Twins(tA.descs, phase, e, e)
  {
    hide InitStage, FirmDeps, Tidy;
    StageSame(tA, tB, e);
    assert Near(tA.descs, phase, e.rt, e.rt);
  }

  /** The same end, except that a refusal may name another of the required components that lost a dependency. */
  predicate SameEnd(a: Outcome, b: Outcome) {
    a == b || (a.RequiredSkipped? && b.RequiredSkipped?)
  }

  /** One phase over two link orders: the same end and the same calls; if nothing failed and nothing was refused, the
      same engine. */
  lemma PhaseAgreesAnyway(tA: Table, tB: Table, e: Engine, phase: nat, cb: Callbacks)
    requires Linked(tA) && Linked(tB) && Sized(tA, e) && Sized(tB, e) && Tidy(e.rt)
    requires SameTable(tA, tB) && PhaseStart(tA, tB, e, phase) && FirmDeps(tA.descs)
    ensures var (rA, rB) := (InitializePhase(tA, e, phase, cb), InitializePhase(tB, e, phase, cb));
            && SameEnd(rA.1, rB.1) && rB.0 == rA.0.(rt := rB.0.rt)
            && (rA.1.Done? || rA.1.NoProgress? ==> rA.0 == rB.0) && Near(tA.descs, phase, rA.0.rt, rB.0.rt)
  {
    hide InitializePhase, InitStage, Tidy, NoneLost, FirmDeps, Near, Settling, Going, NoSkipLeft, WellOrdered;
    FreshIsGoing(tA, tB, e, phase);
    PhaseTwins(tA, tB, e, e, phase, cb);
    PhaseSettles(tA, e, phase, cb);
    PhaseSettles(tB, e, phase, cb);
    var (rA, rB) := (InitializePhase(tA, e, phase, cb), InitializePhase(tB, e, phase, cb));
    if rA.1.Done? || rA.1.NoProgress? {
      QuietEndsMeet(tA.descs, phase, rA.0.rt, rB.0.rt);
    }
  }

  /** The same components are initialised on both sides. */
  ghost predicate SameFlags(rtA: map<nat, Runtime>, rtB: map<nat, Runtime>) {
    rtA.Keys == rtB.Keys && forall id :: id in rtA ==> rtA[id].initialized == rtB[id].initialized
  }

  lemma {:induction false} InitsAgreeAnyway(tA: Table, tB: Table, e: Engine, phase: nat, cb: Callbacks)
    requires phase <= PHASE_COUNT && Linked(tA) && Linked(tB) && Sized(tA, e) && Sized(tB, e) && Tidy(e.rt)
    requires SameTable(tA, tB) && PhaseStart(tA, tB, e, phase) && FirmDeps(tA.descs)
    ensures var (rA, rB) := (InitializeFrom(tA, e, phase, cb), InitializeFrom(tB, e, phase, cb));
            && SameEnd(rA.1, rB.1) && rB.0 == rA.0.(rt := rB.0.rt)
            && (rA.1.Done? || rA.1.NoProgress? ==> rA.0 == rB.0) && SameFlags(rA.0.rt, rB.0.rt)
    decreases PHASE_COUNT - phase
  {
    hide InitializePhase, PhaseStart, Tidy, Sized, Linked, SameTable, FirmDeps, InitStage, NoneLost, ResolvedBelow, Untouched;
    if phase < PHASE_COUNT {
      PhaseAgreesAnyway(tA, tB, e, phase, cb);
      var r := InitializePhase(tA, e, phase, cb);
      if r.1.Done? {
        PhaseAgrees(tA, tB, e, phase, cb);
        StartIsSized(tA, tB, r.0, phase + 1);
        InitsAgreeAnyway(tA, tB, r.0, phase + 1, cb);
      }
    }
  }

  lemma StartIsSized(tA: Table, tB: Table, e: Engine, phase: nat)
    requires PhaseStart(tA, tB, e, phase)
    ensures Linked(tA) && Linked(tB) && Sized(tA, e) && Sized(tB, e) && Tidy(e.rt)
  {
  }

  // ----- the whole start-up

  lemma DeinitOneTwins(tA: Table, tB: Table, eA: Engine, eB: Engine, cb: Callbacks)
    requires tA.descs == tB.descs && Sized(tA, eA) && Sized(tB, eB) && eA.initOrder != []
    requires eB == eA.(rt := eB.rt) && SameFlags(eA.rt, eB.rt)
    ensures var (eA', eB') := (DeinitLast(tA, eA, cb), DeinitLast(tB, eB, cb));
            eB' == eA'.(rt := eB'.rt) && SameFlags(eA'.rt, eB'.rt)
  {
    hide DeinitLast, Hook;
    DeinitShape(tA, eA, cb);
    DeinitShape(tB, eB, cb);
  }

  lemma {:induction false} DeinitTwins(tA: Table, tB: Table, eA: Engine, eB: Engine, cb: Callbacks)
    requires tA.descs == tB.descs && Sized(tA, eA) && Sized(tB, eB)
    requires eB == eA.(rt := eB.rt) && SameFlags(eA.rt, eB.rt)
    ensures DeinitializeAll(tA, eA, cb).trace == DeinitializeAll(tB, eB, cb).trace
    decreases |eA.initOrder|
  {
    hide DeinitLast, SameFlags, Sized;
    if eA.initOrder != [] {
      DeinitOneTwins(tA, tB, eA, eB, cb);
      DeinitTwins(tA, tB, DeinitLast(tA, eA, cb), DeinitLast(tB, eB, cb), cb);
    }
  }

  lemma RollbackTwins(tA: Table, tB: Table, eA: Engine, eB: Engine, cb: Callbacks)
    requires tA.descs == tB.descs && Sized(tA, eA) && Sized(tB, eB)
    requires eB == eA.(rt := eB.rt) && SameFlags(eA.rt, eB.rt) && eA.startOrder == []
    ensures Rollback(tA, eA, cb).0.trace == Rollback(tB, eB, cb).0.trace
  {
    hide DeinitializeAll, SameFlags;
    DeinitTwins(tA, tB, eA, eB, cb);
  }

  lemma NothingStarted(t: Table, e: Engine)
    requires InitStage(t, e)
    ensures e.startOrder == []
  {
  }

  lemma LaunchAgreesAnyway(tA: Table, tB: Table, e: Engine, cb: Callbacks)
    requires Linked(tA) && Linked(tB) && Sized(tA, e) && Sized(tB, e) && Tidy(e.rt)
    requires SameTable(tA, tB) && PhaseStart(tA, tB, e, 0) && FirmDeps(tA.descs)
    ensures SameEnd(Launch(tA, e, cb).1, Launch(tB, e, cb).1)
    ensures Launch(tA, e, cb).0.trace == Launch(tB, e, cb).0.trace
  {
    hide InitStage, InitializeFrom, Tidy, StartFrom, Rollback, SameFlags, Untouched, NoneLost, ResolvedBelow, FirmDeps,
         ValidTable, Sized, Linked;
    InitsAgreeAnyway(tA, tB, e, 0, cb);
    var (rA, rB) := (InitializeFrom(tA, e, 0, cb), InitializeFrom(tB, e, 0, cb));
    if rA.1.Done? {
      LaunchConfluent(tA, tB, e, cb);
    } else {
      InitializeKeepsStage(tA, e, 0, cb);
      NothingStarted(tA, rA.0);
      RollbackTwins(tA, tB, rA.0, rB.0, cb);
    }
  }

  // ----- when nothing is ever refused

  lemma {:induction false} RequiredNeverRefuse(descs: map<nat, Desc>, phase: nat, rt: map<nat, Runtime>)
    requires rt.Keys == descs.Keys && RequiredOnRequired(descs) && RequiredKept(descs, rt)
    requires forall id :: id in descs ==> DepsKnown(descs, descs[id])
    ensures FirmDeps(descs) && NoneRefusing(descs, phase, rt)
  {
    forall x | x in descs && descs[x].Required()
      ensures CheckDeps(rt, descs[x].deps, false) != DepFailed
    {
      assert DepsKnown(descs, descs[x]);
      HealthyDepsNeverFail(rt, descs[x].deps);
    }
  }

  lemma RoundNotRefused(t: Table, e: Engine, phase: nat, cb: Callbacks)
    requires Linked(t) && Sized(t, e) && Tidy(e.rt) && ValidTable(t) && RequiredOnRequired(t.descs) && NoneLost(t, e)
    ensures var r := PhaseRound(t, e, phase, cb);
            r.Finished? ==> !r.outcome.RequiredSkipped?
  {
    hide Tidy, ScanFrom, InitializeComponent, OnlySkips, FirmDeps, RequiredOnRequired, Refusing, DepsKnown;
    RequiredNeverRefuse(t.descs, phase, e.rt);
    ScanRefusedIff(t.descs, t.order, e.rt, phase, 0, false, None);
  }

  lemma {:induction false} PhaseNotRefused(t: Table, e: Engine, phase: nat, cb: Callbacks)
    requires Linked(t) && Sized(t, e) && Tidy(e.rt) && ValidTable(t) && RequiredOnRequired(t.descs)
    requires InitStage(t, e) && NoneLost(t, e)
    ensures !InitializePhase(t, e, phase, cb).1.RequiredSkipped?
    decreases |Pending(t.descs, e.rt, phase)|
  {
    hide InitStage, NoneLost, Tidy, PhaseRound, RequiredOnRequired, ValidTable, Linked;
    RoundNotRefused(t, e, phase, cb);
    RoundKeepsStage(t, e, phase, cb);
    RoundKeepsResolved(t, e, phase, cb);
    var r := PhaseRound(t, e, phase, cb);
    if r.Again? {
      PhaseNotRefused(t, r.e, phase, cb);
    }
  }

  /** If required components only depend on required ones, no scan is ever refused. */
  lemma {:induction false} NoScanRefused(t: Table, e: Engine, phase: nat, cb: Callbacks)
    requires phase <= PHASE_COUNT && Linked(t) && Sized(t, e) && Tidy(e.rt) && ValidTable(t) && RequiredOnRequired(t.descs)
    requires InitStage(t, e) && NoneLost(t, e) && ResolvedBelow(t, e, phase)
    ensures !InitializeFrom(t, e, phase, cb).1.RequiredSkipped?
    decreases PHASE_COUNT - phase
  {
    hide InitStage, NoneLost, ResolvedBelow, Tidy, InitializePhase, RequiredOnRequired, ValidTable, Linked;
    if phase < PHASE_COUNT {
      PhaseNotRefused(t, e, phase, cb);
      PhaseKeepsStage(t, e, phase, cb);
      var (e1, outcome) := InitializePhase(t, e, phase, cb);
      if outcome.Done? {
        NoScanRefused(t, e1, phase + 1, cb);
      }
    }
  }

  lemma LaunchReadyStarts(tA: Table, tB: Table, e: Engine)
    requires tA.descs == tB.descs && LaunchReady(tA, e) && LaunchReady(tB, e)
    ensures SameTable(tA, tB) && PhaseStart(tA, tB, e, 0)
  {
    hide InitStage, NoneLost, ResolvedBelow, Tidy;
  }

  /** Two link orders of the same descriptors, of which no required one depends on an optional one of its phase that has
      dependencies: the start-ups make the same calls with the same answers and return the same code, whether they
      succeed or fail. */
  lemma FailuresAgreeToo(a: seq<Desc>, b: seq<Desc>, before: Engine, cb: Callbacks)
    requires multiset(a) == multiset(b) && |a| <= MAX_COMPONENTS && TableOk(Collect(a))
    requires FirmDeps(TableOf(Collect(a)).descs)
    ensures TableOk(Collect(b))
    ensures StartAll(a, before, cb).0.trace == StartAll(b, before, cb).0.trace
    ensures StartAll(a, before, cb).1 == StartAll(b, before, cb).1
  {
    hide TableOk, StartAll, Launch, LaunchReady, Discover, DescMap, Distinct, Linked, Sized, Tidy, FirmDeps, SameTable, PhaseStart,
         Collect, Ids;
    SamePermutes(a, b);
    var (tA, tB) := (TableOf(Collect(a)), TableOf(Collect(b)));
    StartAllIsLaunch(a, before, cb);
    StartAllIsLaunch(b, before, cb);
    LaunchReadyStarts(tA, tB, Discover(Collect(a)));
    LaunchAgreesAnyway(tA, tB, Discover(Collect(a)), cb);
  }
}
