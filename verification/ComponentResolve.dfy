/** When initialize_phase gives up: the components it could not resolve form a dependency cycle. */
module ComponentResolve {
  import opened SysTypes
  import opened ComponentModel
  import opened ComponentLifecycle

  /** A closed walk along dependencies that stays inside `pool`. */
  ghost predicate CycleIn(descs: map<nat, Desc>, pool: set<nat>, p: seq<nat>) {
    && |p| >= 2 && p[0] == p[|p| - 1]
    && (forall k :: 0 <= k < |p| ==> p[k] in pool && p[k] in descs)
    && (forall k :: 0 < k < |p| ==> DependsOn(descs, p[k - 1], p[k]))
  }

  ghost predicate DependsOn(descs: map<nat, Desc>, id: nat, d: nat) {
    id in descs && d in descs[id].deps
  }

  ghost predicate Acyclic(descs: map<nat, Desc>) {
    !exists p :: CycleIn(descs, descs.Keys, p)
  }

  ghost predicate WaitsInside(descs: map<nat, Desc>, pool: set<nat>, id: nat) {
    exists d :: d in pool && DependsOn(descs, id, d)
  }

  lemma {:induction false} Successor(descs: map<nat, Desc>, pool: set<nat>, id: nat) returns (d: nat)
    requires WaitsInside(descs, pool, id)
    ensures d in pool && DependsOn(descs, id, d)
  {
    d :| d in pool && DependsOn(descs, id, d);
  }

  /** A walk of `n + 1` components, each waiting for the next one. */
  lemma {:induction false} WalkOn(descs: map<nat, Desc>, pool: set<nat>, x: nat, n: nat) returns (walk: seq<nat>)
    requires x in pool && forall y :: y in pool ==> WaitsInside(descs, pool, y)
    ensures |walk| == n + 1 && walk[0] == x
    ensures forall k :: 0 <= k < |walk| ==> walk[k] in pool
    ensures forall k :: 0 < k < |walk| ==> DependsOn(descs, walk[k - 1], walk[k])
  {
    hide WaitsInside;
    if n == 0 {
      walk := [x];
    } else {
      var shorter := WalkOn(descs, pool, x, n - 1);
      var d := Successor(descs, pool, shorter[n - 1]);
      walk := shorter + [d];
    }
  }

  /** Pigeonhole: if everybody in a finite pool waits for somebody in the pool, the pool contains a cycle. */
  lemma {:induction false} WaitingPoolHasCycle(descs: map<nat, Desc>, pool: set<nat>) returns (cycle: seq<nat>)
    requires pool != {} && forall y :: y in pool ==> y in descs && WaitsInside(descs, pool, y)
    ensures CycleIn(descs, pool, cycle)
  {
    hide WaitsInside;
    var x :| x in pool;
    var walk := WalkOn(descs, pool, x, |pool|);
    if Distinct(walk) {
      DistinctFits(walk, pool);
      assert false;
    }
    var j :| 0 <= j < |walk| && walk[j] in walk[..j];
    var i :| 0 <= i < j && walk[i] == walk[j];
    cycle := walk[i..j + 1];
    forall k | 0 < k < |cycle|
      ensures DependsOn(descs, cycle[k - 1], cycle[k])
    {
      assert cycle[k] == walk[i + k] && cycle[k - 1] == walk[i + k - 1];
    }
  }

  /** A scan that skips nothing saw no pending component with a failed dependency. */
  lemma {:induction false} QuietScan(descs: map<nat, Desc>, order: seq<nat>, rt: map<nat, Runtime>, phase: nat,
                                     pending: nat, skipped: bool, candidate: Option<nat>)
    requires rt.Keys == descs.Keys && forall id :: id in order ==> id in descs
    ensures var s := ScanFrom(descs, order, rt, phase, pending, skipped, candidate);
            && (s.ScanDone? && skipped ==> s.skipped)
            && (s.ScanDone? && !s.skipped ==>
                  forall id :: id in order && id in Pending(descs, rt, phase) ==>
                    CheckDeps(rt, descs[id].deps, false) != DepFailed)
  {
    if order != [] {
      var id, rest := order[0], order[1..];
      assert order == [id] + rest;
      if !rt[id].state.Discovered? || descs[id].phase != phase {
        QuietScan(descs, rest, rt, phase, pending, skipped, candidate);
      } else {
        match CheckDeps(rt, descs[id].deps, false)
        case DepFailed =>
          if !descs[id].Required() {
            QuietScan(descs, rest, SetState(rt, id, Skipped, ErrDependency), phase, pending + 1, true, candidate);
          }
        case Ready => QuietScan(descs, rest, rt, phase, pending + 1, skipped, Better(id, candidate));
        case Waiting => QuietScan(descs, rest, rt, phase, pending + 1, skipped, candidate);
      }
    }
  }

  /** A waiting component has an unresolved dependency: the first one that is not initialized. */
  lemma {:induction false} WaitsForUnresolved(rt: map<nat, Runtime>, deps: seq<nat>)
    requires Tidy(rt) && CheckDeps(rt, deps, false) == Waiting
    ensures exists d :: d in deps && d in rt && rt[d].state.Discovered?
  {
    if !rt[deps[0]].initialized {
      assert deps[0] in deps && rt[deps[0]].state.Discovered?;
    } else {
      WaitsForUnresolved(rt, deps[1..]);
      var d :| d in deps[1..] && d in rt && rt[d].state.Discovered?;
      assert d in deps;
    }
  }

  /** A phase that is stuck: something is pending, nothing is ready, and nothing can be skipped. */
  ghost predicate Stuck(descs: map<nat, Desc>, rt: map<nat, Runtime>, phase: nat)
    requires rt.Keys == descs.Keys
  {
    && Pending(descs, rt, phase) != {}
    && forall id :: id in Pending(descs, rt, phase) ==> CheckDeps(rt, descs[id].deps, false) == Waiting
  }

  lemma RoundGivesUpStuck(t: Table, e: Engine, phase: nat, cb: Callbacks)
    requires Linked(t)
    requires Sized(t, e) && Tidy(e.rt)
    ensures var r := PhaseRound(t, e, phase, cb);
            r.Finished? && r.outcome.NoProgress? ==> r.e == e && Stuck(t.descs, e.rt, phase)
  {
    hide ScanFrom, CheckDeps, InitializeComponent, OnlySkips;
    FullScanFacts(t, e, phase);
    QuietScan(t.descs, t.order, e.rt, phase, 0, false, None);
    var r := PhaseRound(t, e, phase, cb);
    if r.Finished? && r.outcome.NoProgress? {
      forall id | id in Pending(t.descs, e.rt, phase)
        ensures CheckDeps(e.rt, t.descs[id].deps, false) == Waiting
      {
        ReadyMeansInitialized(e.rt, t.descs[id].deps);
        assert id !in ReadySet(t.descs, e.rt, phase);
      }
    }
  }

  lemma {:induction false} PhaseGivesUpStuck(t: Table, e: Engine, phase: nat, cb: Callbacks)
    requires Linked(t)
    requires InitStage(t, e) && ResolvedBelow(t, e, phase)
    ensures var (e', outcome) := InitializePhase(t, e, phase, cb);
            outcome.NoProgress? ==>
              InitStage(t, e') && ResolvedBelow(t, e', phase) && Stuck(t.descs, e'.rt, phase)
    decreases |Pending(t.descs, e.rt, phase)|
  {
    hide InitStage, Stuck, ResolvedBelow, Tidy;
    InitStageTidy(t, e);
    RoundGivesUpStuck(t, e, phase, cb);
    RoundKeepsStage(t, e, phase, cb);
    RoundKeepsResolved(t, e, phase, cb);
    var r := PhaseRound(t, e, phase, cb);
    if r.Again? {
      PhaseGivesUpStuck(t, r.e, phase, cb);
    }
  }

  lemma StuckMeansCycle(t: Table, e: Engine, phase: nat) returns (cycle: seq<nat>)
    requires ValidTable(t) && Sized(t, e) && Tidy(e.rt) && ResolvedBelow(t, e, phase)
    requires Stuck(t.descs, e.rt, phase)
    ensures CycleIn(t.descs, Pending(t.descs, e.rt, phase), cycle)
  {
    var pool := Pending(t.descs, e.rt, phase);
    forall y | y in pool
      ensures y in t.descs && WaitsInside(t.descs, pool, y)
    {
      WaitsForUnresolved(e.rt, t.descs[y].deps);
      var d :| d in t.descs[y].deps && d in e.rt && e.rt[d].state.Discovered?;
      assert DepsKnown(t.descs, t.descs[y]);
      assert d in pool && DependsOn(t.descs, y, d);
    }
    cycle := WaitingPoolHasCycle(t.descs, pool);
  }

  /** The no-progress error names a real cycle among the components still pending. */
  lemma NoProgressMeansCycle(t: Table, e: Engine, phase: nat, cb: Callbacks)
    requires ValidTable(t)
    requires InitStage(t, e) && ResolvedBelow(t, e, phase)
    ensures var (e', outcome) := InitializePhase(t, e, phase, cb);
            outcome.NoProgress? ==> exists cycle :: CycleIn(t.descs, Pending(t.descs, e'.rt, phase), cycle)
  {
    hide InitializePhase, InitStage, Stuck, CycleIn;
    InitStageTidy(t, e);
    PhaseGivesUpStuck(t, e, phase, cb);
    var (e', outcome) := InitializePhase(t, e, phase, cb);
    if outcome.NoProgress? {
      InitStageTidy(t, e');
      var cycle := StuckMeansCycle(t, e', phase);
    }
  }

  lemma {:induction false} NoCycleInside(descs: map<nat, Desc>, pool: set<nat>)
    requires Acyclic(descs) && pool <= descs.Keys
    ensures !exists p :: CycleIn(descs, pool, p)
  {
    forall p
      ensures !CycleIn(descs, pool, p)
    {
      assert CycleIn(descs, pool, p) ==> CycleIn(descs, descs.Keys, p);
    }
  }

  /** On an acyclic table the engine always resolves every phase, unless a required component is lost. */
  lemma {:induction false} AcyclicAlwaysResolves(t: Table, e: Engine, phase: nat, cb: Callbacks)
    requires phase <= PHASE_COUNT && ValidTable(t) && Acyclic(t.descs)
    requires InitStage(t, e) && ResolvedBelow(t, e, phase) && NoneLost(t, e)
    ensures !InitializeFrom(t, e, phase, cb).1.NoProgress?
    decreases PHASE_COUNT - phase
  {
    hide InitializePhase, InitStage, NoneLost, ResolvedBelow;
    if phase < PHASE_COUNT {
      InitStageTidy(t, e);
      NoProgressMeansCycle(t, e, phase, cb);
      PhaseKeepsStage(t, e, phase, cb);
      var (e1, outcome) := InitializePhase(t, e, phase, cb);
      NoCycleInside(t.descs, Pending(t.descs, e1.rt, phase));
      if outcome.Done? {
        AcyclicAlwaysResolves(t, e1, phase + 1, cb);
      }
    }
  }

  // ----- start-ups in which every init succeeds

  ghost predicate InitsAnswerOk(cb: Callbacks) {
    forall trace, id :: cb(trace, Init, id) == Ok
  }

  /** So far everything looked at has been initialised. */
  ghost predicate NoneDown(rt: map<nat, Runtime>) {
    forall id :: id in rt ==> rt[id].state.Discovered? || rt[id].state.Initialized?
  }

  lemma {:induction false} SoundScan(descs: map<nat, Desc>, order: seq<nat>, rt: map<nat, Runtime>, phase: nat,
                                     pending: nat, skipped: bool, candidate: Option<nat>)
    requires rt.Keys == descs.Keys && NoneDown(rt) && forall id :: id in order ==> id in descs
    requires forall id :: id in descs ==> DepsKnown(descs, descs[id])
    ensures var s := ScanFrom(descs, order, rt, phase, pending, skipped, candidate);
            s.ScanDone? && s.rt == rt
  {
    if order != [] {
      var id, rest := order[0], order[1..];
      assert DepsKnown(descs, descs[id]);
      HealthyDepsNeverFail(rt, descs[id].deps);
      if !rt[id].state.Discovered? || descs[id].phase != phase {
        SoundScan(descs, rest, rt, phase, pending, skipped, candidate);
      } else {
        match CheckDeps(rt, descs[id].deps, false)
        case Ready => SoundScan(descs, rest, rt, phase, pending + 1, skipped, Better(id, candidate));
        case Waiting => SoundScan(descs, rest, rt, phase, pending + 1, skipped, candidate);
      }
    }
  }

  lemma SoundInit(e: Engine, d: Desc, cb: Callbacks)
    requires d.id in e.rt && NoneDown(e.rt) && InitsAnswerOk(cb)
    ensures var (e', outcome) := InitializeComponent(e, d, cb);
            NoneDown(e'.rt) && outcome.Done?
  {
  }

  lemma SoundRound(t: Table, e: Engine, phase: nat, cb: Callbacks)
    requires Linked(t) && Sized(t, e) && Tidy(e.rt) && ValidTable(t) && NoneDown(e.rt)
    requires InitsAnswerOk(cb)
    ensures var r := PhaseRound(t, e, phase, cb);
            NoneDown(r.e.rt) && (r.Finished? ==> r.outcome.Done? || r.outcome.NoProgress?)
  {
    hide ScanFrom, Tidy, OnlySkips, InitializeComponent, NoneDown, InitsAnswerOk;
    FullScanFacts(t, e, phase);
    SoundScan(t.descs, t.order, e.rt, phase, 0, false, None);
    var s := FullScan(t, e, phase);
    if s.candidate.Some? {
      assert s.candidate.value in ReadySet(t.descs, e.rt, phase);
      SoundInit(e.(rt := s.rt), t.descs[s.candidate.value], cb);
    }
  }

  lemma {:induction false} SoundPhase(t: Table, e: Engine, phase: nat, cb: Callbacks)
    requires Linked(t) && Sized(t, e) && Tidy(e.rt) && ValidTable(t) && NoneDown(e.rt)
    requires InitsAnswerOk(cb)
    ensures var (e', outcome) := InitializePhase(t, e, phase, cb);
            NoneDown(e'.rt) && (outcome.Done? || outcome.NoProgress?)
    decreases |Pending(t.descs, e.rt, phase)|
  {
    hide PhaseRound, NoneDown, Tidy, ValidTable, InitsAnswerOk;
    SoundRound(t, e, phase, cb);
    var r := PhaseRound(t, e, phase, cb);
    if r.Again? {
      SoundPhase(t, r.e, phase, cb);
    }
  }

  lemma {:induction false} SoundInits(t: Table, e: Engine, phase: nat, cb: Callbacks)
    requires phase <= PHASE_COUNT && Linked(t) && Sized(t, e) && Tidy(e.rt) && ValidTable(t) && NoneDown(e.rt)
    requires InitsAnswerOk(cb)
    ensures var (e', outcome) := InitializeFrom(t, e, phase, cb);
            NoneDown(e'.rt) && (outcome.Done? || outcome.NoProgress?)
    decreases PHASE_COUNT - phase
  {
    hide InitializePhase, NoneDown, Tidy, ValidTable, InitsAnswerOk;
    if phase < PHASE_COUNT {
      SoundPhase(t, e, phase, cb);
      var (e1, outcome) := InitializePhase(t, e, phase, cb);
      if outcome.Done? {
        SoundInits(t, e1, phase + 1, cb);
      }
    }
  }

  lemma EverythingListed(t: Table, e: Engine)
    requires ValidTable(t) && InitStage(t, e) && ResolvedBelow(t, e, PHASE_COUNT) && NoneDown(e.rt)
    ensures forall id :: id in t.descs ==> id in e.initOrder
  {
    hide WellOrdered, Orders;
    forall id | id in t.descs
      ensures id in e.initOrder
    {
      assert InitRecord(e.rt[id], LivesAfter(t.descs, e.trace)[id]);
      assert t.descs[id].phase < PHASE_COUNT;
    }
  }

  // ----- cycles

  /** Along a chain of dependencies the initialisation order only goes back. */
  lemma {:induction false} ChainGoesBack(descs: map<nat, Desc>, order: seq<nat>, pool: set<nat>, p: seq<nat>,
                                         k: nat, j: nat, m: nat) returns (n: nat)
    requires DependenciesFirst(descs, order) && CycleIn(descs, pool, p)
    requires k <= j < |p| && m < |order| && order[m] == p[k]
    ensures n < |order| && order[n] == p[j] && n + (j - k) <= m
  {
    if j == k {
      n := m;
    } else {
      var before := ChainGoesBack(descs, order, pool, p, k, j - 1, m);
      assert DependsOn(descs, p[j - 1], p[j]);
      assert DepsWithin(descs, order[before], order[..before]);
      n :| 0 <= n < before && order[n] == p[j];
    }
  }

  /** No member of a dependency cycle is ever initialised, whatever the callbacks answer. */
  lemma CycleStaysOut(t: Table, e: Engine, pool: set<nat>, p: seq<nat>, k: nat)
    requires Orders(t, e) && CycleIn(t.descs, pool, p) && k < |p|
    ensures p[k] !in e.initOrder
  {
    hide CycleIn;
    if p[k] in e.initOrder {
      CycleEnds(t.descs, pool, p);
      var m: nat :| 0 <= m < |e.initOrder| && e.initOrder[m] == p[k];
      var first := ChainGoesBack(t.descs, e.initOrder, pool, p, k, |p| - 1, m);
      var again := ChainGoesBack(t.descs, e.initOrder, pool, p, 0, |p| - 1, first);
      DistinctIndex(e.initOrder, first, again);
      assert false;
    }
  }

  lemma {:induction false} CycleEnds(descs: map<nat, Desc>, pool: set<nat>, p: seq<nat>)
    requires CycleIn(descs, pool, p)
    ensures |p| >= 2 && p[0] == p[|p| - 1] && forall k :: 0 <= k < |p| ==> p[k] in descs
  {
  }

  /** If every init succeeds, the phases give up exactly on the tables that contain a cycle. */
  lemma InitStageOrders(t: Table, e: Engine)
    requires InitStage(t, e)
    ensures Orders(t, e)
  {
  }

  lemma NoProgressIffCycle(t: Table, e: Engine, cb: Callbacks)
    requires Linked(t) && Sized(t, e) && Tidy(e.rt) && ValidTable(t) && InitsAnswerOk(cb)
    requires InitStage(t, e) && ResolvedBelow(t, e, 0) && NoneLost(t, e) && NoneDown(e.rt)
    ensures var outcome := InitializeFrom(t, e, 0, cb).1;
            && (outcome.Done? || outcome.NoProgress?)
            && (outcome.NoProgress? <==> !Acyclic(t.descs))
  {
    hide InitStage, InitializeFrom, ValidTable, Tidy, NoneLost, ResolvedBelow, NoneDown, InitsAnswerOk, CycleIn, Linked;
    SoundInits(t, e, 0, cb);
    InitializeKeepsStage(t, e, 0, cb);
    var (e1, outcome) := InitializeFrom(t, e, 0, cb);
    if Acyclic(t.descs) {
      AcyclicAlwaysResolves(t, e, 0, cb);
    } else if outcome.Done? {
      var p :| CycleIn(t.descs, t.descs.Keys, p);
      EverythingListed(t, e1);
      CycleEnds(t.descs, t.descs.Keys, p);
      InitStageOrders(t, e1);
      CycleStaysOut(t, e1, t.descs.Keys, p, 0);
      assert false;
    }
  }
}
