/** When every deinit, the early ones of a degraded start included, comes after the deinits of the dependents. */
module ComponentDeinit {
  import opened SysTypes
  import opened ComponentModel
  import opened ComponentLifecycle
  import opened ComponentResolve
  import opened ComponentTable
  import opened ComponentTheorems

  /** Call `k` deinitialises a component while `x`, which depends on it, is still initialised. */
  ghost predicate Untimely(descs: map<nat, Desc>, trace: seq<Call>, k: nat, x: nat) {
    && k < |trace| && (trace[k].op.Deinit? || trace[k].op.EarlyDeinit?)
    && x in descs && trace[k].id in descs[x].deps && Holds(LifeOf(trace[..k], x))
  }

  ghost predicate DependentsFirst(descs: map<nat, Desc>, trace: seq<Call>) {
    forall k, x :: !Untimely(descs, trace, k, x)
  }

  /** No optional component with a start hook is anybody's dependency. */
  ghost predicate StartsAreLeaves(descs: map<nat, Desc>) {
    forall x, c :: x in descs && c in descs && c in descs[x].deps ==> descs[c].Required() || !descs[c].hasStart
  }

  // ----- the condition suffices

  ghost predicate EarlyOnlyLeaves(descs: map<nat, Desc>, trace: seq<Call>) {
    forall k :: 0 <= k < |trace| && trace[k].op.EarlyDeinit? ==> MayDegrade(descs, trace[k].id)
  }

  ghost predicate MayDegrade(descs: map<nat, Desc>, id: nat) {
    id in descs && !descs[id].Required() && descs[id].hasStart
  }

  lemma {:induction false} LeavesComeLast(descs: map<nat, Desc>, trace: seq<Call>)
    requires WellOrdered(descs, trace) && StartsAreLeaves(descs) && EarlyOnlyLeaves(descs, trace)
    ensures DependentsFirst(descs, trace)
  {
    forall k: nat, x
      ensures !Untimely(descs, trace, k, x)
    {
      if k < |trace| && x in descs {
        assert Allowed(descs, LivesAfter(descs, trace[..k]), trace[k]);
      }
    }
  }

  lemma {:induction false} GoneStays(trace: seq<Call>, id: nat, n: nat)
    requires n <= |trace| && (LifeOf(trace[..n], id).Gone? || LifeOf(trace[..n], id).Broken?)
    ensures LifeOf(trace, id).Gone? || LifeOf(trace, id).Broken?
    decreases |trace| - n
  {
    if n < |trace| {
      var longer := trace[..n + 1];
      assert longer[..n] == trace[..n] && longer[|longer| - 1] == trace[n];
      GoneStays(trace, id, n + 1);
    } else {
      assert trace[..n] == trace;
    }
  }

  lemma EarlyDeinitEnds(trace: seq<Call>, k: nat)
    requires k < |trace| && trace[k].op.EarlyDeinit?
    ensures LifeOf(trace, trace[k].id).Gone? || LifeOf(trace, trace[k].id).Broken?
  {
    assert trace[..k + 1][..k] == trace[..k];
    GoneStays(trace, trace[k].id, k + 1);
  }

  lemma NotGoneYet(t: Table, e: Engine, k: nat)
    requires InitStage(t, e) && k < |e.trace|
    ensures !LifeOf(e.trace, e.trace[k].id).Gone? && !LifeOf(e.trace, e.trace[k].id).Broken?
  {
    hide LifeOf;
    assert Allowed(t.descs, LivesAfter(t.descs, e.trace[..k]), e.trace[k]);
    var id := e.trace[k].id;
    assert InitRecord(e.rt[id], LivesAfter(t.descs, e.trace)[id]);
  }

  lemma InitsDeinitNothing(t: Table, e: Engine)
    requires InitStage(t, e)
    ensures EarlyOnlyLeaves(t.descs, e.trace)
  {
    hide InitStage, LifeOf;
    forall k | 0 <= k < |e.trace|
      ensures !e.trace[k].op.EarlyDeinit?
    {
      NotGoneYet(t, e, k);
      if e.trace[k].op.EarlyDeinit? {
        EarlyDeinitEnds(e.trace, k);
      }
    }
  }

  /** Whatever was to be started so far runs, or was free to degrade. */
  ghost predicate StartedOrLeaf(t: Table, e: Engine, i: nat)
    requires Sized(t, e) && i <= |e.initOrder|
  {
    forall k :: 0 <= k < i ==> e.rt[e.initOrder[k]].state.Running? || MayDegrade(t.descs, e.initOrder[k])
  }

  lemma LeavesAreReady(t: Table, e: Engine, i: nat)
    requires StartStage(t, e, i) && i < |e.initOrder| && StartedOrLeaf(t, e, i) && StartsAreLeaves(t.descs)
    ensures CheckDeps(e.rt, t.descs[e.initOrder[i]].deps, true) == Ready
  {
    hide CheckDeps, WellOrdered, Flags, LifeOf;
    var id := e.initOrder[i];
    StartNeverWaits(t, e, i);
    assert DepsWithin(t.descs, e.initOrder[i], e.initOrder[..i]);
    forall d | d in t.descs[id].deps
      ensures d in e.rt && e.rt[d].state.Running?
    {
      var k :| 0 <= k < i && e.initOrder[k] == d;
      assert d in e.initOrder;
    }
  }

  lemma CoreOrder(t: Table, e: Engine)
    requires Core(t, e)
    ensures Sized(t, e) && Distinct(e.initOrder) && WellOrdered(t.descs, e.trace)
  {
  }

  /** With its dependencies running a component starts, fails the launch, or is free to degrade. */
  lemma StartWhenReady(t: Table, e: Engine, id: nat, cb: Callbacks)
    requires Sized(t, e) && id in t.descs && CheckDeps(e.rt, t.descs[id].deps, true) == Ready
    ensures var (e', outcome) := StartComponent(e, t.descs[id], cb);
            && id in e'.rt && e'.rt == e.rt[id := e'.rt[id]]
            && (outcome.Done? ==> e'.rt[id].state.Running? || MayDegrade(t.descs, id))
            && e.trace <= e'.trace
            && forall k :: |e.trace| <= k < |e'.trace| && e'.trace[k].op.EarlyDeinit? ==> MayDegrade(t.descs, e'.trace[k].id)
  {
    hide CheckDeps;
  }

  lemma StartKeepsLeaves(t: Table, e: Engine, i: nat, cb: Callbacks)
    requires StartStage(t, e, i) && i < |e.initOrder|
    requires StartedOrLeaf(t, e, i) && StartsAreLeaves(t.descs) && EarlyOnlyLeaves(t.descs, e.trace)
    ensures var (e', outcome) := StartComponent(e, t.descs[e.initOrder[i]], cb);
            && Sized(t, e') && e'.initOrder == e.initOrder && EarlyOnlyLeaves(t.descs, e'.trace)
            && (outcome.Done? ==> StartStage(t, e', i + 1) && StartedOrLeaf(t, e', i + 1))
  {
    hide StartStage, StartsAreLeaves, CheckDeps, MayDegrade, StartComponent, Core;
    LeavesAreReady(t, e, i);
    StageOrder(t, e, i);
    StartWhenReady(t, e, e.initOrder[i], cb);
    StartKeepsStage(t, e, i, cb);
    CoreOrder(t, StartComponent(e, t.descs[e.initOrder[i]], cb).0);
    forall k | 0 <= k < i
      ensures e.initOrder[k] != e.initOrder[i]
    {
      DistinctPair(e.initOrder, k, i);
    }
  }

  lemma {:induction false} StartsKeepLeaves(t: Table, e: Engine, i: nat, cb: Callbacks)
    requires StartStage(t, e, i) && StartedOrLeaf(t, e, i) && StartsAreLeaves(t.descs) && EarlyOnlyLeaves(t.descs, e.trace)
    ensures EarlyOnlyLeaves(t.descs, StartFrom(t, e, i, cb).0.trace)
    decreases |e.initOrder| - i
  {
    hide StartComponent, EarlyOnlyLeaves, StartsAreLeaves, StartedOrLeaf, StartStage;
    StageOrder(t, e, i);
    if i < |e.initOrder| {
      StartKeepsLeaves(t, e, i, cb);
      var (e1, outcome) := StartComponent(e, t.descs[e.initOrder[i]], cb);
      if outcome.Done? {
        StartsKeepLeaves(t, e1, i + 1, cb);
      }
    }
  }

  lemma {:induction false} AddsKeepLeaves(descs: map<nat, Desc>, before: seq<Call>, after: seq<Call>, op: Op,
                                          ids: seq<nat>)
    requires EarlyOnlyLeaves(descs, before) && Adds(before, after, op, ids) && !op.EarlyDeinit?
    ensures EarlyOnlyLeaves(descs, after)
  {
    forall k | 0 <= k < |after| && after[k].op.EarlyDeinit?
      ensures MayDegrade(descs, after[k].id)
    {
      assert k < |before| && after[k] == before[k];
    }
  }

  /** A rollback only adds stops and deinits, in that order, to the trace. */
  lemma RollbackKeepsLeaves(t: Table, e: Engine, cb: Callbacks)
    requires Sized(t, e) && Distinct(e.initOrder)
    ensures e.trace <= Rollback(t, e, cb).0.trace
    ensures EarlyOnlyLeaves(t.descs, e.trace) ==> EarlyOnlyLeaves(t.descs, Rollback(t, e, cb).0.trace)
  {
    hide EarlyOnlyLeaves, StopStarted, DeinitializeAll, Distinct;
    StopsReverseStarts(t, e, cb);
    var e1 := StopStarted(t, e, cb).0;
    DeinitsReverseInits(t, e1, cb);
    if EarlyOnlyLeaves(t.descs, e.trace) {
      AddsKeepLeaves(t.descs, e.trace, e1.trace, Stop, Reverse(e.startOrder));
      AddsKeepLeaves(t.descs, e1.trace, DeinitializeAll(t, e1, cb).trace, Deinit, Reverse(StillInitialized(e1.rt, e1.initOrder)));
    }
  }

  lemma LaunchKeepsLeaves(t: Table, e: Engine, cb: Callbacks)
    requires Linked(t) && Sized(t, e) && Tidy(e.rt) && LaunchReady(t, e) && StartsAreLeaves(t.descs)
    ensures EarlyOnlyLeaves(t.descs, Launch(t, e, cb).0.trace)
  {
    hide InitStage, InitializeFrom, StartFrom, Rollback, Core, NoneLost, ResolvedBelow, ValidTable, StartStage, Tidy,
         EarlyOnlyLeaves, StartsAreLeaves;
    InitializeKeepsStage(t, e, 0, cb);
    var (e1, outcome) := InitializeFrom(t, e, 0, cb);
    InitStageIsCore(t, e1);
    CoreOrder(t, e1);
    InitsDeinitNothing(t, e1);
    RollbackKeepsLeaves(t, e1, cb);
    if outcome.Done? {
      StartReady(t, e1);
      assert StartedOrLeaf(t, e1, 0);
      StartsKeepLeaves(t, e1, 0, cb);
      StartsKeepStage(t, e1, 0, cb);
      var e2 := StartFrom(t, e1, 0, cb).0;
      CoreOrder(t, e2);
      RollbackKeepsLeaves(t, e2, cb);
    }
  }

  /** If no optional component with a start hook is a dependency, every deinit of a start-up and of the stop_all
      after it, early ones included, finds all dependents deinitialised. */
  lemma DeinitsFindNobody(section: seq<Desc>, before: Engine, cb: Callbacks, cbStop: Callbacks)
    requires |section| <= MAX_COMPONENTS && TableOk(Collect(section)) && StartsAreLeaves(TableOf(Collect(section)).descs)
    ensures var t := TableOf(Collect(section));
            var e := StartAll(section, before, cb).0;
            && Sized(t, e)
            && DependentsFirst(t.descs, e.trace)
            && DependentsFirst(t.descs, Rollback(t, e, cbStop).0.trace)
  {
    hide StartAll, Launch, LaunchReady, Rollback, Released, TableOk, Core, Tidy, ValidTable, Discover, DescMap,
         StartsAreLeaves, EarlyOnlyLeaves, DependentsFirst;
    var t := TableOf(Collect(section));
    StartAllIsLaunch(section, before, cb);
    StartAllSafe(section, before, cb, cbStop);
    LaunchKeepsLeaves(t, Discover(Collect(section)), cb);
    var e := StartAll(section, before, cb).0;
    CoreOrder(t, e);
    RollbackKeepsLeaves(t, e, cbStop);
    LeavesComeLast(t.descs, e.trace);
    var e' := Rollback(t, e, cbStop).0;
    ReleasedIsCore(t, e');
    CoreOrder(t, e');
    LeavesComeLast(t.descs, e'.trace);
  }

  // ----- the condition is needed

  /** An optional component that is not brought up is deinitialised at once, after a failed start or because it lost
      a dependency, while every dependent still to be started stays initialised. */
  lemma DegradingPrecedesDependents(t: Table, e: Engine, i: nat, x: nat, cb: Callbacks)
    requires StartStage(t, e, i) && i < |e.initOrder| && !t.descs[e.initOrder[i]].Required()
    requires !StartComponent(e, t.descs[e.initOrder[i]], cb).0.rt[e.initOrder[i]].state.Running?
    requires x in t.descs && x in e.initOrder[i + 1..] && e.initOrder[i] in t.descs[x].deps
    ensures var trace := StartComponent(e, t.descs[e.initOrder[i]], cb).0.trace;
            trace != [] && trace[|trace| - 1].op.EarlyDeinit? && Untimely(t.descs, trace, |trace| - 1, x)
  {
    hide StartStage, LifeOf, CheckDeps;
    StillPrepared(t, e, i, x);
    var id, d := e.initOrder[i], t.descs[e.initOrder[i]];
    var trace := StartComponent(e, d, cb).0.trace;
    if CheckDeps(e.rt, d.deps, true) == Ready {
      var call := Invoke(e, d, Start, cb);
      assert trace[..|trace| - 1] == e.trace + [call];
      LifeSnoc(e.trace, call, x);
    } else {
      assert trace[..|trace| - 1] == e.trace;
    }
  }

  lemma StillPrepared(t: Table, e: Engine, i: nat, x: nat)
    requires StartStage(t, e, i) && i < |e.initOrder| && x in t.descs && x in e.initOrder[i + 1..]
    ensures var id := e.initOrder[i];
            && id in t.descs && x != id && t.descs[id].id == id
            && id in e.rt && e.rt[id].initialized && x in e.rt && LifeOf(e.trace, x).Live?
  {
    hide StartStage, LifeOf, DoneAt;
    var id := e.initOrder[i];
    StageParts(t, e, i);
    DoneAdvances(t, e.initOrder, i);
    DoneExcludes(t, e.initOrder, i, x);
    assert e.initOrder[i..] == [id] + e.initOrder[i + 1..];
    assert id !in e.initOrder[i + 1..];
    var life := LivesAfter(t.descs, e.trace);
    assert Prepared(e.rt[x], life[x]) && Prepared(e.rt[id], life[id]);
  }

  lemma StageParts(t: Table, e: Engine, i: nat)
    requires StartStage(t, e, i)
    ensures Sized(t, e) && i <= |e.initOrder| && Distinct(e.initOrder)
    ensures StartFlags(t, e, LivesAfter(t.descs, e.trace), DoneAt(t, e.initOrder, i))
  {
  }

  lemma DoneExcludes(t: Table, initOrder: seq<nat>, i: nat, x: nat)
    requires i < |initOrder| && x in initOrder[i + 1..]
    ensures x !in DoneAt(t, initOrder, i)
  {
    assert initOrder[i..] == [initOrder[i]] + initOrder[i + 1..];
  }

  lemma LifeSnoc(trace: seq<Call>, c: Call, id: nat)
    ensures LifeOf(trace + [c], id) == if c.id == id then Next(LifeOf(trace, id), c) else LifeOf(trace, id)
  {
    assert (trace + [c])[..|trace|] == trace;
  }

  /** Every callback succeeds, except the start of one component. */
  function OnlyStartFails(c: nat): Callbacks {
    (trace, op, id) => if op == Start && id == c then ErrIo else Ok
  }

  lemma OnlyStartFailsInits(c: nat)
    ensures InitsAnswerOk(OnlyStartFails(c))
  {
  }

  /** Everything to be started before position `i` runs. */
  ghost predicate AllStarted(t: Table, e: Engine, i: nat)
    requires Sized(t, e) && i <= |e.initOrder|
  {
    forall k :: 0 <= k < i ==> e.rt[e.initOrder[k]].state.Running?
  }

  lemma NextIsReady(t: Table, e: Engine, i: nat)
    requires StartStage(t, e, i) && i < |e.initOrder| && AllStarted(t, e, i)
    ensures CheckDeps(e.rt, t.descs[e.initOrder[i]].deps, true) == Ready
  {
    hide CheckDeps, WellOrdered, Flags, LifeOf;
    var id := e.initOrder[i];
    StartNeverWaits(t, e, i);
    assert DepsWithin(t.descs, e.initOrder[i], e.initOrder[..i]);
    forall d | d in t.descs[id].deps
      ensures d in e.rt && e.rt[d].state.Running?
    {
      var k :| 0 <= k < i && e.initOrder[k] == d;
      assert d in e.initOrder;
    }
  }

  lemma StartExtends(t: Table, e: Engine, id: nat, cb: Callbacks)
    requires Sized(t, e) && id in t.descs
    ensures var e' := StartComponent(e, t.descs[id], cb).0;
            Sized(t, e') && e.trace <= e'.trace && e'.initOrder == e.initOrder
  {
    hide CheckDeps;
  }

  lemma {:induction false} StartsExtend(t: Table, e: Engine, i: nat, cb: Callbacks)
    requires Sized(t, e) && i <= |e.initOrder|
    ensures e.trace <= StartFrom(t, e, i, cb).0.trace
    decreases |e.initOrder| - i
  {
    hide StartComponent, CheckDeps;
    if i < |e.initOrder| {
      StartExtends(t, e, e.initOrder[i], cb);
      var (e1, outcome) := StartComponent(e, t.descs[e.initOrder[i]], cb);
      if outcome.Done? {
        StartsExtend(t, e1, i + 1, cb);
      }
    }
  }

  lemma {:induction false} UntimelyStays(descs: map<nat, Desc>, trace: seq<Call>, longer: seq<Call>, k: nat, x: nat)
    requires Untimely(descs, trace, k, x) && trace <= longer
    ensures Untimely(descs, longer, k, x)
  {
    assert longer[..k] == trace[..k];
  }

  lemma OthersStart(t: Table, e: Engine, i: nat, c: nat)
    requires StartStage(t, e, i) && i < |e.initOrder| && AllStarted(t, e, i) && e.initOrder[i] != c
    ensures var (e', outcome) := StartComponent(e, t.descs[e.initOrder[i]], OnlyStartFails(c));
            Sized(t, e') && e'.initOrder == e.initOrder && outcome.Done? && StartStage(t, e', i + 1) && AllStarted(t, e', i + 1)
  {
    hide StartStage, CheckDeps;
    NextIsReady(t, e, i);
    StageOrder(t, e, i);
    StartKeepsStage(t, e, i, OnlyStartFails(c));
    forall k | 0 <= k < i
      ensures e.initOrder[k] != e.initOrder[i]
    {
      DistinctPair(e.initOrder, k, i);
    }
  }

  lemma DegradesWhenFailing(t: Table, e: Engine, c: nat)
    requires Sized(t, e) && MayDegrade(t.descs, c) && CheckDeps(e.rt, t.descs[c].deps, true) == Ready
    ensures var (e', outcome) := StartComponent(e, t.descs[c], OnlyStartFails(c));
            outcome.Done? && c in e'.rt && !e'.rt[c].state.Running?
  {
    hide CheckDeps;
  }

  lemma StageSized(t: Table, e: Engine, i: nat)
    requires StartStage(t, e, i)
    ensures e.rt.Keys == t.descs.Keys && forall id :: id in t.descs ==> t.descs[id].id == id
  {
  }

  /** The start of the failing component itself. */
  lemma {:induction false} FailsHere(t: Table, e: Engine, i: nat, x: nat) returns (k: nat)
    requires StartStage(t, e, i) && i < |e.initOrder| && AllStarted(t, e, i)
    requires MayDegrade(t.descs, e.initOrder[i]) && x in t.descs && e.initOrder[i] in t.descs[x].deps && x in e.initOrder
    ensures Untimely(t.descs, StartComponent(e, t.descs[e.initOrder[i]], OnlyStartFails(e.initOrder[i])).0.trace, k, x)
    ensures StartComponent(e, t.descs[e.initOrder[i]], OnlyStartFails(e.initOrder[i])).1.Done?
  {
    hide StartStage, StartComponent, Untimely, CheckDeps, AllStarted, MayDegrade, OnlyStartFails;
    StageOrder(t, e, i);
    var c := e.initOrder[i];
    NextIsReady(t, e, i);
    DegradesWhenFailing(t, e, c);
    ComesLater(t, e, i, x);
    OptionalOne(t, c);
    DegradingPrecedesDependents(t, e, i, x, OnlyStartFails(c));
    k := |StartComponent(e, t.descs[c], OnlyStartFails(c)).0.trace| - 1;
  }

  /** The starts reach the failing component with a dependent still to come. */
  lemma {:induction false} StartsReach(t: Table, e: Engine, i: nat, c: nat, x: nat) returns (k: nat)
    requires StartStage(t, e, i) && AllStarted(t, e, i) && MayDegrade(t.descs, c) && x in t.descs && c in t.descs[x].deps
    requires c in e.initOrder[i..] && x in e.initOrder
    ensures Untimely(t.descs, StartFrom(t, e, i, OnlyStartFails(c)).0.trace, k, x)
    decreases |e.initOrder| - i
  {
    hide StartStage, StartComponent, Untimely, CheckDeps, AllStarted, MayDegrade, OnlyStartFails, Sized, Distinct;
    StageOrder(t, e, i);
    StageSized(t, e, i);
    var cb := OnlyStartFails(c);
    StartExtends(t, e, e.initOrder[i], cb);
    var e1 := StartComponent(e, t.descs[e.initOrder[i]], cb).0;
    if e.initOrder[i] == c {
      k := FailsHere(t, e, i, x);
      StartsExtend(t, e1, i + 1, cb);
      UntimelyStays(t.descs, e1.trace, StartFrom(t, e, i, cb).0.trace, k, x);
    } else {
      assert e.initOrder[i..] == [e.initOrder[i]] + e.initOrder[i + 1..];
      OthersStart(t, e, i, c);
      k := StartsReach(t, e1, i + 1, c, x);
    }
  }

  lemma OptionalOne(t: Table, c: nat)
    requires MayDegrade(t.descs, c)
    ensures c in t.descs && !t.descs[c].Required()
  {
  }

  lemma ComesLater(t: Table, e: Engine, i: nat, x: nat)
    requires StartStage(t, e, i) && i < |e.initOrder| && x in e.initOrder && x in t.descs && e.initOrder[i] in t.descs[x].deps
    ensures x in e.initOrder[i + 1..]
  {
    hide WellOrdered, Flags, LifeOf, StartFlags;
    var j :| 0 <= j < |e.initOrder| && e.initOrder[j] == x;
    assert DepsWithin(t.descs, e.initOrder[j], e.initOrder[..j]);
    var m :| 0 <= m < j && e.initOrder[m] == e.initOrder[i];
    DistinctIndex(e.initOrder, m, i);
    assert e.initOrder[i + 1..][j - i - 1] == x;
  }

  lemma LaunchReaches(t: Table, e: Engine, c: nat, x: nat) returns (k: nat)
    requires Linked(t) && Sized(t, e) && Tidy(e.rt) && LaunchReady(t, e) && NoneDown(e.rt) && Acyclic(t.descs)
    requires MayDegrade(t.descs, c) && x in t.descs && c in t.descs[x].deps
    ensures Untimely(t.descs, Launch(t, e, OnlyStartFails(c)).0.trace, k, x)
  {
    hide InitStage, InitializeFrom, StartFrom, Rollback, Core, NoneLost, ResolvedBelow, ValidTable, StartStage, Tidy,
         Untimely, Acyclic, NoneDown, OnlyStartFails;
    var cb := OnlyStartFails(c);
    InitializeKeepsStage(t, e, 0, cb);
    AcyclicAlwaysResolves(t, e, 0, cb);
    OnlyStartFailsInits(c);
    SoundInits(t, e, 0, cb);
    var e1 := InitializeFrom(t, e, 0, cb).0;
    EverythingListed(t, e1);
    StartReady(t, e1);
    assert e1.initOrder[0..] == e1.initOrder;
    k := StartsReach(t, e1, 0, c, x);
    StartsKeepStage(t, e1, 0, cb);
    var (e2, outcome) := StartFrom(t, e1, 0, cb);
    CoreOrder(t, e2);
    RollbackKeepsLeaves(t, e2, cb);
    UntimelyStays(t.descs, e2.trace, Launch(t, e, cb).0.trace, k, x);
  }

  /** On an acyclic table one failing start is enough to deinitialise a component before a dependent. */
  lemma FailingStartIsUntimely(section: seq<Desc>, before: Engine, c: nat, x: nat) returns (k: nat)
    requires |section| <= MAX_COMPONENTS && TableOk(Collect(section)) && Acyclic(TableOf(Collect(section)).descs)
    requires var descs := TableOf(Collect(section)).descs;
             MayDegrade(descs, c) && x in descs && c in descs[x].deps
    ensures Untimely(TableOf(Collect(section)).descs, StartAll(section, before, OnlyStartFails(c)).0.trace, k, x)
  {
    hide StartAll, Launch, TableOk, Acyclic, LaunchReady, Discover, DescMap, Untimely, MayDegrade, Tidy, Sized, Linked, OnlyStartFails;
    var t := TableOf(Collect(section));
    StartAllIsLaunch(section, before, OnlyStartFails(c));
    DiscoveredIsSound(Collect(section));
    k := LaunchReaches(t, Discover(Collect(section)), c, x);
  }

  lemma {:induction false} FindDependency(descs: map<nat, Desc>) returns (x: nat, c: nat)
    requires !StartsAreLeaves(descs)
    ensures MayDegrade(descs, c) && x in descs && c in descs[x].deps
  {
    x, c :| x in descs && c in descs && c in descs[x].deps && !descs[c].Required() && descs[c].hasStart;
  }

  /** Exactly the acyclic tables whose degradable components are nobody's dependency deinitialise dependents first,
      whatever the callbacks answer. */
  lemma DependentsFirstIff(section: seq<Desc>, before: Engine)
    requires |section| <= MAX_COMPONENTS && TableOk(Collect(section)) && Acyclic(TableOf(Collect(section)).descs)
    ensures var descs := TableOf(Collect(section)).descs;
            StartsAreLeaves(descs) <==> forall cb: Callbacks :: DependentsFirst(descs, StartAll(section, before, cb).0.trace)
  {
    hide StartAll, Acyclic, TableOk, DescMap, OnlyStartFails, Collect, TableOf, Untimely, StartsAreLeaves;
    var descs := TableOf(Collect(section)).descs;
    if StartsAreLeaves(descs) {
      forall cb: Callbacks
        ensures DependentsFirst(descs, StartAll(section, before, cb).0.trace)
      {
        DeinitsFindNobody(section, before, cb, cb);
      }
    } else {
      var x, c := FindDependency(descs);
      var k := FailingStartIsUntimely(section, before, c, x);
      assert !DependentsFirst(descs, StartAll(section, before, OnlyStartFails(c)).0.trace);
    }
  }
}
