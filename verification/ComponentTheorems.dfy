/** What start_all and stop_all promise over whole runs, for any table and any answers of the callbacks. */
module ComponentTheorems {
  import opened SysTypes
  import opened ComponentModel
  import opened ComponentLifecycle
  import opened ComponentResolve
  import opened ComponentConfluence
  import opened ComponentTable

  /** A successful start: required components run, running components stand on running ones, the rest is degraded. */
  ghost predicate AllUp(t: Table, e: Engine) {
    && Sized(t, e)
    && forall id :: id in t.descs ==>
         && (e.rt[id].state.Running? || e.rt[id].state.Failed? || e.rt[id].state.Skipped?)
         && (t.descs[id].Required() ==> e.rt[id].state.Running?)
         && (e.rt[id].state.Running? ==> AllRunning(e.rt, t.descs[id].deps))
         && (e.rt[id].started <==> e.rt[id].state.Running?)
         && (e.rt[id].initialized <==> e.rt[id].state.Running?)
  }

  lemma StartReady(t: Table, e: Engine)
    requires InitStage(t, e) && NoneLost(t, e) && ResolvedBelow(t, e, PHASE_COUNT) && ValidTable(t)
    ensures StartStage(t, e, 0)
  {
    hide WellOrdered;
    InitStageIsCore(t, e);
    var life := LivesAfter(t.descs, e.trace);
    assert e.initOrder[0..] == e.initOrder;
    forall id | id in t.descs
      ensures if id in DoneAt(t, e.initOrder, 0) then Settled(e.rt[id]) else Prepared(e.rt[id], life[id])
    {
      assert InitRecord(e.rt[id], life[id]);
      assert t.descs[id].phase < PHASE_COUNT;
    }
  }

  lemma StartedAllUp(t: Table, e: Engine)
    requires StartStage(t, e, |e.initOrder|)
    ensures AllUp(t, e)
  {
    hide WellOrdered, Orders;
    forall id | id in t.descs
      ensures Settled(e.rt[id])
    {
      assert id in DoneAt(t, e.initOrder, |e.initOrder|);
    }
  }

  /** A validated table whose components have just been discovered. */
  ghost predicate LaunchReady(t: Table, e: Engine) {
    && Linked(t) && Sized(t, e) && Tidy(e.rt) && ValidTable(t)
    && InitStage(t, e) && NoneLost(t, e) && ResolvedBelow(t, e, 0) && Untouched(t, e, 0)
  }

  lemma FreshLaunch(ds: seq<Desc>)
    requires TableOk(ds)
    ensures LaunchReady(TableOf(ds), Discover(ds))
  {
    hide InitStage, TableOk;
    ValidatedTable(ds);
    DiscoveredStage(ds);
    InitStageTidy(TableOf(ds), Discover(ds));
  }

  /** Every launch ends either all up or with everything released, whatever the callbacks answer. */
  lemma LaunchEnds(t: Table, e: Engine, cb: Callbacks)
    requires Linked(t) && Sized(t, e) && Tidy(e.rt) && LaunchReady(t, e)
    ensures var (e', outcome) := Launch(t, e, cb);
            && Core(t, e')
            && (outcome.Done? ==> AllUp(t, e'))
            && (!outcome.Done? ==> Released(t, e'))
  {
    hide InitStage, InitializeFrom, StartFrom, Rollback, Core, Released, AllUp, NoneLost, ResolvedBelow, StartStage, Tidy;
    InitializeKeepsStage(t, e, 0, cb);
    var (e1, outcome) := InitializeFrom(t, e, 0, cb);
    InitStageIsCore(t, e1);
    RollbackReleases(t, e1, cb);
    ReleasedIsCore(t, Rollback(t, e1, cb).0);
    if outcome.Done? {
      StartReady(t, e1);
      StartsKeepStage(t, e1, 0, cb);
      var (e2, outcome2) := StartFrom(t, e1, 0, cb);
      RollbackReleases(t, e2, cb);
      ReleasedIsCore(t, Rollback(t, e2, cb).0);
      if outcome2.Done? {
        StartedAllUp(t, e2);
      }
    }
  }

  lemma ReleasedIsCore(t: Table, e: Engine)
    requires Released(t, e)
    ensures Core(t, e)
  {
  }

  lemma CoreIsSized(t: Table, e: Engine)
    requires Core(t, e)
    ensures Sized(t, e)
  {
  }

  /** What start_all does with a section the validation accepts. */
  lemma StartAllIsLaunch(section: seq<Desc>, before: Engine, cb: Callbacks)
    requires |section| <= MAX_COMPONENTS && TableOk(Collect(section))
    ensures var t := TableOf(Collect(section));
            var e0 := Discover(Collect(section));
            && Linked(t) && Sized(t, e0) && Tidy(e0.rt) && LaunchReady(t, e0)
            && var (e, outcome) := Launch(t, e0, cb);
            && StartAll(section, before, cb) == (e, Code(outcome))
            && (Code(outcome) == Ok <==> outcome.Done?)
  {
    hide Launch, LaunchReady, TableOk, ValidateFrom, Collect, Discover, DescMap, Linked, Sized, Tidy;
    ValidateIff(Collect(section));
    FreshLaunch(Collect(section));
    LaunchReadyParts(TableOf(Collect(section)), Discover(Collect(section)));
  }

  lemma LaunchReadyParts(t: Table, e: Engine)
    requires LaunchReady(t, e)
    ensures Linked(t) && Sized(t, e) && Tidy(e.rt) && ValidTable(t)
  {
  }

  /** sys_component_start_all on any section the validation accepts, followed by sys_component_stop_all. */
  lemma StartAllSafe(section: seq<Desc>, before: Engine, cb: Callbacks, cbStop: Callbacks)
    requires |section| <= MAX_COMPONENTS && TableOk(Collect(section))
    ensures var t := TableOf(Collect(section));
            var (e, code) := StartAll(section, before, cb);
            && Core(t, e) && Sized(t, e)
            && |e.initOrder| <= MAX_COMPONENTS && |e.startOrder| <= MAX_COMPONENTS
            && (code == Ok ==> AllUp(t, e))
            && (code != Ok ==> Released(t, e))
            && Released(t, Rollback(t, e, cbStop).0)
  {
    hide StartAll, Launch, LaunchReady, Rollback, Released, AllUp, TableOk, Core, Tidy, ValidTable, Discover, DescMap;
    var t := TableOf(Collect(section));
    StartAllIsLaunch(section, before, cb);
    LaunchReadyParts(t, Discover(Collect(section)));
    LaunchEnds(t, Discover(Collect(section)), cb);
    var e := StartAll(section, before, cb).0;
    CoreIsSized(t, e);
    OrdersFit(t, e);
    RollbackReleases(t, e, cbStop);
  }

  /** A table that is too long or not well formed is refused before any callback runs, with the fault of the first
      faulty descriptor in link order. */
  lemma BadTableRefused(section: seq<Desc>, before: Engine, cb: Callbacks)
    requires |section| > MAX_COMPONENTS || !TableOk(Collect(section))
    ensures var (e, code) := StartAll(section, before, cb);
            var ds := Collect(section);
            && code != Ok
            && (|section| > MAX_COMPONENTS ==> e == before && code == ErrOverflow)
            && (|section| <= MAX_COMPONENTS ==>
                  && e.trace == [] && e.initOrder == [] && e.startOrder == []
                  && exists k :: 0 <= k < |ds| && code == Fault(ds, k) && forall j :: 0 <= j < k ==> Fault(ds, j) == Ok)
  {
    hide TableOk, ValidateFrom, Fault;
    ValidateIff(Collect(section));
    ValidationAnswers(Collect(section));
  }

  // ----- pairing, as counts

  function Count(trace: seq<Call>, id: nat, p: Call -> bool): nat {
    if trace == [] then 0
    else
      var c := trace[|trace| - 1];
      Count(trace[..|trace| - 1], id, p) + if c.id == id && p(c) then 1 else 0
  }

  predicate InitOk(c: Call) { c.op.Init? && c.result == Ok }

  predicate StartOk(c: Call) { c.op.Start? && c.result == Ok }

  predicate AnyStop(c: Call) { c.op.Stop? }

  predicate AnyDeinit(c: Call) { c.op.Deinit? || c.op.EarlyDeinit? }

  lemma {:induction false} BrokenStays(trace: seq<Call>, id: nat, n: nat)
    requires n <= |trace| && LifeOf(trace[..n], id).Broken?
    ensures LifeOf(trace, id).Broken?
    decreases |trace| - n
  {
    if n < |trace| {
      var longer := trace[..n + 1];
      assert longer[..n] == trace[..n] && longer[|longer| - 1] == trace[n];
      BrokenStays(trace, id, n + 1);
    } else {
      assert trace[..n] == trace;
    }
  }

  /** The life of a component determines how often it was initialised, started, stopped and deinitialised. */
  lemma {:induction false} LifeCounts(trace: seq<Call>, id: nat)
    requires !LifeOf(trace, id).Broken?
    ensures var l := LifeOf(trace, id);
            && Count(trace, id, InitOk) == (if l.Fresh? || l.Refused? then 0 else 1)
            && Count(trace, id, AnyDeinit) == (if l.Gone? then 1 else 0)
            && Count(trace, id, StartOk) == Count(trace, id, AnyStop) + (if l.Up? then 1 else 0)
            && (l.Fresh? || l.Refused? || l.Live? || l.Faulted? ==> Count(trace, id, StartOk) == 0)
            && Count(trace, id, StartOk) <= 1
  {
    if trace != [] {
      var n := |trace| - 1;
      if LifeOf(trace[..n], id).Broken? {
        BrokenStays(trace, id, n);
      }
      LifeCounts(trace[..n], id);
    }
  }

  lemma {:induction false} NeverBroken(descs: map<nat, Desc>, trace: seq<Call>, id: nat)
    requires WellOrdered(descs, trace)
    ensures !LifeOf(trace, id).Broken?
  {
    if trace != [] {
      var n := |trace| - 1;
      var prefix := trace[..n];
      assert Allowed(descs, LivesAfter(descs, prefix), trace[n]);
      forall k | 0 <= k < n
        ensures Allowed(descs, LivesAfter(descs, prefix[..k]), prefix[k])
      {
        assert prefix[..k] == trace[..k];
      }
      hide Allowed;
      NeverBroken(descs, prefix, id);
    }
  }

  /** Once everything is released, each successful init has exactly one deinit and each successful start one stop. */
  lemma ReleasedIsPaired(t: Table, e: Engine, id: nat)
    requires Released(t, e) && id in t.descs
    ensures Count(e.trace, id, InitOk) == Count(e.trace, id, AnyDeinit) <= 1
    ensures Count(e.trace, id, StartOk) == Count(e.trace, id, AnyStop) <= 1
  {
    NeverBroken(t.descs, e.trace, id);
    LifeCounts(e.trace, id);
  }

  // ----- the order of a rollback, and the error it reports

  function CallIds(calls: seq<Call>): seq<nat> {
    seq(|calls|, i requires 0 <= i < |calls| => calls[i].id)
  }

  function StillInitialized(rt: map<nat, Runtime>, order: seq<nat>): seq<nat> {
    if order == [] then []
    else
      var last := order[|order| - 1];
      var init := StillInitialized(rt, order[..|order| - 1]);
      if last in rt && rt[last].initialized then init + [last] else init
  }

  function FirstError(calls: seq<Call>): SysErr {
    if calls == [] then Ok else if calls[0].result != Ok then calls[0].result else FirstError(calls[1..])
  }

  /** `after` extends `before` by calls of one kind, for exactly these components in this order. */
  ghost predicate Adds(before: seq<Call>, after: seq<Call>, op: Op, ids: seq<nat>) {
    && before <= after
    && (forall k :: |before| <= k < |after| ==> after[k].op == op)
    && CallIds(after[|before|..]) == ids
  }

  lemma AddsNothing(trace: seq<Call>, op: Op)
    ensures Adds(trace, trace, op, [])
  {
    assert trace[|trace|..] == [];
  }

  lemma AddsOneMore(a: seq<Call>, b: seq<Call>, c: seq<Call>, call: Call, ids: seq<nat>)
    requires b == a + [call] && Adds(b, c, call.op, ids)
    ensures Adds(a, c, call.op, [call.id] + ids) && c[|a|..] == [call] + c[|b|..]
  {
    assert c[|a|] == b[|a|];
    assert c[|a|..] == [call] + c[|b|..];
    assert CallIds(c[|a|..]) == [call.id] + CallIds(c[|b|..]);
  }

  lemma FirstErrorCons(call: Call, calls: seq<Call>)
    ensures FirstError([call] + calls) == if call.result != Ok then call.result else FirstError(calls)
  {
    assert ([call] + calls)[1..] == calls;
  }

  /** stop_started_components stops in reverse start order and reports the first stop error. */
  lemma {:induction false} StopsReverseStarts(t: Table, e: Engine, cb: Callbacks)
    requires Sized(t, e)
    ensures var (e', error) := StopStarted(t, e, cb);
            && Adds(e.trace, e'.trace, Stop, Reverse(e.startOrder))
            && |e.trace| <= |e'.trace| && error == FirstError(e'.trace[|e.trace|..])
    decreases |e.startOrder|
  {
    if e.startOrder != [] {
      var n := |e.startOrder| - 1;
      var call := Invoke(e, t.descs[e.startOrder[n]], Stop, cb);
      var e1 := StopLast(t, e, cb).0;
      assert e1.trace == e.trace + [call] && e1.startOrder == e.startOrder[..n];
      hide StopLast, Sized, Invoke, Adds;
      StopsReverseStarts(t, e1, cb);
      var e' := StopStarted(t, e, cb).0;
      AddsOneMore(e.trace, e1.trace, e'.trace, call, Reverse(e1.startOrder));
      FirstErrorCons(call, e'.trace[|e1.trace|..]);
    } else {
      AddsNothing(e.trace, Stop);
      assert e.trace[|e.trace|..] == [];
    }
  }

  lemma {:induction false} StillInitializedFrame(rt: map<nat, Runtime>, rt': map<nat, Runtime>, order: seq<nat>)
    requires forall id :: id in order ==> id in rt && id in rt' && rt'[id].initialized == rt[id].initialized
    ensures StillInitialized(rt', order) == StillInitialized(rt, order)
  {
    if order != [] {
      StillInitializedFrame(rt, rt', order[..|order| - 1]);
    }
  }

  lemma ReverseSnoc(s: seq<nat>, x: nat)
    ensures Reverse(s + [x]) == [x] + Reverse(s)
  {
    assert (s + [x])[..|s|] == s;
  }

  /** deinitialize_components releases what is still initialized, in reverse initialisation order. */
  lemma {:induction false} DeinitsReverseInits(t: Table, e: Engine, cb: Callbacks)
    requires Sized(t, e) && Distinct(e.initOrder)
    ensures Adds(e.trace, DeinitializeAll(t, e, cb).trace, Deinit, Reverse(StillInitialized(e.rt, e.initOrder)))
    decreases |e.initOrder|
  {
    if e.initOrder != [] {
      var n := |e.initOrder| - 1;
      var id := e.initOrder[n];
      var rest := e.initOrder[..n];
      assert e.initOrder == rest + [id];
      DistinctSplit(rest, id);
      var call := Invoke(e, t.descs[id], Deinit, cb);
      var e1 := DeinitLast(t, e, cb);
      assert e1.initOrder == rest;
      assert forall x :: x in rest ==> e1.rt[x].initialized == e.rt[x].initialized;
      assert e1.trace == if e.rt[id].initialized then e.trace + [call] else e.trace;
      hide DeinitLast, Sized, Distinct, Invoke, Adds;
      DeinitsReverseInits(t, e1, cb);
      StillInitializedFrame(e.rt, e1.rt, rest);
      if e.rt[id].initialized {
        AddsOneMore(e.trace, e1.trace, DeinitializeAll(t, e, cb).trace, call, Reverse(StillInitialized(e.rt, rest)));
        ReverseSnoc(StillInitialized(e.rt, rest), id);
      }
    } else {
      AddsNothing(e.trace, Deinit);
    }
  }

  // ----- resolution

  /** On a valid acyclic table a launch fails only because a required component failed or lost a dependency. */
  lemma AcyclicLaunchResolves(t: Table, e: Engine, cb: Callbacks)
    requires Linked(t) && Sized(t, e) && Tidy(e.rt) && LaunchReady(t, e) && Acyclic(t.descs)
    ensures !Launch(t, e, cb).1.NoProgress?
  {
    hide InitStage, InitializeFrom, StartFrom, Rollback, Core, NoneLost, ResolvedBelow, ValidTable, Acyclic, Tidy, StartStage;
    AcyclicAlwaysResolves(t, e, 0, cb);
    InitializeKeepsStage(t, e, 0, cb);
    var (e1, outcome) := InitializeFrom(t, e, 0, cb);
    if outcome.Done? {
      StartReady(t, e1);
      StartsKeepStage(t, e1, 0, cb);
    }
  }

  lemma DiscoveredIsSound(ds: seq<Desc>)
    ensures NoneDown(Discover(ds).rt)
  {
  }

  /** If every init succeeds, start_all gives up for lack of progress exactly on the tables with a cycle. */
  lemma GivesUpIffCycle(section: seq<Desc>, before: Engine, cb: Callbacks)
    requires |section| <= MAX_COMPONENTS && TableOk(Collect(section)) && InitsAnswerOk(cb)
    ensures var t := TableOf(Collect(section));
            var e := Discover(Collect(section));
            && Linked(t) && Sized(t, e) && Tidy(e.rt)
            && StartAll(section, before, cb).1 == Code(Launch(t, e, cb).1)
            && (Launch(t, e, cb).1.NoProgress? <==> !Acyclic(t.descs))
  {
    hide TableOk, StartAll, LaunchReady, Discover, DescMap, Collect, InitsAnswerOk, Acyclic, NoneDown, Linked, Sized, Tidy, Launch;
    StartAllIsLaunch(section, before, cb);
    DiscoveredIsSound(Collect(section));
    LaunchGivesUp(TableOf(Collect(section)), Discover(Collect(section)), cb);
  }

  lemma LaunchGivesUp(t: Table, e: Engine, cb: Callbacks)
    requires Linked(t) && Sized(t, e) && Tidy(e.rt) && LaunchReady(t, e) && InitsAnswerOk(cb) && NoneDown(e.rt)
    ensures Launch(t, e, cb).1.NoProgress? <==> !Acyclic(t.descs)
  {
    hide InitStage, InitializeFrom, StartFrom, Rollback, Core, NoneLost, ResolvedBelow, ValidTable, Acyclic, Tidy, StartStage,
         InitsAnswerOk, NoneDown, Untouched;
    NoProgressIffCycle(t, e, cb);
    InitializeKeepsStage(t, e, 0, cb);
    var (e1, outcome) := InitializeFrom(t, e, 0, cb);
    if outcome.Done? {
      StartReady(t, e1);
      StartsKeepStage(t, e1, 0, cb);
    }
  }

  /** Whatever the callbacks answer, no member of a cycle ends up initialised, and a start-up can only succeed if all of
      them are optional and degraded. */
  lemma CycleNeverUp(section: seq<Desc>, before: Engine, cb: Callbacks, p: seq<nat>, k: nat)
    requires |section| <= MAX_COMPONENTS && TableOk(Collect(section))
    requires CycleIn(TableOf(Collect(section)).descs, TableOf(Collect(section)).descs.Keys, p) && k < |p|
    ensures var descs := TableOf(Collect(section)).descs;
            var (e, code) := StartAll(section, before, cb);
            && p[k] in descs && p[k] in e.rt && p[k] !in e.initOrder && !e.rt[p[k]].initialized
            && (code == Ok ==> !descs[p[k]].Required() && (e.rt[p[k]].state.Failed? || e.rt[p[k]].state.Skipped?))
  {
    hide TableOk, StartAll, Discover, DescMap, Collect, CycleIn, Orders, Released, WellOrdered, LifeOf;
    var t := TableOf(Collect(section));
    var e := StartAll(section, before, cb).0;
    StartAllSafe(section, before, cb, cb);
    CycleEnds(t.descs, t.descs.Keys, p);
    CycleStaysOut(t, e, t.descs.Keys, p, k);
  }

  // ----- link order

  /** Do all phases of the start-up resolve? */
  ghost predicate PhasesResolve(section: seq<Desc>, cb: Callbacks) {
    && TableOk(Collect(section))
    && var t := TableOf(Collect(section));
    && var e := Discover(Collect(section));
    && Linked(t) && Sized(t, e) && Tidy(e.rt)
    && InitializeFrom(t, e, 0, cb).1.Done?
  }

  /** Two link orders of the same descriptors: validation agrees, all phases resolve for one iff for the other, and
      then the whole start-up is the same: calls, initialisation and start order, records, and error code. */
  lemma LinkOrderIrrelevant(a: seq<Desc>, b: seq<Desc>, before: Engine, cb: Callbacks)
    requires multiset(a) == multiset(b)
    ensures TableOk(Collect(a)) <==> TableOk(Collect(b))
    ensures |a| > MAX_COMPONENTS ==> StartAll(a, before, cb) == StartAll(b, before, cb)
    ensures |a| <= MAX_COMPONENTS && TableOk(Collect(a)) ==>
            && (PhasesResolve(a, cb) <==> PhasesResolve(b, cb))
            && (PhasesResolve(a, cb) ==> StartAll(a, before, cb) == StartAll(b, before, cb))
  {
    if TableOk(Collect(a)) {
      SamePermutes(a, b);
      if |a| <= MAX_COMPONENTS {
        SameStart(a, b, before, cb);
      }
    }
    if TableOk(Collect(b)) {
      SamePermutes(b, a);
    }
    assert |a| == |multiset(a)| == |multiset(b)| == |b|;
  }

  lemma CollectedSame(a: seq<Desc>, b: seq<Desc>)
    requires multiset(a) == multiset(b)
    ensures |a| == |b| && multiset(Collect(a)) == multiset(Collect(b))
  {
    hide Collect;
    assert |a| == |multiset(a)| == |multiset(b)| == |b|;
    forall d: Desc
      ensures multiset(Collect(a))[d] == multiset(Collect(b))[d]
    {
      CollectPermutes(a, d);
      CollectPermutes(b, d);
    }
  }

  lemma SamePermutes(a: seq<Desc>, b: seq<Desc>)
    requires multiset(a) == multiset(b) && TableOk(Collect(a))
    ensures |a| == |b| && TableOk(Collect(b))
    ensures DescMap(Collect(a)) == DescMap(Collect(b)) && Discover(Collect(a)) == Discover(Collect(b))
  {
    hide TableOk, Collect, DescMap, Discover, Distinct, Ids;
    CollectedSame(a, b);
    TableIsDistinct(Collect(a));
    TableOkPermutes(Collect(a), Collect(b));
    DescMapPermutes(Collect(a), Collect(b));
  }

  lemma TableIsDistinct(ds: seq<Desc>)
    requires TableOk(ds)
    ensures Distinct(Ids(ds))
  {
  }

  lemma SameLaunch(tA: Table, tB: Table, e: Engine, cb: Callbacks)
    requires Linked(tA) && Linked(tB) && Sized(tA, e) && Sized(tB, e) && Tidy(e.rt)
    requires tA.descs == tB.descs && LaunchReady(tA, e) && LaunchReady(tB, e)
    ensures InitializeFrom(tA, e, 0, cb).1.Done? <==> InitializeFrom(tB, e, 0, cb).1.Done?
    ensures InitializeFrom(tA, e, 0, cb).1.Done? ==> Launch(tA, e, cb) == Launch(tB, e, cb)
  {
    hide Launch, InitializeFrom, InitStage, NoneLost, ResolvedBelow, Tidy;
    LaunchConfluent(tA, tB, e, cb);
  }

  lemma SameStart(a: seq<Desc>, b: seq<Desc>, before: Engine, cb: Callbacks)
    requires multiset(a) == multiset(b) && |a| <= MAX_COMPONENTS && TableOk(Collect(a)) && TableOk(Collect(b))
    ensures PhasesResolve(a, cb) <==> PhasesResolve(b, cb)
    ensures PhasesResolve(a, cb) ==> StartAll(a, before, cb) == StartAll(b, before, cb)
  {
    hide TableOk, StartAll, Launch, InitializeFrom, LaunchReady, Discover, DescMap, Distinct, Linked, Sized, Tidy, Collect, Ids;
    var (dsA, dsB) := (Collect(a), Collect(b));
    SamePermutes(a, b);
    StartAllIsLaunch(a, before, cb);
    StartAllIsLaunch(b, before, cb);
    SameLaunch(TableOf(dsA), TableOf(dsB), Discover(dsA), cb);
  }
}
