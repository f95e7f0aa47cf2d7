/** Two sections on which the engine stops short of what one might expect of it: a dependency deinitialised before its
    dependent, and failing start-ups that depend on the link order. */
module ComponentLimits {
  import opened SysTypes
  import opened ComponentModel
  import opened ComponentLifecycle
  import opened ComponentResolve
  import opened ComponentConfluence
  import opened ComponentTable
  import opened ComponentTheorems
  import opened ComponentDeinit

  function Sample(id: nat, policy: nat, deps: seq<nat>, hasStart: bool): Desc {
    Desc(id, true, 0, policy, deps, true, hasStart, false, false)
  }

  lemma {:induction false} WalkDescends(descs: map<nat, Desc>, pool: set<nat>, p: seq<nat>, k: nat)
    requires forall x, d :: x in descs && d in descs[x].deps ==> d < x
    requires CycleIn(descs, pool, p) && k < |p|
    ensures p[k] + k <= p[0]
  {
    if k > 0 {
      WalkDescends(descs, pool, p, k - 1);
      assert DependsOn(descs, p[k - 1], p[k]);
    }
  }

  lemma {:induction false} DescendingIsAcyclic(descs: map<nat, Desc>)
    requires forall x, d :: x in descs && d in descs[x].deps ==> d < x
    ensures Acyclic(descs)
  {
    forall p
      ensures !CycleIn(descs, descs.Keys, p)
    {
      if CycleIn(descs, descs.Keys, p) {
        WalkDescends(descs, descs.Keys, p, |p| - 1);
      }
    }
  }

  // ----- a dependency deinitialised first

  /** 1 has a start hook, and 2 depends on it; both are optional. */
  function StartingSection(): seq<Desc> {
    [Sample(1, OPTIONAL, [], true), Sample(2, OPTIONAL, [1], false)]
  }

  lemma StartingTable()
    ensures Collect(StartingSection()) == StartingSection() && TableOk(StartingSection())
    ensures DescMap(StartingSection()) == map[1 := Sample(1, OPTIONAL, [], true), 2 := Sample(2, OPTIONAL, [1], false)]
  {
    var ds := StartingSection();
    assert ds[1..] == [Sample(2, OPTIONAL, [1], false)] && ds[1..][1..] == [];
    assert Collect(ds[1..][1..]) == [] && Collect(ds[1..]) == [Sample(2, OPTIONAL, [1], false)];
    assert DescMap(ds[1..][1..]) == map[] && DescMap(ds[1..]) == map[2 := Sample(2, OPTIONAL, [1], false)];
    assert Ids(ds)[..1] == [1];
    assert Target(ds, 1, 0) by {
      assert ds[0] in ds;
    }
  }

  /** If the start of 1 fails, it is deinitialised while 2 is still initialised. */
  lemma DeinitializedTooEarly(before: Engine) returns (k: nat)
    ensures Untimely(DescMap(StartingSection()), StartAll(StartingSection(), before, OnlyStartFails(1)).0.trace, k, 2)
  {
    hide StartAll, OnlyStartFails, Untimely, TableOk, Acyclic, DescMap, Collect;
    StartingTable();
    DescendingIsAcyclic(DescMap(StartingSection()));
    k := FailingStartIsUntimely(StartingSection(), before, 1, 2);
  }

  // ----- failing start-ups in two link orders

  /** Every callback succeeds, except the init of component 1. */
  function OnlyFirstInitFails(): Callbacks {
    (trace, op, id) => if op == Init && id == 1 then ErrIo else Ok
  }

  /** 2 (optional) depends on 1, 3 (required) on 2, and 4 on nothing. */
  function SampleDescs(): map<nat, Desc> {
    map[1 := Sample(1, OPTIONAL, [], false), 2 := Sample(2, OPTIONAL, [1], false),
        3 := Sample(3, REQUIRED, [2], false), 4 := Sample(4, OPTIONAL, [], false)]
  }

  function Listed(order: seq<nat>): seq<Desc>
    requires forall id :: id in order ==> id in SampleDescs()
  {
    seq(|order|, i requires 0 <= i < |order| => SampleDescs()[order[i]])
  }

  function Ascending(): Table { Table(SampleDescs(), [1, 2, 3, 4]) }

  function Swapped(): Table { Table(SampleDescs(), [1, 3, 2, 4]) }

  function NewRecord(): Runtime { Runtime(Discovered, Ok, false, false) }

  function FirstEngine(): Engine {
    Engine(map[1 := NewRecord(), 2 := NewRecord(), 3 := NewRecord(), 4 := NewRecord()], [], [], [])
  }

  /** 1 has failed. */
  function SecondEngine(): Engine {
    Engine(FirstEngine().rt[1 := Runtime(Failed, ErrIo, false, false)], [], [], [Call(Init, 1, true, ErrIo)])
  }

  lemma FirstRecords()
    ensures FirstEngine().rt.Keys == SampleDescs().Keys && forall id :: id in FirstEngine().rt ==> FirstEngine().rt[id] == NewRecord()
  {
  }

  lemma SampleKnown(id: nat)
    requires id in SampleDescs()
    ensures SampleDescs()[id].id == id && DepsKnown(SampleDescs(), SampleDescs()[id])
  {
  }

  lemma FirstShape(t: Table)
    requires t.descs == SampleDescs() && Linked(t)
    ensures Sized(t, FirstEngine()) && Tidy(FirstEngine().rt) && NoneDown(FirstEngine().rt)
    ensures forall id :: id in t.descs ==> DepsKnown(t.descs, t.descs[id])
  {
    hide SampleDescs, DepsKnown, Linked;
    FirstRecords();
    forall id | id in t.descs
      ensures t.descs[id].id == id && DepsKnown(t.descs, t.descs[id])
    {
      SampleKnown(id);
    }
  }

  lemma FirstInit()
    ensures 1 in SampleDescs() && 1 in FirstEngine().rt && SampleDescs()[1].id == 1
    ensures InitializeComponent(FirstEngine(), SampleDescs()[1], OnlyFirstInitFails()) == (SecondEngine(), Done)
  {
    var call := Invoke(FirstEngine(), SampleDescs()[1], Init, OnlyFirstInitFails());
    assert call == Call(Init, 1, true, ErrIo) && [] + [call] == [call];
    assert SecondEngine().rt == SetState(FirstEngine().rt, 1, Failed, ErrIo);
  }

  /** The first round only initialises 1, in any order. */
  lemma FirstRound(t: Table)
    requires t.descs == SampleDescs() && Linked(t)
    ensures Sized(t, FirstEngine()) && Tidy(FirstEngine().rt)
    ensures PhaseRound(t, FirstEngine(), 0, OnlyFirstInitFails()) == Again(SecondEngine())
    ensures Sized(t, SecondEngine()) && Tidy(SecondEngine().rt)
  {
    hide FirstEngine, SecondEngine, SampleDescs, OnlyFirstInitFails, PhaseRound, ScanFrom, InitializeComponent, Tidy, NoneDown,
         IsLeast, ReadySet, OnlySkips;
    FirstShape(t);
    var e := FirstEngine();
    FirstIsLeast(t, e);
    FirstInit();
    SoundScan(t.descs, t.order, e.rt, 0, 0, false, None);
    assert e.(rt := FullScan(t, e, 0).rt) == e;
    ActiveRound(t, e, 0, OnlyFirstInitFails(), 1);
  }

  lemma FirstIsLeast(t: Table, e: Engine)
    requires t.descs == SampleDescs() && e == FirstEngine()
    ensures e.rt.Keys == t.descs.Keys && IsLeast(Some(1), ReadySet(t.descs, e.rt, 0))
  {
  }

  /** In ascending order the second scan skips 2 and is refused at 3. */
  lemma AscendingScan()
    ensures var e := SecondEngine();
            e.rt.Keys == SampleDescs().Keys && ScanFrom(SampleDescs(), [1, 2, 3, 4], e.rt, 0, 0, false, None).ScanRefused?
  {
    var (descs, rt) := (SampleDescs(), SecondEngine().rt);
    var rt2 := SetState(rt, 2, Skipped, ErrDependency);
    assert CheckDeps(rt, [1], false) == DepFailed && CheckDeps(rt2, [2], false) == DepFailed;
    assert [1, 2, 3, 4][1..] == [2, 3, 4] && [2, 3, 4][1..] == [3, 4];
    assert ScanFrom(descs, [3, 4], rt2, 0, 1, true, None).ScanRefused?;
    assert ScanFrom(descs, [2, 3, 4], rt, 0, 0, false, None) == ScanFrom(descs, [3, 4], rt2, 0, 1, true, None);
  }

  /** With 3 before 2 it finds 3 still waiting, and goes on to initialise 4. */
  lemma SwappedScan()
    ensures var e := SecondEngine();
            && e.rt.Keys == SampleDescs().Keys
            && ScanFrom(SampleDescs(), [1, 3, 2, 4], e.rt, 0, 0, false, None)
               == ScanDone(SetState(e.rt, 2, Skipped, ErrDependency), 3, true, Some(4))
  {
    var (descs, rt) := (SampleDescs(), SecondEngine().rt);
    var rt2 := SetState(rt, 2, Skipped, ErrDependency);
    assert CheckDeps(rt, [1], false) == DepFailed;
    assert CheckDeps(rt, [2], false) == Waiting && CheckDeps(rt2, [], false) == Ready;
    assert [1, 3, 2, 4][1..] == [3, 2, 4] && [3, 2, 4][1..] == [2, 4] && [2, 4][1..] == [4] && [4][1..] == [];
    assert ScanFrom(descs, [4], rt2, 0, 2, true, None) == ScanDone(rt2, 3, true, Some(4));
    assert ScanFrom(descs, [2, 4], rt, 0, 1, false, None) == ScanFrom(descs, [4], rt2, 0, 2, true, None);
    assert ScanFrom(descs, [3, 2, 4], rt, 0, 0, false, None) == ScanFrom(descs, [2, 4], rt, 0, 1, false, None);
  }

  /** In ascending order the phase ends in the second round, with one call made. */
  lemma AscendingPhase()
    ensures var t := Ascending();
            && Linked(t) && Sized(t, FirstEngine()) && Tidy(FirstEngine().rt)
            && var (e, outcome) := InitializePhase(t, FirstEngine(), 0, OnlyFirstInitFails());
            outcome.RequiredSkipped? && e == SecondEngine().(rt := e.rt)
  {
    var t := Ascending();
    assert Linked(t);
    hide FirstEngine, SecondEngine, SampleDescs, OnlyFirstInitFails, ScanFrom, InitializeComponent, Tidy, Linked, OnlySkips;
    FirstRound(t);
    AscendingScan();
    assert FullScan(t, SecondEngine(), 0).ScanRefused?;
    var r := PhaseRound(t, SecondEngine(), 0, OnlyFirstInitFails());
    assert r.Finished? && r.outcome.RequiredSkipped?;
    assert InitializePhase(t, SecondEngine(), 0, OnlyFirstInitFails()) == (r.e, r.outcome);
  }

  lemma {:induction false} FourthInit(rt: map<nat, Runtime>)
    requires 4 in rt
    ensures 4 in SampleDescs() && SampleDescs()[4].id == 4
    ensures |InitializeComponent(SecondEngine().(rt := rt), SampleDescs()[4], OnlyFirstInitFails()).0.trace| == 2
    ensures InitializeComponent(SecondEngine().(rt := rt), SampleDescs()[4], OnlyFirstInitFails()).1.Done?
  {
  }

  lemma RoundExtends(t: Table, e: Engine, phase: nat, cb: Callbacks)
    requires Linked(t) && Sized(t, e) && Tidy(e.rt)
    ensures e.trace <= PhaseRound(t, e, phase, cb).e.trace
  {
    hide ScanFrom, Tidy, OnlySkips;
    FullScanFacts(t, e, phase);
  }

  lemma {:induction false} PhaseExtends(t: Table, e: Engine, phase: nat, cb: Callbacks)
    requires Linked(t) && Sized(t, e) && Tidy(e.rt)
    ensures e.trace <= InitializePhase(t, e, phase, cb).0.trace
    decreases |Pending(t.descs, e.rt, phase)|
  {
    hide PhaseRound, Tidy, Linked;
    RoundExtends(t, e, phase, cb);
    var r := PhaseRound(t, e, phase, cb);
    if r.Again? {
      PhaseExtends(t, r.e, phase, cb);
    }
  }

  /** With 3 before 2 the phase makes at least two calls. */
  lemma SwappedPhase()
    ensures var t := Swapped();
            && Linked(t) && Sized(t, FirstEngine()) && Tidy(FirstEngine().rt)
            && |InitializePhase(t, FirstEngine(), 0, OnlyFirstInitFails()).0.trace| >= 2
  {
    var (t, cb) := (Swapped(), OnlyFirstInitFails());
    assert Linked(t);
    hide FirstEngine, SecondEngine, SampleDescs, OnlyFirstInitFails, ScanFrom, InitializeComponent, Tidy, Linked, OnlySkips;
    FirstRound(t);
    SwappedScan();
    var e := SecondEngine();
    FullScanFacts(t, e, 0);
    FourthInit(FullScan(t, e, 0).rt);
    var r := PhaseRound(t, e, 0, cb);
    assert r.Again? && |r.e.trace| == 2;
    PhaseExtends(t, r.e, 0, cb);
  }

  lemma {:induction false} InitsExtend(t: Table, e: Engine, phase: nat, cb: Callbacks)
    requires phase <= PHASE_COUNT && Linked(t) && Sized(t, e) && Tidy(e.rt)
    ensures e.trace <= InitializeFrom(t, e, phase, cb).0.trace
    decreases PHASE_COUNT - phase
  {
    hide InitializePhase, Tidy, Linked;
    if phase < PHASE_COUNT {
      PhaseExtends(t, e, phase, cb);
      var (e1, outcome) := InitializePhase(t, e, phase, cb);
      if outcome.Done? {
        InitsExtend(t, e1, phase + 1, cb);
      }
    }
  }

  /** Whatever a launch does after its first phase only adds calls. */
  lemma LaunchExtends(t: Table, e: Engine, cb: Callbacks)
    requires Linked(t) && Sized(t, e) && Tidy(e.rt) && LaunchReady(t, e)
    ensures InitializePhase(t, e, 0, cb).0.trace <= Launch(t, e, cb).0.trace
  {
    hide InitStage, InitializePhase, StartFrom, Rollback, Core, NoneLost, ResolvedBelow, ValidTable, StartStage, Tidy, Linked,
         EarlyOnlyLeaves;
    InitializeKeepsStage(t, e, 0, cb);
    if InitializePhase(t, e, 0, cb).1.Done? {
      InitsExtend(t, InitializePhase(t, e, 0, cb).0, 1, cb);
    }
    var (e1, outcome) := InitializeFrom(t, e, 0, cb);
    InitStageIsCore(t, e1);
    CoreOrder(t, e1);
    RollbackKeepsLeaves(t, e1, cb);
    if outcome.Done? {
      StartReady(t, e1);
      StartsExtend(t, e1, 0, cb);
      StartsKeepStage(t, e1, 0, cb);
      var e2 := StartFrom(t, e1, 0, cb).0;
      CoreOrder(t, e2);
      RollbackKeepsLeaves(t, e2, cb);
    }
  }

  function AscendingSection(): seq<Desc> {
    [SampleDescs()[1], SampleDescs()[2], SampleDescs()[3], SampleDescs()[4]]
  }

  function SwappedSection(): seq<Desc> {
    [SampleDescs()[1], SampleDescs()[3], SampleDescs()[2], SampleDescs()[4]]
  }

  lemma {:induction false} AllCollected(section: seq<Desc>)
    requires forall d :: d in section ==> d.hasInit
    ensures Collect(section) == section
  {
    if section != [] {
      AllCollected(section[1..]);
      assert section == [section[0]] + section[1..];
    }
  }

  lemma SwapTwo(a: Desc, b: Desc, c: Desc, d: Desc)
    ensures multiset([a, b, c, d]) == multiset([a, c, b, d])
  {
  }

  lemma IdsOfFour(a: Desc, b: Desc, c: Desc, d: Desc)
    ensures Ids([a, b, c, d]) == [a.id, b.id, c.id, d.id]
  {
  }

  lemma FourDistinct(a: nat, b: nat, c: nat, d: nat)
    requires a != b && a != c && a != d && b != c && b != d && c != d
    ensures Distinct([a, b, c, d])
  {
    var s := [a, b, c, d];
    assert s[..1] == [a] && s[..2] == [a, b] && s[..3] == [a, b, c];
  }

  lemma SampleEntries()
    ensures 1 in SampleDescs() && 2 in SampleDescs() && 3 in SampleDescs() && 4 in SampleDescs()
    ensures forall id :: id in SampleDescs() ==> SampleDescs()[id].hasInit && SampleDescs()[id].id == id && WellFormed(SampleDescs()[id])
    ensures var descs := SampleDescs();
            descs[1].deps == descs[4].deps == [] && descs[2].deps == [1] && descs[3].deps == [2]
    ensures forall id :: id in SampleDescs() ==> SampleDescs()[id].phase == 0
  {
  }

  lemma Permuted()
    ensures multiset(AscendingSection()) == multiset(SwappedSection())
    ensures Collect(AscendingSection()) == AscendingSection() && Collect(SwappedSection()) == SwappedSection()
    ensures Ids(AscendingSection()) == [1, 2, 3, 4] && Ids(SwappedSection()) == [1, 3, 2, 4]
  {
    hide Collect, SampleDescs;
    var descs := SampleDescs();
    SampleEntries();
    SwapTwo(descs[1], descs[2], descs[3], descs[4]);
    AllCollected(AscendingSection());
    AllCollected(SwappedSection());
    IdsOfFour(descs[1], descs[2], descs[3], descs[4]);
    IdsOfFour(descs[1], descs[3], descs[2], descs[4]);
  }

  lemma KnownTarget(ds: seq<Desc>, i: nat, d: Desc)
    requires i < |ds| && d.deps == [ds[i].id] && ds[i].phase <= d.phase
    ensures TargetsKnown(ds, d)
  {
    assert ds[i] in ds;
    assert Target(ds, ds[i].id, d.phase);
  }

  /** A chain of three dependencies, and one component on its own. */
  lemma ChainOk(a: Desc, b: Desc, c: Desc, d: Desc)
    requires WellFormed(a) && WellFormed(b) && WellFormed(c) && WellFormed(d)
    requires a.phase == b.phase == c.phase && Distinct([a.id, b.id, c.id, d.id])
    requires a.deps == d.deps == [] && b.deps == [a.id] && c.deps == [b.id]
    ensures TableOk([a, b, c, d])
  {
    hide WellFormed, Distinct, Target;
    IdsOfFour(a, b, c, d);
    KnownTarget([a, b, c, d], 0, b);
    KnownTarget([a, b, c, d], 1, c);
  }

  lemma AscendingOk()
    ensures TableOk(AscendingSection())
  {
    hide SampleDescs, WellFormed, Distinct, TableOk;
    var descs := SampleDescs();
    SampleEntries();
    FourDistinct(1, 2, 3, 4);
    ChainOk(descs[1], descs[2], descs[3], descs[4]);
  }

  lemma AscendingMap()
    ensures DescMap(AscendingSection()) == SampleDescs()
  {
    var ds, descs := AscendingSection(), SampleDescs();
    assert ds[1..] == [descs[2], descs[3], descs[4]] && ds[1..][1..] == [descs[3], descs[4]];
    assert ds[1..][1..][1..] == [descs[4]] && ds[1..][1..][1..][1..] == [];
    assert DescMap([]) == map[] && DescMap([descs[4]]) == map[4 := descs[4]];
  }

  lemma BothTables()
    ensures TableOk(AscendingSection()) && TableOk(SwappedSection())
    ensures TableOf(AscendingSection()) == Ascending() && Discover(AscendingSection()) == FirstEngine()
    ensures TableOf(SwappedSection()) == Swapped() && Discover(SwappedSection()) == FirstEngine()
  {
    hide TableOk, DescMap, Collect, AscendingSection, SwappedSection;
    Permuted();
    AscendingOk();
    AscendingMap();
    SamePermutes(AscendingSection(), SwappedSection());
    assert FirstEngine().rt == map id | id in SampleDescs() :: NewRecord();
  }

  /** The same descriptors and the same callbacks, but one link order makes more calls than the other. */
  lemma FailingStartsDiffer(before: Engine)
    ensures multiset(AscendingSection()) == multiset(SwappedSection())
    ensures var cb := OnlyFirstInitFails();
            StartAll(AscendingSection(), before, cb).0.trace != StartAll(SwappedSection(), before, cb).0.trace
  {
    hide StartAll, OnlyFirstInitFails, TableOk, InitializePhase, Tidy, FirstEngine, SampleDescs, Discover, DescMap, Collect,
         LaunchReady, Linked;
    var cb := OnlyFirstInitFails();
    Permuted();
    BothTables();
    StartAllIsLaunch(AscendingSection(), before, cb);
    StartAllIsLaunch(SwappedSection(), before, cb);
    AscendingPhase();
    SwappedPhase();
    LaunchExtends(Swapped(), FirstEngine(), cb);
    assert |Launch(Ascending(), FirstEngine(), cb).0.trace| == 1;
  }

  // ----- a cycle that is skipped

  /** 2 depends on 1 and on 3, and 3 on 2; all are optional. */
  function CyclicSection(): seq<Desc> {
    [Sample(1, OPTIONAL, [], false), Sample(2, OPTIONAL, [1, 3], false), Sample(3, OPTIONAL, [2], false)]
  }

  function CyclicTable(): Table {
    Table(map[1 := Sample(1, OPTIONAL, [], false), 2 := Sample(2, OPTIONAL, [1, 3], false),
              3 := Sample(3, OPTIONAL, [2], false)], [1, 2, 3])
  }

  function CyclicStart(): Engine {
    Engine(map[1 := NewRecord(), 2 := NewRecord(), 3 := NewRecord()], [], [], [])
  }

  /** 1 has failed. */
  function CyclicSecond(): Engine {
    Engine(CyclicStart().rt[1 := Runtime(Failed, ErrIo, false, false)], [], [], [Call(Init, 1, true, ErrIo)])
  }

  function GivenUp(): Runtime { Runtime(Skipped, ErrDependency, false, false) }

  function CyclicThird(): Engine {
    CyclicSecond().(rt := CyclicSecond().rt[2 := GivenUp()][3 := GivenUp()])
  }

  lemma CyclicLinked()
    ensures Linked(CyclicTable()) && Sized(CyclicTable(), CyclicStart()) && Tidy(CyclicStart().rt)
  {
  }

  lemma CyclicFirstScan()
    ensures ScanFrom(CyclicTable().descs, [1, 2, 3], CyclicStart().rt, 0, 0, false, None)
         == ScanDone(CyclicStart().rt, 3, false, Some(1))
  {
    var (descs, rt) := (CyclicTable().descs, CyclicStart().rt);
    assert [1, 2, 3][1..] == [2, 3] && [2, 3][1..] == [3] && [3][1..] == [];
    assert CheckDeps(rt, [], false) == Ready && CheckDeps(rt, [1, 3], false) == Waiting && CheckDeps(rt, [2], false) == Waiting;
    assert ScanFrom(descs, [3], rt, 0, 2, false, Some(1)) == ScanDone(rt, 3, false, Some(1));
    assert ScanFrom(descs, [2, 3], rt, 0, 1, false, Some(1)) == ScanFrom(descs, [3], rt, 0, 2, false, Some(1));
  }

  lemma CyclicSecondScan()
    ensures ScanFrom(CyclicTable().descs, [1, 2, 3], CyclicSecond().rt, 0, 0, false, None)
         == ScanDone(CyclicThird().rt, 2, true, None)
  {
    var (descs, rt) := (CyclicTable().descs, CyclicSecond().rt);
    var rt2 := SetState(rt, 2, Skipped, ErrDependency);
    assert [1, 2, 3][1..] == [2, 3] && [2, 3][1..] == [3] && [3][1..] == [];
    assert CheckDeps(rt, [1, 3], false) == DepFailed && CheckDeps(rt2, [2], false) == DepFailed;
    assert SetState(rt2, 3, Skipped, ErrDependency) == CyclicThird().rt;
    assert ScanFrom(descs, [3], rt2, 0, 1, true, None) == ScanDone(CyclicThird().rt, 2, true, None);
    assert ScanFrom(descs, [2, 3], rt, 0, 0, false, None) == ScanFrom(descs, [3], rt2, 0, 1, true, None);
  }

  lemma {:induction false} IdleScan(descs: map<nat, Desc>, order: seq<nat>, rt: map<nat, Runtime>, phase: nat,
                                    pending: nat, skipped: bool, candidate: Option<nat>)
    requires rt.Keys == descs.Keys && (forall id :: id in order ==> id in descs) && Pending(descs, rt, phase) == {}
    ensures ScanFrom(descs, order, rt, phase, pending, skipped, candidate) == ScanDone(rt, pending, skipped, candidate)
  {
    if order != [] {
      assert order[0] !in Pending(descs, rt, phase);
      IdleScan(descs, order[1..], rt, phase, pending, skipped, candidate);
    }
  }

  lemma NothingPending(t: Table, e: Engine, phase: nat, cb: Callbacks)
    requires Linked(t) && Sized(t, e) && Tidy(e.rt) && Pending(t.descs, e.rt, phase) == {}
    ensures InitializePhase(t, e, phase, cb) == (e, Done)
  {
    hide ScanFrom, Tidy, InitializeComponent;
    IdleScan(t.descs, t.order, e.rt, phase, 0, false, None);
    assert PhaseRound(t, e, phase, cb) == Finished(e, Done);
  }

  lemma CyclicRounds()
    ensures var (t, cb) := (CyclicTable(), OnlyFirstInitFails());
            && Linked(t) && Sized(t, CyclicStart()) && Tidy(CyclicStart().rt)
            && Sized(t, CyclicThird()) && Tidy(CyclicThird().rt)
            && InitializePhase(t, CyclicStart(), 0, cb) == InitializePhase(t, CyclicThird(), 0, cb)
  {
    hide CyclicTable, CyclicStart, CyclicSecond, CyclicThird, OnlyFirstInitFails, ScanFrom, InitializeComponent, Tidy, Linked,
         Pending;
    var (t, cb) := (CyclicTable(), OnlyFirstInitFails());
    CyclicLinked();
    CyclicFirstScan();
    CyclicSecondScan();
    CyclicInit();
    assert PhaseRound(t, CyclicStart(), 0, cb) == Again(CyclicSecond());
    assert CyclicSecond().(rt := CyclicThird().rt) == CyclicThird();
    assert PhaseRound(t, CyclicSecond(), 0, cb) == Again(CyclicThird());
  }

  lemma CyclicInit()
    ensures CyclicTable().order == [1, 2, 3] && 1 in CyclicTable().descs && CyclicTable().descs[1].id == 1
    ensures 1 in CyclicStart().rt && CyclicStart().(rt := CyclicStart().rt) == CyclicStart()
    ensures InitializeComponent(CyclicStart(), CyclicTable().descs[1], OnlyFirstInitFails()) == (CyclicSecond(), Done)
    ensures CyclicSecond().(rt := CyclicThird().rt) == CyclicThird()
  {
    var call := Invoke(CyclicStart(), CyclicTable().descs[1], Init, OnlyFirstInitFails());
    assert call == Call(Init, 1, true, ErrIo) && [] + [call] == [call];
    assert CyclicSecond().rt == SetState(CyclicStart().rt, 1, Failed, ErrIo);
  }

  lemma CyclicQuiet(phase: nat)
    ensures CyclicThird().rt.Keys == CyclicTable().descs.Keys
    ensures Pending(CyclicTable().descs, CyclicThird().rt, phase) == {}
  {
  }

  lemma CyclicLaunch()
    ensures var (t, e) := (CyclicTable(), CyclicStart());
            && Linked(t) && Sized(t, e) && Tidy(e.rt)
            && Launch(t, e, OnlyFirstInitFails()) == (CyclicThird(), Done)
  {
    hide CyclicTable, CyclicStart, OnlyFirstInitFails, InitializePhase, Tidy, Linked, Sized, Pending;
    var (t, cb) := (CyclicTable(), OnlyFirstInitFails());
    CyclicRounds();
    forall phase: nat
      ensures InitializePhase(t, CyclicThird(), phase, cb) == (CyclicThird(), Done)
    {
      CyclicQuiet(phase);
      NothingPending(t, CyclicThird(), phase, cb);
    }
    var e := CyclicThird();
    assert InitializeFrom(t, e, 3, cb) == (e, Done);
    assert InitializeFrom(t, e, 2, cb) == (e, Done);
    assert InitializeFrom(t, e, 1, cb) == (e, Done);
    assert InitializeFrom(t, CyclicStart(), 0, cb) == (e, Done);
  }

  lemma CyclicDescs()
    ensures Collect(CyclicSection()) == CyclicSection() && DescMap(CyclicSection()) == CyclicTable().descs
  {
    var (ds, descs) := (CyclicSection(), CyclicTable().descs);
    AllCollected(ds);
    assert ds[1..] == [descs[2], descs[3]] && ds[1..][1..] == [descs[3]] && ds[1..][1..][1..] == [];
    assert DescMap(ds[1..][1..][1..]) == map[] && DescMap(ds[1..][1..]) == map[3 := descs[3]];
    assert DescMap(ds[1..]) == map[3 := descs[3], 2 := descs[2]];
  }

  lemma CyclicIds()
    ensures Ids(CyclicSection()) == [1, 2, 3]
  {
  }

  lemma CyclicMap()
    ensures Collect(CyclicSection()) == CyclicSection() && TableOf(CyclicSection()) == CyclicTable()
    ensures Discover(CyclicSection()) == CyclicStart()
  {
    hide Collect, DescMap, CyclicSection;
    CyclicDescs();
    CyclicIds();
    assert CyclicTable().order == [1, 2, 3];
    assert CyclicStart().rt == map id | id in CyclicTable().descs :: NewRecord();
  }

  lemma CyclicOk()
    ensures TableOk(CyclicSection())
  {
    hide Ids, Collect, DescMap;
    var ds := CyclicSection();
    CyclicIds();
    assert [1, 2, 3][..1] == [1] && [1, 2, 3][..2] == [1, 2];
    assert ds[0] in ds && ds[1] in ds && ds[2] in ds;
    assert Target(ds, 1, 0) && Target(ds, 2, 0) && Target(ds, 3, 0);
  }

  lemma CyclicIsCyclic()
    ensures !Acyclic(CyclicTable().descs)
  {
    var descs := CyclicTable().descs;
    assert DependsOn(descs, 2, 3) && DependsOn(descs, 3, 2);
    assert CycleIn(descs, descs.Keys, [2, 3, 2]);
  }

  lemma CyclicEnd()
    ensures var rt := CyclicThird().rt; 2 in rt && rt[2].state.Skipped? && 3 in rt && rt[3].state.Skipped?
  {
  }

  /** The start succeeds although 2 and 3 form a cycle: 2 looks at 1 first, and the failure of 1 spreads to both. */
  lemma CycleCanBeSkipped(before: Engine)
    ensures TableOk(Collect(CyclicSection())) && !Acyclic(TableOf(Collect(CyclicSection())).descs)
    ensures var (e, code) := StartAll(CyclicSection(), before, OnlyFirstInitFails());
            code == Ok && 2 in e.rt && e.rt[2].state.Skipped? && 3 in e.rt && e.rt[3].state.Skipped?
  {
    hide StartAll, TableOk, Launch, DescMap, Discover, Collect, OnlyFirstInitFails, Linked, Sized, Tidy, Acyclic, CyclicTable,
         CyclicThird;
    CyclicMap();
    CyclicOk();
    CyclicIsCyclic();
    StartAllIsLaunch(CyclicSection(), before, OnlyFirstInitFails());
    CyclicLaunch();
    CyclicEnd();
  }
}
