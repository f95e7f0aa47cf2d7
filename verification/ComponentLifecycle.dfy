/** Whole traces of lifecycle calls: every run of the engine pairs init with deinit and start with stop,
    respects the dependency order in both directions, and starts what it promises to start. */
module ComponentLifecycle {
  import opened SysTypes
  import opened ComponentModel

  // ----- the life of one component, read off the trace

  datatype Life = Fresh | Refused | Live | Up | Faulted | Down | Gone | Broken

  function Next(l: Life, c: Call): Life {
    match (l, c.op)
    case (Fresh, Init) => if c.result == Ok then Live else Refused
    case (Live, Start) => if c.result == Ok then Up else Faulted
    case (Up, Stop) => Down
    case (Live, Deinit) => Gone
    case (Faulted, Deinit) => Gone
    case (Down, Deinit) => Gone
    case (Live, EarlyDeinit) => Gone
    case (Faulted, EarlyDeinit) => Gone
    case _ => Broken
  }

  function LifeOf(trace: seq<Call>, id: nat): Life {
    if trace == [] then Fresh
    else
      var c := trace[|trace| - 1];
      var before := LifeOf(trace[..|trace| - 1], id);
      if c.id == id then Next(before, c) else before
  }

  type Lives = map<nat, Life>

  function LivesAfter(descs: map<nat, Desc>, trace: seq<Call>): Lives {
    map id | id in descs :: LifeOf(trace, id)
  }

  function Advance(life: Lives, c: Call): Lives
    requires c.id in life
  {
    life[c.id := Next(life[c.id], c)]
  }

  /** Initialised and not yet deinitialised. */
  predicate Holds(l: Life) {
    l.Live? || l.Up? || l.Faulted? || l.Down?
  }

  predicate Over(l: Life) {
    l.Fresh? || l.Refused? || l.Gone?
  }

  /** The dependency discipline, call by call: may `c` be made when the components' lives are `life`? */
  ghost predicate Allowed(descs: map<nat, Desc>, life: Lives, c: Call) {
    && c.id in descs && life.Keys == descs.Keys
    && c.hooked == Hook(descs[c.id], c.op)
    && (!c.hooked ==> c.result == Ok)
    && !Next(life[c.id], c).Broken?
    && match c.op
       case Init => forall d :: d in descs[c.id].deps ==> d in life && life[d].Live?
       case Start => forall d :: d in descs[c.id].deps ==> d in life && life[d].Up?
       case Stop => forall x :: x in descs && c.id in descs[x].deps ==> !life[x].Up?
       case Deinit => forall x :: x in descs && c.id in descs[x].deps ==> !Holds(life[x])
       case EarlyDeinit => !descs[c.id].Required()
  }

  /** Every call of the trace was allowed at the moment it was made. */
  ghost predicate WellOrdered(descs: map<nat, Desc>, trace: seq<Call>) {
    forall k :: 0 <= k < |trace| ==> Allowed(descs, LivesAfter(descs, trace[..k]), trace[k])
  }

  lemma {:induction false} AppendCall(descs: map<nat, Desc>, trace: seq<Call>, c: Call)
    requires WellOrdered(descs, trace) && Allowed(descs, LivesAfter(descs, trace), c)
    ensures WellOrdered(descs, trace + [c])
    ensures LivesAfter(descs, trace + [c]) == Advance(LivesAfter(descs, trace), c)
  {
    var longer := trace + [c];
    assert longer[..|trace|] == trace;
    forall k | 0 <= k < |longer|
      ensures Allowed(descs, LivesAfter(descs, longer[..k]), longer[k])
    {
      if k < |trace| {
        assert longer[..k] == trace[..k];
      }
    }
  }

  // ----- tables and orders

  /** What validation guarantees about a table. */
  ghost predicate ValidTable(t: Table) {
    && Distinct(t.order) && Linked(t)
    && (forall id :: id in t.descs ==>
          t.descs[id].id == id && t.descs[id].phase < PHASE_COUNT && DepsKnown(t.descs, t.descs[id]))
  }

  ghost predicate DepsKnown(descs: map<nat, Desc>, d: Desc) {
    forall x :: x in d.deps ==> x in descs && descs[x].phase <= d.phase
  }

  /** Every listed component comes after all its dependencies. */
  ghost predicate DependenciesFirst(descs: map<nat, Desc>, s: seq<nat>) {
    forall k :: 0 <= k < |s| ==> DepsWithin(descs, s[k], s[..k])
  }

  ghost predicate DepsWithin(descs: map<nat, Desc>, id: nat, s: seq<nat>) {
    id in descs && forall d :: d in descs[id].deps ==> d in s
  }

  lemma {:induction false} DependenciesFirstSnoc(descs: map<nat, Desc>, s: seq<nat>, id: nat)
    requires DependenciesFirst(descs, s) && id in descs
    requires forall d :: d in descs[id].deps ==> d in s
    ensures DependenciesFirst(descs, s + [id])
  {
    var s' := s + [id];
    forall k | 0 <= k < |s'|
      ensures DepsWithin(descs, s'[k], s'[..k])
    {
      assert s'[..k] == s[..k];
    }
  }

  lemma {:induction false} DependenciesFirstPrefix(descs: map<nat, Desc>, s: seq<nat>, n: nat)
    requires DependenciesFirst(descs, s) && n <= |s|
    ensures DependenciesFirst(descs, s[..n])
  {
    forall k | 0 <= k < n
      ensures DepsWithin(descs, s[..n][k], s[..n][..k])
    {
      assert s[..n][..k] == s[..k];
    }
  }

  /** Nothing listed up to position `n` depends on the entry at `n`, not even that entry itself. */
  lemma {:induction false} NothingDependsOnLast(descs: map<nat, Desc>, s: seq<nat>, n: nat)
    requires Distinct(s) && DependenciesFirst(descs, s) && n < |s|
    ensures forall x :: x in s[..n + 1] && x in descs ==> s[n] !in descs[x].deps
  {
    forall x | x in s[..n + 1] && x in descs
      ensures s[n] !in descs[x].deps
    {
      var k :| 0 <= k <= n && s[k] == x;
      assert DepsWithin(descs, s[k], s[..k]);
      assert s[n] !in s[..k];
    }
  }

  // ----- the invariant of the engine, over records, orders and lives

  /** The states a component may have while it is up, only initialised, or neither. */
  predicate StateFits(r: Runtime) {
    if r.started then r.state.Running?
    else if r.initialized then r.state.Initialized? || r.state.Stopped? || r.state.Failed? || r.state.Skipped?
    else r.state.Discovered? || r.state.Failed? || r.state.Skipped? || r.state.Stopped?
  }

  ghost predicate RecordMatches(r: Runtime, l: Life) {
    && StateFits(r)
    && if r.started then r.initialized && l.Up?
       else if r.initialized then l.Live? || l.Faulted? || l.Down?
       else Over(l)
  }

  ghost predicate Orders(t: Table, e: Engine) {
    && Distinct(e.initOrder) && Distinct(e.startOrder)
    && DependenciesFirst(t.descs, e.initOrder) && DependenciesFirst(t.descs, e.startOrder)
  }

  ghost predicate Flags(t: Table, e: Engine, life: Lives)
    requires Sized(t, e) && life.Keys == t.descs.Keys
  {
    && (forall id :: id in t.descs && e.rt[id].initialized ==> id in e.initOrder)
    && (forall id :: id in t.descs ==> (e.rt[id].started <==> id in e.startOrder))
    && (forall id :: id in t.descs ==> RecordMatches(e.rt[id], life[id]))
  }

  ghost predicate Core(t: Table, e: Engine) {
    && Sized(t, e) && Orders(t, e)
    && Flags(t, e, LivesAfter(t.descs, e.trace))
    && WellOrdered(t.descs, e.trace)
  }

  /** Both order arrays stay within the bound of the component table. */
  lemma OrdersFit(t: Table, e: Engine)
    requires ValidTable(t) && Core(t, e) && |t.order| <= MAX_COMPONENTS
    ensures |e.initOrder| <= MAX_COMPONENTS && |e.startOrder| <= MAX_COMPONENTS
  {
    ElemsSize(t.order);
    assert t.descs.Keys == Elems(t.order);
    DistinctFits(e.initOrder, t.descs.Keys);
    DistinctFits(e.startOrder, t.descs.Keys);
  }

  // ----- the init stage

  ghost predicate InitRecord(r: Runtime, l: Life) {
    && !r.started
    && match r.state
       case Discovered => r == Runtime(Discovered, Ok, false, false) && l.Fresh?
       case Skipped => r == Runtime(Skipped, ErrDependency, false, false) && l.Fresh?
       case Initialized => r.initialized && l.Live?
       case Failed => !r.initialized && l.Refused?
       case _ => false
  }

  ghost predicate InitFlags(t: Table, e: Engine, life: Lives)
    requires Sized(t, e) && life.Keys == t.descs.Keys
  {
    && e.startOrder == []
    && (forall id :: id in t.descs ==> (e.rt[id].initialized <==> id in e.initOrder))
    && (forall id :: id in t.descs ==> InitRecord(e.rt[id], life[id]))
  }

  ghost predicate InitStage(t: Table, e: Engine) {
    && Sized(t, e) && Orders(t, e)
    && InitFlags(t, e, LivesAfter(t.descs, e.trace))
    && WellOrdered(t.descs, e.trace)
  }

  lemma InitStageTidy(t: Table, e: Engine)
    requires InitStage(t, e)
    ensures Sized(t, e) && Tidy(e.rt)
  {
  }

  /** No required component is lost. */
  ghost predicate NoneLost(t: Table, e: Engine)
    requires Sized(t, e)
  {
    forall id :: id in t.descs && t.descs[id].Required() ==> !e.rt[id].state.Failed? && !e.rt[id].state.Skipped?
  }

  /** No component of a phase below `phase` is unresolved. */
  ghost predicate ResolvedBelow(t: Table, e: Engine, phase: nat)
    requires Sized(t, e)
  {
    forall id :: id in t.descs && t.descs[id].phase < phase ==> !e.rt[id].state.Discovered?
  }

  /** The maps differ at one component at most. */
  ghost predicate ChangedAt<T(!new)>(m: map<nat, T>, m': map<nat, T>, id: nat) {
    id in m && m'.Keys == m.Keys && forall x :: x in m && x != id ==> m'[x] == m[x]
  }

  /** Only the record, the life and the order entry of one component change. */
  lemma {:induction false} InitFrame(t: Table, e: Engine, e': Engine, life: Lives, life': Lives, id: nat)
    requires Sized(t, e) && Sized(t, e') && life.Keys == t.descs.Keys
    requires InitFlags(t, e, life) && id in t.descs && !e.rt[id].initialized
    requires ChangedAt(e.rt, e'.rt, id) && ChangedAt(life, life', id)
    requires InitRecord(e'.rt[id], life'[id])
    requires e'.startOrder == [] && e'.initOrder == if e'.rt[id].initialized then e.initOrder + [id] else e.initOrder
    ensures life'.Keys == t.descs.Keys && InitFlags(t, e', life')
  {
  }

  lemma {:induction false} InitAllowed(t: Table, e: Engine, id: nat, life: Lives, cb: Callbacks)
    requires Sized(t, e) && life.Keys == t.descs.Keys
    requires InitFlags(t, e, life) && id in t.descs && e.rt[id].state.Discovered?
    requires DepsInitialized(e.rt, t.descs[id].deps)
    ensures Allowed(t.descs, life, Invoke(e, t.descs[id], Init, cb))
  {
  }

  lemma InitKeepsStage(t: Table, e: Engine, id: nat, cb: Callbacks)
    requires InitStage(t, e) && id in t.descs && e.rt[id].state.Discovered?
    requires DepsInitialized(e.rt, t.descs[id].deps)
    ensures InitStage(t, InitializeComponent(e, t.descs[id], cb).0)
  {
    var life := LivesAfter(t.descs, e.trace);
    var call := Invoke(e, t.descs[id], Init, cb);
    var e' := InitializeComponent(e, t.descs[id], cb).0;
    InitAllowed(t, e, id, life, cb);
    AppendCall(t.descs, e.trace, call);
    InitFrame(t, e, e', life, Advance(life, call), id);
    DistinctSnoc(e.initOrder, id);
    DependenciesFirstSnoc(t.descs, e.initOrder, id);
  }

  lemma {:induction false} ScanKeepsRequired(descs: map<nat, Desc>, order: seq<nat>, rt: map<nat, Runtime>, phase: nat,
                                             pending: nat, skipped: bool, candidate: Option<nat>)
    requires rt.Keys == descs.Keys && forall id :: id in order ==> id in descs
    ensures var s := ScanFrom(descs, order, rt, phase, pending, skipped, candidate);
            && (s.ScanDone? ==> forall id :: id in descs && descs[id].Required() ==> s.rt[id] == rt[id])
            && (s.ScanRefused? ==> s.id in descs && descs[s.id].Required() && s.rt[s.id].state.Skipped?)
  {
    if order != [] {
      var id, rest := order[0], order[1..];
      if !rt[id].state.Discovered? || descs[id].phase != phase {
        ScanKeepsRequired(descs, rest, rt, phase, pending, skipped, candidate);
      } else {
        match CheckDeps(rt, descs[id].deps, false)
        case DepFailed =>
          if !descs[id].Required() {
            ScanKeepsRequired(descs, rest, SetState(rt, id, Skipped, ErrDependency), phase, pending + 1, true, candidate);
          }
        case Ready => ScanKeepsRequired(descs, rest, rt, phase, pending + 1, skipped, Better(id, candidate));
        case Waiting => ScanKeepsRequired(descs, rest, rt, phase, pending + 1, skipped, candidate);
      }
    }
  }

  lemma {:induction false} SkipsKeepFlags(t: Table, e: Engine, phase: nat, rt: map<nat, Runtime>, life: Lives)
    requires Sized(t, e) && life.Keys == t.descs.Keys
    requires InitFlags(t, e, life) && OnlySkips(t.descs, phase, e.rt, rt)
    ensures InitFlags(t, e.(rt := rt), life)
  {
  }

  lemma ScanKeepsStage(t: Table, e: Engine, phase: nat)
    requires Linked(t)
    requires InitStage(t, e)
    ensures var s := FullScan(t, e, phase);
            var e1 := e.(rt := s.rt);
            && InitStage(t, e1)
            && (s.ScanDone? && NoneLost(t, e) ==> NoneLost(t, e1))
            && (ResolvedBelow(t, e, phase) ==> ResolvedBelow(t, e1, phase))
            && (s.ScanDone? && s.pending == 0 && ResolvedBelow(t, e, phase) ==> ResolvedBelow(t, e1, phase + 1))
  {
    FullScanFacts(t, e, phase);
    ScanKeepsRequired(t.descs, t.order, e.rt, phase, 0, false, None);
    var s := FullScan(t, e, phase);
    SkipsKeepFlags(t, e, phase, s.rt, LivesAfter(t.descs, e.trace));
    if s.ScanDone? && s.pending == 0 {
      forall id | id in t.descs && t.descs[id].phase == phase
        ensures !s.rt[id].state.Discovered?
      {
        assert id !in Pending(t.descs, e.rt, phase);
      }
    }
  }

  lemma InitKeepsResolved(t: Table, e: Engine, id: nat, phase: nat, cb: Callbacks)
    requires Sized(t, e) && id in t.descs && t.descs[id].phase == phase
    ensures var (e', outcome) := InitializeComponent(e, t.descs[id], cb);
            && (outcome.Done? && NoneLost(t, e) ==> NoneLost(t, e'))
            && (ResolvedBelow(t, e, phase) ==> ResolvedBelow(t, e', phase))
  {
  }

  lemma RoundKeepsStage(t: Table, e: Engine, phase: nat, cb: Callbacks)
    requires Linked(t)
    requires InitStage(t, e)
    ensures InitStage(t, PhaseRound(t, e, phase, cb).e)
  {
    hide InitStage, FullScan, InitializeComponent, OnlySkips;
    InitStageTidy(t, e);
    FullScanFacts(t, e, phase);
    ScanKeepsStage(t, e, phase);
    var s := FullScan(t, e, phase);
    if s.ScanDone? && s.candidate.Some? {
      InitKeepsStage(t, e.(rt := s.rt), s.candidate.value, cb);
    }
  }

  lemma RoundKeepsResolved(t: Table, e: Engine, phase: nat, cb: Callbacks)
    requires Linked(t)
    requires InitStage(t, e)
    ensures var r := PhaseRound(t, e, phase, cb);
            && (r.Again? || r.outcome.Done? ==> (NoneLost(t, e) ==> NoneLost(t, r.e)))
            && (ResolvedBelow(t, e, phase) ==> ResolvedBelow(t, r.e, phase))
            && (r.Finished? && r.outcome.Done? && ResolvedBelow(t, e, phase) ==> ResolvedBelow(t, r.e, phase + 1))
  {
    hide InitStage, FullScan, NoneLost, ResolvedBelow, InitializeComponent, Sized, Tidy, OnlySkips;
    InitStageTidy(t, e);
    ScanKeepsStage(t, e, phase);
    FullScanFacts(t, e, phase);
    var s := FullScan(t, e, phase);
    if s.ScanDone? && s.candidate.Some? {
      assert s.candidate.value in ReadySet(t.descs, e.rt, phase);
      InitKeepsResolved(t, e.(rt := s.rt), s.candidate.value, phase, cb);
    }
  }

  lemma {:induction false} PhaseKeepsStage(t: Table, e: Engine, phase: nat, cb: Callbacks)
    requires Linked(t)
    requires InitStage(t, e)
    ensures var (e', outcome) := InitializePhase(t, e, phase, cb);
            && InitStage(t, e')
            && (outcome.Done? && NoneLost(t, e) && ResolvedBelow(t, e, phase) ==>
                  NoneLost(t, e') && ResolvedBelow(t, e', phase + 1))
    decreases |Pending(t.descs, e.rt, phase)|
  {
    RoundKeepsStage(t, e, phase, cb);
    RoundKeepsResolved(t, e, phase, cb);
    var r := PhaseRound(t, e, phase, cb);
    if r.Again? {
      PhaseKeepsStage(t, r.e, phase, cb);
    }
  }

  lemma {:induction false} InitializeKeepsStage(t: Table, e: Engine, phase: nat, cb: Callbacks)
    requires Linked(t)
    requires phase <= PHASE_COUNT && InitStage(t, e)
    ensures var (e', outcome) := InitializeFrom(t, e, phase, cb);
            && InitStage(t, e')
            && (outcome.Done? && NoneLost(t, e) && ResolvedBelow(t, e, phase) ==>
                  NoneLost(t, e') && ResolvedBelow(t, e', PHASE_COUNT))
    decreases PHASE_COUNT - phase
  {
    hide InitStage, InitializePhase, NoneLost, ResolvedBelow, Linked, Tidy;
    if phase < PHASE_COUNT {
      InitStageTidy(t, e);
      PhaseKeepsStage(t, e, phase, cb);
      var (e1, outcome) := InitializePhase(t, e, phase, cb);
      if outcome.Done? {
        InitializeKeepsStage(t, e1, phase + 1, cb);
      }
    }
  }

  lemma InitStageIsCore(t: Table, e: Engine)
    requires InitStage(t, e)
    ensures Core(t, e)
  {
  }

  // ----- the start stage

  ghost predicate Settled(r: Runtime) {
    if r.state.Running? then r.initialized && r.started
    else (r.state.Failed? || r.state.Skipped?) && !r.initialized && !r.started
  }

  ghost predicate Prepared(r: Runtime, l: Life) {
    r.state.Initialized? && r.initialized && !r.started && l.Live?
  }

  ghost predicate AllRunning(rt: map<nat, Runtime>, deps: seq<nat>) {
    forall d :: d in deps ==> d in rt && rt[d].state.Running?
  }

  /** The components of `done` have been started, failed or skipped; the other ones are ready to start. */
  ghost predicate StartFlags(t: Table, e: Engine, life: Lives, done: set<nat>)
    requires Sized(t, e) && life.Keys == t.descs.Keys
  {
    && (forall id :: id in t.descs ==> if id in done then Settled(e.rt[id]) else Prepared(e.rt[id], life[id]))
    && (forall id :: id in t.descs && e.rt[id].state.Running? ==> AllRunning(e.rt, t.descs[id].deps))
    && (forall id :: id in t.descs && t.descs[id].Required() ==> !e.rt[id].state.Failed? && !e.rt[id].state.Skipped?)
  }

  ghost function DoneAt(t: Table, initOrder: seq<nat>, i: nat): set<nat>
    requires i <= |initOrder|
  {
    set id | id in t.descs && id !in initOrder[i..]
  }

  ghost predicate StartStage(t: Table, e: Engine, i: nat) {
    && Core(t, e) && i <= |e.initOrder|
    && StartFlags(t, e, LivesAfter(t.descs, e.trace), DoneAt(t, e.initOrder, i))
  }

  lemma {:induction false} SettledNeverWaits(rt: map<nat, Runtime>, deps: seq<nat>)
    requires forall d :: d in deps ==> d in rt && Settled(rt[d])
    ensures CheckDeps(rt, deps, true) != Waiting
    ensures CheckDeps(rt, deps, true) == Ready <==> AllRunning(rt, deps)
  {
    if deps != [] {
      assert deps == [deps[0]] + deps[1..];
      SettledNeverWaits(rt, deps[1..]);
    }
  }

  lemma DoneAdvances(t: Table, initOrder: seq<nat>, i: nat)
    requires Distinct(initOrder) && i < |initOrder| && initOrder[i] in t.descs
    ensures DoneAt(t, initOrder, i + 1) == DoneAt(t, initOrder, i) + {initOrder[i]}
    ensures initOrder[i] !in DoneAt(t, initOrder, i)
    ensures forall id :: id in initOrder[..i] && id in t.descs ==> id in DoneAt(t, initOrder, i)
  {
    assert initOrder[i..] == [initOrder[i]] + initOrder[i + 1..];
    assert initOrder[i] !in initOrder[i + 1..];
  }

  lemma NextToStart(t: Table, e: Engine, i: nat)
    requires StartStage(t, e, i) && i < |e.initOrder|
    ensures var id := e.initOrder[i];
            && id !in DoneAt(t, e.initOrder, i) && id !in t.descs[id].deps
            && forall d :: d in t.descs[id].deps ==> d in DoneAt(t, e.initOrder, i)
  {
    var id := e.initOrder[i];
    DoneAdvances(t, e.initOrder, i);
    forall d | d in t.descs[id].deps
      ensures d in DoneAt(t, e.initOrder, i)
    {
      assert DepsWithin(t.descs, id, e.initOrder[..i]);
    }
  }

  /** check_dependencies never answers "waiting" while components are being started. */
  lemma StartNeverWaits(t: Table, e: Engine, i: nat)
    requires StartStage(t, e, i) && i < |e.initOrder|
    ensures CheckDeps(e.rt, t.descs[e.initOrder[i]].deps, true) != Waiting
    ensures CheckDeps(e.rt, t.descs[e.initOrder[i]].deps, true) == Ready <==>
            AllRunning(e.rt, t.descs[e.initOrder[i]].deps)
  {
    NextToStart(t, e, i);
    SettledNeverWaits(e.rt, t.descs[e.initOrder[i]].deps);
  }

  /** Only the record, the life and the start-order entry of one component change, and it stays consistent. */
  lemma {:induction false} FlagsFrame(t: Table, e: Engine, e': Engine, life: Lives, life': Lives, id: nat)
    requires Sized(t, e) && Sized(t, e') && life.Keys == t.descs.Keys
    requires Flags(t, e, life) && id in t.descs
    requires ChangedAt(e.rt, e'.rt, id) && ChangedAt(life, life', id)
    requires RecordMatches(e'.rt[id], life'[id])
    requires e'.initOrder == e.initOrder && id in e.initOrder
    requires if e'.rt[id].started && !e.rt[id].started then e'.startOrder == e.startOrder + [id]
             else e'.rt[id].started == e.rt[id].started && e'.startOrder == e.startOrder
    ensures life'.Keys == t.descs.Keys && Flags(t, e', life')
  {
  }

  lemma {:induction false} SettleFrame(t: Table, e: Engine, e': Engine, life: Lives, life': Lives, id: nat,
                                       done: set<nat>)
    requires Sized(t, e) && Sized(t, e') && life.Keys == t.descs.Keys
    requires StartFlags(t, e, life, done) && id in t.descs && id !in done && id !in t.descs[id].deps
    requires ChangedAt(e.rt, e'.rt, id) && ChangedAt(life, life', id)
    requires Settled(e'.rt[id])
    requires e'.rt[id].state.Running? ==> AllRunning(e.rt, t.descs[id].deps)
    requires t.descs[id].Required() ==> e'.rt[id].state.Running?
    ensures life'.Keys == t.descs.Keys && StartFlags(t, e', life', done + {id})
  {
    forall x | x in t.descs
      ensures if x in done + {id} then Settled(e'.rt[x]) else Prepared(e'.rt[x], life'[x])
      ensures e'.rt[x].state.Running? ==> AllRunning(e'.rt, t.descs[x].deps)
      ensures t.descs[x].Required() ==> !e'.rt[x].state.Failed? && !e'.rt[x].state.Skipped?
    {
      if x != id {
        assert e'.rt[x] == e.rt[x] && life'[x] == life[x];
      }
      if e'.rt[x].state.Running? {
        assert AllRunning(e.rt, t.descs[x].deps) && id !in t.descs[x].deps;
      }
    }
  }

  lemma {:induction false} StartAllowed(t: Table, e: Engine, id: nat, life: Lives, done: set<nat>, cb: Callbacks)
    requires Sized(t, e) && life.Keys == t.descs.Keys && Flags(t, e, life)
    requires StartFlags(t, e, life, done) && id in t.descs && id !in done
    requires AllRunning(e.rt, t.descs[id].deps) && forall d :: d in t.descs[id].deps ==> d in done
    ensures Allowed(t.descs, life, Invoke(e, t.descs[id], Start, cb))
  {
  }

  lemma {:induction false} SkipRefuses(t: Table, e: Engine, id: nat, life: Lives, done: set<nat>, cb: Callbacks)
    requires Sized(t, e) && life.Keys == t.descs.Keys && Flags(t, e, life) && StartFlags(t, e, life, done)
    requires id in t.descs && id in e.initOrder && id !in done && id !in t.descs[id].deps
    requires CheckDeps(e.rt, t.descs[id].deps, true) != Ready
    requires t.descs[id].Required()
    ensures var (e', outcome) := StartComponent(e, t.descs[id], cb);
            !outcome.Done? && e'.trace == e.trace && Flags(t, e', life)
  {
    hide CheckDeps, LifeOf, AllRunning, Hook;
    var e' := StartComponent(e, t.descs[id], cb).0;
    assert Prepared(e.rt[id], life[id]);
    FlagsFrame(t, e, e', life, life, id);
  }

  lemma {:induction false} DropRecord(t: Table, e: Engine, id: nat, life: Lives, cb: Callbacks)
    requires Sized(t, e) && life.Keys == t.descs.Keys && id in t.descs && Prepared(e.rt[id], life[id])
    requires CheckDeps(e.rt, t.descs[id].deps, true) != Ready && !t.descs[id].Required()
    ensures var e' := StartComponent(e, t.descs[id], cb).0;
            var drop := Invoke(e, t.descs[id], EarlyDeinit, cb);
            var life' := Advance(life, drop);
            && Sized(t, e') && e'.trace == e.trace + [drop] && Allowed(t.descs, life, drop)
            && e'.initOrder == e.initOrder && e'.startOrder == e.startOrder
            && ChangedAt(e.rt, e'.rt, id) && ChangedAt(life, life', id) && RecordMatches(e'.rt[id], life'[id])
            && Settled(e'.rt[id]) && !e'.rt[id].started && !e'.rt[id].state.Running?
  {
    hide CheckDeps, Hook;
  }

  lemma {:induction false} SkipDrops(t: Table, e: Engine, id: nat, life: Lives, done: set<nat>, cb: Callbacks)
    requires Sized(t, e) && life.Keys == t.descs.Keys && Flags(t, e, life) && StartFlags(t, e, life, done)
    requires id in t.descs && id in e.initOrder && id !in done && id !in t.descs[id].deps
    requires CheckDeps(e.rt, t.descs[id].deps, true) != Ready
    requires !t.descs[id].Required()
    ensures var (e', outcome) := StartComponent(e, t.descs[id], cb);
            var drop := Invoke(e, t.descs[id], EarlyDeinit, cb);
            && e'.trace == e.trace + [drop] && Allowed(t.descs, life, drop)
            && Sized(t, e') && Advance(life, drop).Keys == t.descs.Keys
            && Flags(t, e', Advance(life, drop)) && StartFlags(t, e', Advance(life, drop), done + {id})
  {
    hide CheckDeps, LifeOf, Hook, AllRunning, StartComponent, Allowed, RecordMatches, Settled, Next;
    var e', life' := StartComponent(e, t.descs[id], cb).0, Advance(life, Invoke(e, t.descs[id], EarlyDeinit, cb));
    assert Prepared(e.rt[id], life[id]) && !e.rt[id].started;
    DropRecord(t, e, id, life, cb);
    FlagsFrame(t, e, e', life, life', id);
    SettleFrame(t, e, e', life, life', id, done);
  }

  lemma {:induction false} StartSkip(t: Table, e: Engine, id: nat, life: Lives, done: set<nat>, cb: Callbacks)
    requires Sized(t, e) && life.Keys == t.descs.Keys && Flags(t, e, life) && StartFlags(t, e, life, done)
    requires id in t.descs && id in e.initOrder && id !in done && id !in t.descs[id].deps
    requires CheckDeps(e.rt, t.descs[id].deps, true) != Ready
    ensures var (e', outcome) := StartComponent(e, t.descs[id], cb);
            var drop := Invoke(e, t.descs[id], EarlyDeinit, cb);
            if t.descs[id].Required() then
              !outcome.Done? && e'.trace == e.trace && Flags(t, e', life)
            else
              && e'.trace == e.trace + [drop] && Allowed(t.descs, life, drop)
              && Sized(t, e') && Advance(life, drop).Keys == t.descs.Keys
              && Flags(t, e', Advance(life, drop)) && StartFlags(t, e', Advance(life, drop), done + {id})
  {
    hide CheckDeps, LifeOf, AllRunning, Hook, Flags, StartFlags, StartComponent, Allowed, Advance;
    if t.descs[id].Required() {
      SkipRefuses(t, e, id, life, done, cb);
    } else {
      SkipDrops(t, e, id, life, done, cb);
    }
  }

  /** What a start that is not degraded makes of the record and the life of its component. */
  lemma {:induction false} StartRecord(t: Table, e: Engine, id: nat, life: Lives, cb: Callbacks)
    requires Sized(t, e) && life.Keys == t.descs.Keys && id in t.descs && Prepared(e.rt[id], life[id])
    requires CheckDeps(e.rt, t.descs[id].deps, true) == Ready
    requires Invoke(e, t.descs[id], Start, cb).result == Ok || t.descs[id].Required()
    ensures var (e', outcome) := StartComponent(e, t.descs[id], cb);
            var call := Invoke(e, t.descs[id], Start, cb);
            var life' := Advance(life, call);
            && Sized(t, e') && e'.trace == e.trace + [call] && e'.initOrder == e.initOrder
            && ChangedAt(e.rt, e'.rt, id) && ChangedAt(life, life', id) && RecordMatches(e'.rt[id], life'[id])
            && (outcome.Done? <==> call.result == Ok)
            && e'.startOrder == (if call.result == Ok then e.startOrder + [id] else e.startOrder)
            && e'.rt[id].started == (call.result == Ok)
            && (call.result == Ok ==> e'.rt[id].state.Running? && Settled(e'.rt[id]))
  {
    hide CheckDeps, Hook;
  }

  lemma {:induction false} StartRuns(t: Table, e: Engine, id: nat, life: Lives, done: set<nat>, cb: Callbacks)
    requires Sized(t, e) && life.Keys == t.descs.Keys && Flags(t, e, life) && StartFlags(t, e, life, done)
    requires id in t.descs && id in e.initOrder && id !in done && id !in t.descs[id].deps
    requires forall d :: d in t.descs[id].deps ==> d in done
    requires CheckDeps(e.rt, t.descs[id].deps, true) == Ready && AllRunning(e.rt, t.descs[id].deps)
    requires Invoke(e, t.descs[id], Start, cb).result == Ok || t.descs[id].Required()
    ensures var (e', outcome) := StartComponent(e, t.descs[id], cb);
            var call := Invoke(e, t.descs[id], Start, cb);
            && e'.trace == e.trace + [call] && Allowed(t.descs, life, call)
            && Sized(t, e') && Advance(life, call).Keys == t.descs.Keys
            && Flags(t, e', Advance(life, call))
            && (outcome.Done? ==> StartFlags(t, e', Advance(life, call), done + {id}))
  {
    hide CheckDeps, LifeOf, Hook, AllRunning, Flags, StartComponent, Allowed, RecordMatches, Settled, Next;
    var d := t.descs[id];
    var e' := StartComponent(e, d, cb).0;
    var call := Invoke(e, d, Start, cb);
    assert Prepared(e.rt[id], life[id]);
    hide StartFlags;
    StartRecord(t, e, id, life, cb);
    StartAllowed(t, e, id, life, done, cb);
    FlagsFrame(t, e, e', life, Advance(life, call), id);
    if call.result == Ok {
      SettleFrame(t, e, e', life, Advance(life, call), id, done);
    }
  }

  lemma {:induction false} DegradeAllowed(t: Table, e: Engine, id: nat, life: Lives, done: set<nat>, cb: Callbacks)
    requires Sized(t, e) && life.Keys == t.descs.Keys && Flags(t, e, life) && StartFlags(t, e, life, done)
    requires id in t.descs && id !in done && !t.descs[id].Required()
    requires AllRunning(e.rt, t.descs[id].deps) && forall d :: d in t.descs[id].deps ==> d in done
    requires Invoke(e, t.descs[id], Start, cb).result != Ok
    ensures var call := Invoke(e, t.descs[id], Start, cb);
            var drop := Invoke(e.(trace := e.trace + [call]), t.descs[id], EarlyDeinit, cb);
            && Allowed(t.descs, life, call) && Allowed(t.descs, Advance(life, call), drop)
            && Advance(Advance(life, call), drop) == life[id := Gone]
  {
    hide CheckDeps, LifeOf, Hook;
    StartAllowed(t, e, id, life, done, cb);
    assert Prepared(e.rt[id], life[id]);
  }

  lemma {:induction false} StartDegrades(t: Table, e: Engine, id: nat, life: Lives, done: set<nat>, cb: Callbacks)
    requires Sized(t, e) && life.Keys == t.descs.Keys && Flags(t, e, life) && StartFlags(t, e, life, done)
    requires id in t.descs && id in e.initOrder && id !in done && id !in t.descs[id].deps
    requires CheckDeps(e.rt, t.descs[id].deps, true) == Ready
    requires Invoke(e, t.descs[id], Start, cb).result != Ok && !t.descs[id].Required()
    ensures var e' := StartComponent(e, t.descs[id], cb).0;
            var call := Invoke(e, t.descs[id], Start, cb);
            var drop := Invoke(e.(trace := e.trace + [call]), t.descs[id], EarlyDeinit, cb);
            && e'.trace == e.trace + [call] + [drop] && Sized(t, e')
            && Flags(t, e', life[id := Gone]) && StartFlags(t, e', life[id := Gone], done + {id})
  {
    var e' := StartComponent(e, t.descs[id], cb).0;
    assert Prepared(e.rt[id], life[id]);
    hide StartFlags, Flags, Prepared;
    FlagsFrame(t, e, e', life, life[id := Gone], id);
    SettleFrame(t, e, e', life, life[id := Gone], id, done);
  }

  lemma StartKeepsOrders(t: Table, e: Engine, i: nat, cb: Callbacks)
    requires StartStage(t, e, i) && i < |e.initOrder|
    ensures Orders(t, StartComponent(e, t.descs[e.initOrder[i]], cb).0)
  {
    var id := e.initOrder[i];
    NextToStart(t, e, i);
    StartNeverWaits(t, e, i);
    var e' := StartComponent(e, t.descs[id], cb).0;
    if e'.startOrder != e.startOrder {
      forall d | d in t.descs[id].deps
        ensures d in e.startOrder
      {
        assert AllRunning(e.rt, t.descs[id].deps) && Settled(e.rt[d]);
      }
      DistinctSnoc(e.startOrder, id);
      DependenciesFirstSnoc(t.descs, e.startOrder, id);
    }
  }

  lemma StartKeepsStage(t: Table, e: Engine, i: nat, cb: Callbacks)
    requires StartStage(t, e, i) && i < |e.initOrder|
    ensures var (e', outcome) := StartComponent(e, t.descs[e.initOrder[i]], cb);
            && Core(t, e')
            && e'.initOrder == e.initOrder
            && (outcome.Done? ==> StartStage(t, e', i + 1))
            && !outcome.NoProgress?
  {
    var id := e.initOrder[i];
    var d := t.descs[id];
    var life := LivesAfter(t.descs, e.trace);
    NextToStart(t, e, i);
    DoneAdvances(t, e.initOrder, i);
    StartNeverWaits(t, e, i);
    StartKeepsOrders(t, e, i, cb);
    var done := DoneAt(t, e.initOrder, i);
    if CheckDeps(e.rt, d.deps, true) != Ready {
      StartSkip(t, e, id, life, done, cb);
      if !d.Required() {
        AppendCall(t.descs, e.trace, Invoke(e, d, EarlyDeinit, cb));
      }
    } else {
      var call := Invoke(e, d, Start, cb);
      if call.result == Ok || d.Required() {
        StartRuns(t, e, id, life, done, cb);
        AppendCall(t.descs, e.trace, call);
      } else {
        DegradeAllowed(t, e, id, life, done, cb);
        StartDegrades(t, e, id, life, done, cb);
        AppendCall(t.descs, e.trace, call);
        AppendCall(t.descs, e.trace + [call], Invoke(e.(trace := e.trace + [call]), d, EarlyDeinit, cb));
      }
    }
  }

  lemma StageOrder(t: Table, e: Engine, i: nat)
    requires StartStage(t, e, i)
    ensures Sized(t, e) && i <= |e.initOrder| && Distinct(e.initOrder)
    ensures forall id :: id in e.initOrder ==> id in t.descs
  {
  }

  lemma StageIsCore(t: Table, e: Engine, i: nat)
    requires StartStage(t, e, i)
    ensures Core(t, e)
  {
  }

  lemma {:induction false} StartsKeepStage(t: Table, e: Engine, i: nat, cb: Callbacks)
    requires StartStage(t, e, i)
    ensures var (e', outcome) := StartFrom(t, e, i, cb);
            && Core(t, e')
            && (outcome.Done? ==> StartStage(t, e', |e'.initOrder|))
            && !outcome.NoProgress?
    decreases |e.initOrder| - i
  {
    hide StartComponent, StartStage, Core;
    StageOrder(t, e, i);
    StageIsCore(t, e, i);
    if i < |e.initOrder| {
      StartKeepsStage(t, e, i, cb);
      var (e1, outcome) := StartComponent(e, t.descs[e.initOrder[i]], cb);
      if outcome.Done? {
        StartsKeepStage(t, e1, i + 1, cb);
      }
    }
  }

  // ----- rollback

  lemma {:induction false} StopFrame(t: Table, e: Engine, e': Engine, life: Lives, life': Lives, id: nat)
    requires Sized(t, e) && Sized(t, e') && life.Keys == t.descs.Keys
    requires Flags(t, e, life) && id in t.descs && Distinct(e.startOrder) && e.startOrder == e'.startOrder + [id]
    requires ChangedAt(e.rt, e'.rt, id) && ChangedAt(life, life', id)
    requires RecordMatches(e'.rt[id], life'[id]) && !e'.rt[id].started && e'.rt[id].initialized == e.rt[id].initialized
    requires e'.initOrder == e.initOrder
    ensures life'.Keys == t.descs.Keys && Flags(t, e', life')
  {
    hide StateFits, Distinct;
    DistinctSplit(e'.startOrder, id);
    forall x | x in t.descs
      ensures e'.rt[x].initialized ==> x in e'.initOrder
      ensures e'.rt[x].started <==> x in e'.startOrder
      ensures RecordMatches(e'.rt[x], life'[x])
    {
      assert x != id ==> RecordMatches(e.rt[x], life[x]) && (e.rt[x].started <==> x in e.startOrder);
    }
  }

  lemma {:induction false} StopAllowed(t: Table, e: Engine, life: Lives, cb: Callbacks)
    requires Sized(t, e) && life.Keys == t.descs.Keys
    requires Flags(t, e, life) && Orders(t, e) && e.startOrder != []
    ensures Allowed(t.descs, life, Invoke(e, t.descs[e.startOrder[|e.startOrder| - 1]], Stop, cb))
  {
    var n := |e.startOrder| - 1;
    NothingDependsOnLast(t.descs, e.startOrder, n);
    assert e.startOrder[..n + 1] == e.startOrder;
    assert life[e.startOrder[n]].Up?;
  }

  lemma StopOrders(t: Table, e: Engine, cb: Callbacks)
    requires Sized(t, e) && e.startOrder != [] && Orders(t, e)
    ensures var e' := StopLast(t, e, cb).0;
            && Orders(t, e') && Distinct(e.startOrder)
            && e.startOrder == e'.startOrder + [e.startOrder[|e.startOrder| - 1]]
  {
    var n := |e.startOrder| - 1;
    DependenciesFirstPrefix(t.descs, e.startOrder, n);
    assert e.startOrder == e.startOrder[..n] + [e.startOrder[n]];
    DistinctSplit(e.startOrder[..n], e.startOrder[n]);
  }

  lemma {:induction false} StopRecord(t: Table, e: Engine, life: Lives, cb: Callbacks)
    requires Sized(t, e) && life.Keys == t.descs.Keys && e.startOrder != [] && Flags(t, e, life)
    ensures var id := e.startOrder[|e.startOrder| - 1];
            var e' := StopLast(t, e, cb).0;
            var life' := Advance(life, Invoke(e, t.descs[id], Stop, cb));
            && ChangedAt(e.rt, e'.rt, id) && ChangedAt(life, life', id) && RecordMatches(e'.rt[id], life'[id])
            && !e'.rt[id].started && e'.rt[id].initialized == e.rt[id].initialized && e'.initOrder == e.initOrder
  {
    hide Hook;
    var id := e.startOrder[|e.startOrder| - 1];
    assert RecordMatches(e.rt[id], life[id]) && e.rt[id].started;
  }

  lemma {:induction false} StopOne(t: Table, e: Engine, life: Lives, cb: Callbacks)
    requires Sized(t, e) && life.Keys == t.descs.Keys && e.startOrder != []
    requires Orders(t, e) && Flags(t, e, life)
    ensures var call := Invoke(e, t.descs[e.startOrder[|e.startOrder| - 1]], Stop, cb);
            var e' := StopLast(t, e, cb).0;
            var life' := Advance(life, call);
            && Allowed(t.descs, life, call) && life'.Keys == t.descs.Keys
            && Orders(t, e') && Flags(t, e', life')
  {
    hide LifeOf, Hook, Holds, Orders, Flags, StopLast, RecordMatches, Next, Allowed, Distinct;
    StopAllowed(t, e, life, cb);
    StopOrders(t, e, cb);
    StopRecord(t, e, life, cb);
    var id := e.startOrder[|e.startOrder| - 1];
    StopFrame(t, e, StopLast(t, e, cb).0, life, Advance(life, Invoke(e, t.descs[id], Stop, cb)), id);
  }

  lemma StopKeepsCore(t: Table, e: Engine, cb: Callbacks)
    requires Core(t, e) && e.startOrder != []
    ensures Core(t, StopLast(t, e, cb).0)
  {
    StopOne(t, e, LivesAfter(t.descs, e.trace), cb);
    AppendCall(t.descs, e.trace, Invoke(e, t.descs[e.startOrder[|e.startOrder| - 1]], Stop, cb));
  }

  lemma {:induction false} StopsKeepCore(t: Table, e: Engine, cb: Callbacks)
    requires Core(t, e)
    ensures Core(t, StopStarted(t, e, cb).0)
    decreases |e.startOrder|
  {
    if e.startOrder != [] {
      StopKeepsCore(t, e, cb);
      StopsKeepCore(t, StopLast(t, e, cb).0, cb);
    }
  }

  lemma {:induction false} DeinitFrame(t: Table, e: Engine, e': Engine, life: Lives, life': Lives, id: nat)
    requires Sized(t, e) && Sized(t, e') && life.Keys == t.descs.Keys
    requires Flags(t, e, life) && id in t.descs && e.initOrder == e'.initOrder + [id]
    requires ChangedAt(e.rt, e'.rt, id) && ChangedAt(life, life', id)
    requires Over(life'[id]) && !e'.rt[id].started && !e'.rt[id].initialized && StateFits(e'.rt[id])
    requires e.startOrder == e'.startOrder == []
    ensures life'.Keys == t.descs.Keys && Flags(t, e', life')
  {
    hide StateFits, Distinct;
    forall x | x in t.descs
      ensures e'.rt[x].initialized ==> x in e'.initOrder
      ensures !e'.rt[x].started && RecordMatches(e'.rt[x], life'[x])
    {
      assert x != id ==> RecordMatches(e.rt[x], life[x]) && !e.rt[x].started;
    }
  }

  lemma {:induction false} DeinitAllowed(t: Table, e: Engine, life: Lives, cb: Callbacks)
    requires Sized(t, e) && life.Keys == t.descs.Keys
    requires Flags(t, e, life) && Orders(t, e) && e.initOrder != [] && e.startOrder == []
    requires e.rt[e.initOrder[|e.initOrder| - 1]].initialized
    ensures Allowed(t.descs, life, Invoke(e, t.descs[e.initOrder[|e.initOrder| - 1]], Deinit, cb))
  {
    hide LifeOf, StateFits, Hook;
    var n := |e.initOrder| - 1;
    NothingDependsOnLast(t.descs, e.initOrder, n);
    assert e.initOrder[..n + 1] == e.initOrder;
    assert !e.rt[e.initOrder[n]].started;
  }

  lemma DeinitOrders(t: Table, e: Engine, cb: Callbacks)
    requires Sized(t, e) && e.initOrder != [] && e.startOrder == [] && Orders(t, e)
    ensures Orders(t, DeinitLast(t, e, cb))
    ensures DeinitLast(t, e, cb).initOrder == e.initOrder[..|e.initOrder| - 1]
  {
    var n := |e.initOrder| - 1;
    DependenciesFirstPrefix(t.descs, e.initOrder, n);
    assert e.initOrder == e.initOrder[..n] + [e.initOrder[n]];
    DistinctSplit(e.initOrder[..n], e.initOrder[n]);
  }

  lemma {:induction false} DeinitRecord(t: Table, e: Engine, life: Lives, cb: Callbacks)
    requires Sized(t, e) && life.Keys == t.descs.Keys && e.initOrder != [] && e.startOrder == []
    requires Flags(t, e, life)
    ensures var id := e.initOrder[|e.initOrder| - 1];
            var e' := DeinitLast(t, e, cb);
            && ChangedAt(e.rt, e'.rt, id) && !e'.rt[id].started && !e'.rt[id].initialized && StateFits(e'.rt[id])
            && e.initOrder == e'.initOrder + [id]
            && if e.rt[id].initialized then Next(life[id], Invoke(e, t.descs[id], Deinit, cb)).Gone? else Over(life[id])
  {
    hide Flags, LifeOf;
    var id := e.initOrder[|e.initOrder| - 1];
    RecordAt(t, e, life, id);
    assert !e.rt[id].initialized ==> DeinitLast(t, e, cb).rt[id] == e.rt[id];
  }

  lemma {:induction false} RecordAt(t: Table, e: Engine, life: Lives, id: nat)
    requires Sized(t, e) && life.Keys == t.descs.Keys && e.startOrder == [] && Flags(t, e, life) && id in t.descs
    ensures id in life && RecordMatches(e.rt[id], life[id]) && !e.rt[id].started
  {
  }

  lemma {:induction false} DeinitOne(t: Table, e: Engine, life: Lives, cb: Callbacks)
    requires Sized(t, e) && life.Keys == t.descs.Keys && e.initOrder != [] && e.startOrder == []
    requires Orders(t, e) && Flags(t, e, life)
    ensures var id := e.initOrder[|e.initOrder| - 1];
            var call := Invoke(e, t.descs[id], Deinit, cb);
            var life' := if e.rt[id].initialized then Advance(life, call) else life;
            && (e.rt[id].initialized ==> Allowed(t.descs, life, call))
            && life'.Keys == t.descs.Keys && Flags(t, DeinitLast(t, e, cb), life')
  {
    hide Flags, Orders, Allowed, DeinitLast, RecordMatches, Next, Hook, LifeOf, StateFits;
    var id := e.initOrder[|e.initOrder| - 1];
    var call := Invoke(e, t.descs[id], Deinit, cb);
    DeinitRecord(t, e, life, cb);
    var life' := if e.rt[id].initialized then Advance(life, call) else life;
    if e.rt[id].initialized {
      DeinitAllowed(t, e, life, cb);
    }
    DeinitFrame(t, e, DeinitLast(t, e, cb), life, life', id);
  }

  /** A deinit depends on the flag of its component only, and clears it. */
  lemma DeinitShape(t: Table, e: Engine, cb: Callbacks)
    requires Sized(t, e) && e.initOrder != []
    ensures var id := e.initOrder[|e.initOrder| - 1];
            var e' := DeinitLast(t, e, cb);
            && e'.initOrder == e.initOrder[..|e.initOrder| - 1] && e'.startOrder == e.startOrder
            && e'.trace == (if e.rt[id].initialized then e.trace + [Invoke(e, t.descs[id], Deinit, cb)] else e.trace)
            && e'.rt.Keys == e.rt.Keys
            && forall x :: x in e.rt ==> e'.rt[x].initialized == (x != id && e.rt[x].initialized)
  {
    hide Hook;
  }

  lemma DeinitKeepsCore(t: Table, e: Engine, cb: Callbacks)
    requires Core(t, e) && e.initOrder != [] && e.startOrder == []
    ensures Core(t, DeinitLast(t, e, cb))
  {
    hide DeinitLast, Orders, Flags, WellOrdered, Allowed, LifeOf, Next, Invoke;
    var id := e.initOrder[|e.initOrder| - 1];
    DeinitShape(t, e, cb);
    DeinitOrders(t, e, cb);
    DeinitOne(t, e, LivesAfter(t.descs, e.trace), cb);
    if e.rt[id].initialized {
      AppendCall(t.descs, e.trace, Invoke(e, t.descs[id], Deinit, cb));
    }
  }

  lemma {:induction false} DeinitsKeepCore(t: Table, e: Engine, cb: Callbacks)
    requires Core(t, e) && e.startOrder == []
    ensures Core(t, DeinitializeAll(t, e, cb))
    decreases |e.initOrder|
  {
    if e.initOrder != [] {
      DeinitKeepsCore(t, e, cb);
      DeinitsKeepCore(t, DeinitLast(t, e, cb), cb);
    }
  }

  /** Everything released: no flag set, both orders empty, every life over. */
  ghost predicate Released(t: Table, e: Engine) {
    && Core(t, e) && e.initOrder == [] && e.startOrder == []
    && forall id :: id in t.descs ==>
         && !e.rt[id].initialized && !e.rt[id].started && Over(LifeOf(e.trace, id))
         && (e.rt[id].state.Discovered? || e.rt[id].state.Failed? || e.rt[id].state.Skipped? || e.rt[id].state.Stopped?)
  }

  /** A rollback from any reachable engine, whatever the callbacks answer, releases everything. */
  lemma RollbackReleases(t: Table, e: Engine, cb: Callbacks)
    requires Core(t, e)
    ensures Released(t, Rollback(t, e, cb).0)
  {
    hide LifeOf, Orders, WellOrdered, Allowed;
    StopsKeepCore(t, e, cb);
    DeinitsKeepCore(t, StopStarted(t, e, cb).0, cb);
  }
}
