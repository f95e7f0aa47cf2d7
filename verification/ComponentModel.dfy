/** The component engine as a function of its table and of the callbacks' answers:
    what one call of the engine does to the runtime records, the two order lists
    and the trace of lifecycle calls. */
module ComponentModel {
  import opened SysTypes

  const MAX_COMPONENTS: nat := 64
  const PHASE_COUNT: nat := 3
  const REQUIRED: nat := 0
  const OPTIONAL: nat := 1

  /** A descriptor from the link section. `phase` and `policy` are raw enum values. */
  datatype Desc = Desc(id: nat, named: bool, phase: nat, policy: nat, deps: seq<nat>,
                       hasInit: bool, hasStart: bool, hasStop: bool, hasDeinit: bool)
  {
    predicate Required() { policy == REQUIRED }
  }

  datatype State =
    | Discovered | Initializing | Initialized | Starting | Running
    | Stopping | Stopped | Failed | Skipped

  datatype Runtime = Runtime(state: State, lastError: SysErr, initialized: bool, started: bool)

  /** `EarlyDeinit` is the deinit that start_component issues itself, before any rollback. */
  datatype Op = Init | Start | Stop | Deinit | EarlyDeinit

  /** One lifecycle action; `hooked` says whether the descriptor has a callback for it. */
  datatype Call = Call(op: Op, id: nat, hooked: bool, result: SysErr)

  /** The callbacks: any answer, which may depend on everything called before. */
  type Callbacks = (seq<Call>, Op, nat) -> SysErr

  /** A validated table: descriptors by id, and the link order of the ids. */
  datatype Table = Table(descs: map<nat, Desc>, order: seq<nat>)

  datatype Engine = Engine(rt: map<nat, Runtime>, initOrder: seq<nat>, startOrder: seq<nat>, trace: seq<Call>)

  /** Why a stage ended; `Code` is the error the C function returns for it. */
  datatype Outcome =
    | Done
    | CallbackFailed(id: nat, error: SysErr)
    | RequiredSkipped(id: nat)
    | NoProgress

  function Code(o: Outcome): SysErr {
    match o
    case Done => Ok
    case CallbackFailed(_, error) => error
    case RequiredSkipped(_) => ErrDependency
    case NoProgress => ErrDependency
  }

  /** The link order lists exactly the ids of the table. */
  ghost predicate Linked(t: Table) {
    && (forall id :: id in t.order ==> id in t.descs)
    && (forall id :: id in t.descs ==> id in t.order)
  }

  /** A failed callback is reported with the error it returned, never with success. */
  ghost predicate Honest(o: Outcome) {
    o.CallbackFailed? ==> o.error != Ok
  }

  ghost predicate Sized(t: Table, e: Engine) {
    && e.rt.Keys == t.descs.Keys
    && (forall id :: id in t.descs ==> t.descs[id].id == id)
    && (forall id :: id in e.initOrder ==> id in t.descs)
    && (forall id :: id in e.startOrder ==> id in t.descs)
  }

  function Hook(d: Desc, op: Op): bool {
    match op
    case Init => d.hasInit
    case Start => d.hasStart
    case Stop => d.hasStop
    case Deinit => d.hasDeinit
    case EarlyDeinit => d.hasDeinit
  }

  function Invoke(e: Engine, d: Desc, op: Op, cb: Callbacks): Call {
    Call(op, d.id, Hook(d, op), if Hook(d, op) then cb(e.trace, op, d.id) else Ok)
  }

  function SetState(rt: map<nat, Runtime>, id: nat, state: State, error: SysErr): map<nat, Runtime>
    requires id in rt
  {
    rt[id := rt[id].(state := state, lastError := error)]
  }

  datatype DepResult = Waiting | Ready | DepFailed

  function CheckDeps(rt: map<nat, Runtime>, deps: seq<nat>, requireRunning: bool): DepResult {
    if deps == [] then
      Ready
    else if deps[0] !in rt || rt[deps[0]].state.Failed? || rt[deps[0]].state.Skipped? then
      DepFailed
    else if requireRunning && !rt[deps[0]].state.Running? then
      Waiting
    else if !requireRunning && !rt[deps[0]].initialized then
      Waiting
    else
      CheckDeps(rt, deps[1..], requireRunning)
  }

  // ----- one scan of initialize_phase over the table

  datatype Scan =
    | ScanRefused(rt: map<nat, Runtime>, id: nat)
    | ScanDone(rt: map<nat, Runtime>, pending: nat, skipped: bool, candidate: Option<nat>)

  function Better(id: nat, candidate: Option<nat>): Option<nat> {
    if candidate.None? || id < candidate.value then Some(id) else candidate
  }

  function ScanFrom(descs: map<nat, Desc>, order: seq<nat>, rt: map<nat, Runtime>, phase: nat,
                    pending: nat, skipped: bool, candidate: Option<nat>): (s: Scan)
    requires rt.Keys == descs.Keys && forall id :: id in order ==> id in descs
    ensures s.rt.Keys == rt.Keys
  {
    if order == [] then
      ScanDone(rt, pending, skipped, candidate)
    else
      var id := order[0];
      if !rt[id].state.Discovered? || descs[id].phase != phase then
        ScanFrom(descs, order[1..], rt, phase, pending, skipped, candidate)
      else
        match CheckDeps(rt, descs[id].deps, false)
        case DepFailed =>
          var rt' := SetState(rt, id, Skipped, ErrDependency);
          if descs[id].Required() then ScanRefused(rt', id)
          else ScanFrom(descs, order[1..], rt', phase, pending + 1, true, candidate)
        case Ready =>
          ScanFrom(descs, order[1..], rt, phase, pending + 1, skipped, Better(id, candidate))
        case Waiting =>
          ScanFrom(descs, order[1..], rt, phase, pending + 1, skipped, candidate)
  }

  function FullScan(t: Table, e: Engine, phase: nat): Scan
    requires Linked(t)
    requires Sized(t, e)
  {
    ScanFrom(t.descs, t.order, e.rt, phase, 0, false, None)
  }

  // ----- what a scan does, in terms of the sets it works on

  /** During initialisation a record is discovered, initialized, failed or skipped, and nothing is started. */
  ghost predicate Tidy(rt: map<nat, Runtime>) {
    forall id :: id in rt ==>
      && (rt[id].initialized <==> rt[id].state.Initialized?)
      && !rt[id].started
      && (rt[id].state.Discovered? || rt[id].state.Initialized? || rt[id].state.Failed? || rt[id].state.Skipped?)
  }

  /** The components of a phase that initialize_phase still has to resolve. */
  ghost function Pending(descs: map<nat, Desc>, rt: map<nat, Runtime>, phase: nat): set<nat>
    requires rt.Keys == descs.Keys
  {
    set id | id in descs && descs[id].phase == phase && rt[id].state.Discovered?
  }

  ghost predicate DepsInitialized(rt: map<nat, Runtime>, deps: seq<nat>) {
    forall d :: d in deps ==> d in rt && rt[d].initialized
  }

  /** The pending components whose dependencies are all initialized. */
  ghost function ReadySet(descs: map<nat, Desc>, rt: map<nat, Runtime>, phase: nat): set<nat>
    requires rt.Keys == descs.Keys
  {
    set id | id in Pending(descs, rt, phase) && DepsInitialized(rt, descs[id].deps)
  }

  ghost predicate IsLeast(c: Option<nat>, s: set<nat>) {
    if c.None? then s == {} else c.value in s && forall x :: x in s ==> c.value <= x
  }

  ghost predicate OnlySkips(descs: map<nat, Desc>, phase: nat, rt: map<nat, Runtime>, rt': map<nat, Runtime>) {
    && rt.Keys == rt'.Keys == descs.Keys
    && forall id :: id in descs ==>
         || rt'[id] == rt[id]
         || (id in Pending(descs, rt, phase) && !DepsInitialized(rt, descs[id].deps)
             && rt'[id] == rt[id].(state := Skipped, lastError := ErrDependency))
  }

  lemma {:induction false} ReadyMeansInitialized(rt: map<nat, Runtime>, deps: seq<nat>)
    requires Tidy(rt)
    ensures CheckDeps(rt, deps, false) == Ready <==> DepsInitialized(rt, deps)
  {
    if deps != [] {
      ReadyMeansInitialized(rt, deps[1..]);
      assert deps == [deps[0]] + deps[1..];
    }
  }

  lemma {:induction false} HealthyDepsNeverFail(rt: map<nat, Runtime>, deps: seq<nat>)
    requires forall d :: d in deps ==> d in rt && !rt[d].state.Failed? && !rt[d].state.Skipped?
    ensures CheckDeps(rt, deps, false) != DepFailed
  {
    if deps != [] {
      HealthyDepsNeverFail(rt, deps[1..]);
    }
  }

  lemma {:induction false} OnlySkipsTrans(descs: map<nat, Desc>, phase: nat, rt0: map<nat, Runtime>, rt1: map<nat,
                                          Runtime>, rt2: map<nat, Runtime>)
    requires Tidy(rt0) && OnlySkips(descs, phase, rt0, rt1) && OnlySkips(descs, phase, rt1, rt2)
    ensures OnlySkips(descs, phase, rt0, rt2)
  {
  }

  /** A scan only skips pending components whose dependencies are not all initialized; it reports whether it
      skipped any, and whether it saw anything pending. */
  lemma {:induction false} ScanSkips(descs: map<nat, Desc>, order: seq<nat>, rt: map<nat, Runtime>, phase: nat,
                                     pending: nat, skipped: bool, candidate: Option<nat>)
    requires rt.Keys == descs.Keys && Tidy(rt) && forall id :: id in order ==> id in descs
    ensures var s := ScanFrom(descs, order, rt, phase, pending, skipped, candidate);
            && OnlySkips(descs, phase, rt, s.rt) && Tidy(s.rt)
            && (s.ScanDone? ==> (s.skipped <==> skipped || s.rt != rt))
            && (s.ScanDone? ==> s.pending >= pending)
            && (s.ScanDone? ==> (s.pending == pending <==> forall id :: id in order ==> id !in Pending(descs, rt, phase)))
  {
    if order != [] {
      var id, rest := order[0], order[1..];
      assert order == [id] + rest;
      if id in Pending(descs, rt, phase) {
        match CheckDeps(rt, descs[id].deps, false)
        case DepFailed =>
          var rt' := SetState(rt, id, Skipped, ErrDependency);
          ReadyMeansInitialized(rt, descs[id].deps);
          assert rt'[id] != rt[id];
          assert OnlySkips(descs, phase, rt, rt') && Tidy(rt');
          if !descs[id].Required() {
            ScanSkips(descs, rest, rt', phase, pending + 1, true, candidate);
            var s := ScanFrom(descs, rest, rt', phase, pending + 1, true, candidate);
            assert s.rt[id] == rt'[id];
            OnlySkipsTrans(descs, phase, rt, rt', s.rt);
          }
        case Ready =>
          ScanSkips(descs, rest, rt, phase, pending + 1, skipped, Better(id, candidate));
        case Waiting =>
          ScanSkips(descs, rest, rt, phase, pending + 1, skipped, candidate);
      } else {
        ScanSkips(descs, rest, rt, phase, pending, skipped, candidate);
      }
    }
  }

  lemma {:induction false} SkipsKeepReady(descs: map<nat, Desc>, phase: nat, rt: map<nat, Runtime>, rt': map<nat,
                                          Runtime>)
    requires OnlySkips(descs, phase, rt, rt')
    ensures ReadySet(descs, rt', phase) == ReadySet(descs, rt, phase)
  {
    forall id | id in descs
      ensures DepsInitialized(rt', descs[id].deps) <==> DepsInitialized(rt, descs[id].deps)
    {
    }
  }

  /** A scan that completes leaves in `candidate` the smallest ready id, whatever the order of the table. */
  lemma {:induction false} ScanPicksLeast(descs: map<nat, Desc>, order: seq<nat>, rt: map<nat, Runtime>, phase: nat,
                                          pending: nat, skipped: bool, candidate: Option<nat>, ready: set<nat>)
    requires rt.Keys == descs.Keys && Tidy(rt) && forall id :: id in order ==> id in descs
    requires ready == ReadySet(descs, rt, phase)
    ensures var s := ScanFrom(descs, order, rt, phase, pending, skipped, candidate);
            s.ScanDone? ==> KeepsLeast(s.candidate, candidate, order, ready)
  {
    if order != [] {
      var id, rest := order[0], order[1..];
      assert order == [id] + rest;
      ReadyMeansInitialized(rt, descs[id].deps);
      if id !in Pending(descs, rt, phase) {
        ScanPicksLeast(descs, rest, rt, phase, pending, skipped, candidate, ready);
      } else {
        match CheckDeps(rt, descs[id].deps, false)
        case DepFailed =>
          var rt' := SetState(rt, id, Skipped, ErrDependency);
          assert OnlySkips(descs, phase, rt, rt') && Tidy(rt');
          SkipsKeepReady(descs, phase, rt, rt');
          if !descs[id].Required() {
            ScanPicksLeast(descs, rest, rt', phase, pending + 1, true, candidate, ready);
          }
        case Ready =>
          ScanPicksLeast(descs, rest, rt, phase, pending + 1, skipped, Better(id, candidate), ready);
        case Waiting =>
          ScanPicksLeast(descs, rest, rt, phase, pending + 1, skipped, candidate, ready);
      }
    }
  }

  ghost predicate KeepsLeast(c: Option<nat>, before: Option<nat>, order: seq<nat>, ready: set<nat>) {
    if c.None? then
      before.None? && forall id :: id in order ==> id !in ready
    else
      && (c == before || (c.value in order && c.value in ready))
      && (before.Some? ==> c.value <= before.value)
      && forall id :: id in order && id in ready ==> c.value <= id
  }

  /** Everything the other proofs use about one scan of the whole table. */
  lemma FullScanFacts(t: Table, e: Engine, phase: nat)
    requires Linked(t)
    requires Sized(t, e) && Tidy(e.rt)
    ensures var s := FullScan(t, e, phase);
            && OnlySkips(t.descs, phase, e.rt, s.rt) && Tidy(s.rt)
            && Pending(t.descs, s.rt, phase) <= Pending(t.descs, e.rt, phase)
            && ReadySet(t.descs, s.rt, phase) == ReadySet(t.descs, e.rt, phase)
            && (s.ScanDone? ==>
                  && IsLeast(s.candidate, ReadySet(t.descs, e.rt, phase))
                  && (s.pending == 0 <==> Pending(t.descs, e.rt, phase) == {})
                  && (s.skipped <==> s.rt != e.rt)
                  && (s.skipped ==> Pending(t.descs, s.rt, phase) < Pending(t.descs, e.rt, phase)))
  {
    ScanSkips(t.descs, t.order, e.rt, phase, 0, false, None);
    ScanPicksLeast(t.descs, t.order, e.rt, phase, 0, false, None, ReadySet(t.descs, e.rt, phase));
    var s := FullScan(t, e, phase);
    SkipsKeepReady(t.descs, phase, e.rt, s.rt);
    if s.rt != e.rt {
      var id :| id in t.descs && s.rt[id] != e.rt[id];
      assert id in Pending(t.descs, e.rt, phase) && id !in Pending(t.descs, s.rt, phase);
    }
  }

  // ----- initialisation

  function InitializeComponent(e: Engine, d: Desc, cb: Callbacks): (r: (Engine, Outcome))
    requires d.id in e.rt
    ensures r.0.rt.Keys == e.rt.Keys && Honest(r.1) && (r.1.Done? || r.1.CallbackFailed?)
  {
    var call := Invoke(e, d, Init, cb);
    var e' := e.(trace := e.trace + [call]);
    if call.result != Ok then
      (e'.(rt := SetState(e.rt, d.id, Failed, call.result)),
       if d.Required() then CallbackFailed(d.id, call.result) else Done)
    else
      (e'.(rt := e.rt[d.id := e.rt[d.id].(state := Initialized, lastError := Ok, initialized := true)],
           initOrder := e.initOrder + [d.id]),
       Done)
  }

  /** One round of initialize_phase's retry loop: a scan, then at most one init. */
  datatype Round = Finished(e: Engine, outcome: Outcome) | Again(e: Engine)

  function PhaseRound(t: Table, e: Engine, phase: nat, cb: Callbacks): (r: Round)
    requires Linked(t)
    requires Sized(t, e) && Tidy(e.rt)
    ensures Sized(t, r.e) && Tidy(r.e.rt) && (r.Finished? ==> Honest(r.outcome))
    ensures r.Again? ==> |Pending(t.descs, r.e.rt, phase)| < |Pending(t.descs, e.rt, phase)|
  {
    FullScanFacts(t, e, phase);
    match FullScan(t, e, phase)
    case ScanRefused(rt, id) => Finished(e.(rt := rt), RequiredSkipped(id))
    case ScanDone(rt, pending, skipped, candidate) =>
      var e1 := e.(rt := rt);
      if pending == 0 then
        Finished(e1, Done)
      else if candidate.None? then
        if skipped then
          SmallerSet(Pending(t.descs, rt, phase), Pending(t.descs, e.rt, phase));
          Again(e1)
        else
          Finished(e1, NoProgress)
      else
        var (e2, outcome) := InitializeComponent(e1, t.descs[candidate.value], cb);
        InitShrinksPending(t, e1, phase, candidate.value, cb);
        SubsetSize(Pending(t.descs, rt, phase), Pending(t.descs, e.rt, phase));
        if outcome != Done then Finished(e2, outcome) else Again(e2)
  }

  lemma InitShrinksPending(t: Table, e: Engine, phase: nat, id: nat, cb: Callbacks)
    requires Sized(t, e) && Tidy(e.rt) && id in Pending(t.descs, e.rt, phase)
    ensures var e' := InitializeComponent(e, t.descs[id], cb).0;
            Sized(t, e') && Tidy(e'.rt) && |Pending(t.descs, e'.rt, phase)| < |Pending(t.descs, e.rt, phase)|
  {
    var e' := InitializeComponent(e, t.descs[id], cb).0;
    assert id !in Pending(t.descs, e'.rt, phase);
    SmallerSet(Pending(t.descs, e'.rt, phase), Pending(t.descs, e.rt, phase));
  }

  /** initialize_phase; `|Pending|` falls in every round, which is why its retry loop ends. */
  function InitializePhase(t: Table, e: Engine, phase: nat, cb: Callbacks): (r: (Engine, Outcome))
    requires Linked(t)
    requires Sized(t, e) && Tidy(e.rt)
    ensures Sized(t, r.0) && Tidy(r.0.rt) && Honest(r.1)
    decreases |Pending(t.descs, e.rt, phase)|
  {
    match PhaseRound(t, e, phase, cb)
    case Finished(e', outcome) => (e', outcome)
    case Again(e') => InitializePhase(t, e', phase, cb)
  }

  function InitializeFrom(t: Table, e: Engine, phase: nat, cb: Callbacks): (r: (Engine, Outcome))
    requires Linked(t)
    requires phase <= PHASE_COUNT && Sized(t, e) && Tidy(e.rt)
    ensures Sized(t, r.0) && Tidy(r.0.rt) && Honest(r.1)
    decreases PHASE_COUNT - phase
  {
    if phase == PHASE_COUNT then (e, Done)
    else
      var (e1, outcome) := InitializePhase(t, e, phase, cb);
      if outcome != Done then (e1, outcome) else InitializeFrom(t, e1, phase + 1, cb)
  }

  // ----- start, stop and deinit

  function DropInitialized(e: Engine, d: Desc, op: Op, cb: Callbacks): (r: Engine)
    requires d.id in e.rt
    ensures r.rt.Keys == e.rt.Keys
  {
    e.(rt := e.rt[d.id := e.rt[d.id].(initialized := false)], trace := e.trace + [Invoke(e, d, op, cb)])
  }

  function StartComponent(e: Engine, d: Desc, cb: Callbacks): (r: (Engine, Outcome))
    requires d.id in e.rt
    ensures r.0.rt.Keys == e.rt.Keys && Honest(r.1)
  {
    if CheckDeps(e.rt, d.deps, true) != Ready then
      var e1 := e.(rt := SetState(e.rt, d.id, Skipped, ErrDependency));
      if d.Required() then (e1, RequiredSkipped(d.id))
      else if e1.rt[d.id].initialized then (DropInitialized(e1, d, EarlyDeinit, cb), Done)
      else (e1, Done)
    else
      var call := Invoke(e, d, Start, cb);
      var e1 := e.(trace := e.trace + [call]);
      if call.result != Ok then
        var e2 := e1.(rt := SetState(e.rt, d.id, Failed, call.result));
        if d.Required() then (e2, CallbackFailed(d.id, call.result))
        else (DropInitialized(e2, d, EarlyDeinit, cb), Done)
      else
        (e1.(rt := e.rt[d.id := e.rt[d.id].(state := Running, lastError := Ok, started := true)],
             startOrder := e.startOrder + [d.id]),
         Done)
  }

  function StartFrom(t: Table, e: Engine, i: nat, cb: Callbacks): (r: (Engine, Outcome))
    requires Sized(t, e) && i <= |e.initOrder|
    ensures Sized(t, r.0) && Honest(r.1)
    decreases |e.initOrder| - i
  {
    if i == |e.initOrder| then (e, Done)
    else
      var (e1, outcome) := StartComponent(e, t.descs[e.initOrder[i]], cb);
      if outcome != Done then (e1, outcome) else StartFrom(t, e1, i + 1, cb)
  }

  function StopLast(t: Table, e: Engine, cb: Callbacks): (r: (Engine, SysErr))
    requires Sized(t, e) && e.startOrder != []
    ensures Sized(t, r.0) && |r.0.startOrder| < |e.startOrder|
  {
    var id := e.startOrder[|e.startOrder| - 1];
    var call := Invoke(e, t.descs[id], Stop, cb);
    var r := e.rt[id].(started := false);
    (e.(rt := e.rt[id := if call.result != Ok then r.(state := Failed, lastError := call.result)
                         else r.(state := Stopped)],
        startOrder := e.startOrder[..|e.startOrder| - 1], trace := e.trace + [call]),
     call.result)
  }

  /** stop_started_components: the engine afterwards and the first stop error. */
  function StopStarted(t: Table, e: Engine, cb: Callbacks): (r: (Engine, SysErr))
    requires Sized(t, e)
    ensures Sized(t, r.0) && r.0.startOrder == [] && r.0.initOrder == e.initOrder
    decreases |e.startOrder|
  {
    if e.startOrder == [] then (e, Ok)
    else
      var (e1, error) := StopLast(t, e, cb);
      var (e2, later) := StopStarted(t, e1, cb);
      (e2, if error != Ok then error else later)
  }

  function DeinitLast(t: Table, e: Engine, cb: Callbacks): (r: Engine)
    requires Sized(t, e) && e.initOrder != []
    ensures Sized(t, r) && |r.initOrder| < |e.initOrder| && r.startOrder == e.startOrder
  {
    var id := e.initOrder[|e.initOrder| - 1];
    var e1 := e.(initOrder := e.initOrder[..|e.initOrder| - 1]);
    if !e.rt[id].initialized then e1
    else
      var e2 := DropInitialized(e1, t.descs[id], Deinit, cb);
      if e.rt[id].state.Failed? || e.rt[id].state.Skipped? then e2
      else e2.(rt := e2.rt[id := e2.rt[id].(state := Stopped)])
  }

  function DeinitializeAll(t: Table, e: Engine, cb: Callbacks): (r: Engine)
    requires Sized(t, e)
    ensures Sized(t, r) && r.initOrder == [] && r.startOrder == e.startOrder
    decreases |e.initOrder|
  {
    if e.initOrder == [] then e else DeinitializeAll(t, DeinitLast(t, e, cb), cb)
  }

  function Rollback(t: Table, e: Engine, cb: Callbacks): (r: (Engine, SysErr))
    requires Sized(t, e)
    ensures Sized(t, r.0) && r.0.initOrder == [] && r.0.startOrder == []
  {
    var (e1, error) := StopStarted(t, e, cb);
    (DeinitializeAll(t, e1, cb), error)
  }

  // ----- start_all

  function Collect(section: seq<Desc>): (ds: seq<Desc>)
    ensures |ds| <= |section|
    ensures forall d :: d in ds <==> d in section && d.hasInit
  {
    if section == [] then []
    else if !section[0].hasInit then Collect(section[1..])
    else [section[0]] + Collect(section[1..])
  }

  function Ids(ds: seq<Desc>): (ids: seq<nat>)
    ensures |ids| == |ds| && forall i :: 0 <= i < |ds| ==> ids[i] == ds[i].id
  {
    seq(|ds|, i requires 0 <= i < |ds| => ds[i].id)
  }

  /** find_component: the position of the first descriptor with that id. */
  function Find(ds: seq<Desc>, id: nat): (i: Option<nat>)
    ensures i.Some? ==> i.value < |ds| && ds[i.value].id == id
  {
    if ds == [] then None
    else if ds[0].id == id then Some(0)
    else match Find(ds[1..], id) case None => None case Some(k) => Some(k + 1)
  }

  function CheckDepTargets(ds: seq<Desc>, d: Desc, j: nat): SysErr
    requires j <= |d.deps|
    decreases |d.deps| - j
  {
    if j == |d.deps| then Ok
    else match Find(ds, d.deps[j])
      case None => ErrDependency
      case Some(k) => if ds[k].phase > d.phase then ErrDependency else CheckDepTargets(ds, d, j + 1)
  }

  function ValidateFrom(ds: seq<Desc>, i: nat): SysErr
    requires i <= |ds|
    decreases |ds| - i
  {
    if i == |ds| then Ok
    else
      var d := ds[i];
      if d.id == 0 || !d.named || !d.hasInit || d.phase >= PHASE_COUNT || d.policy > OPTIONAL then ErrInvalidParam
      else if Find(ds[i + 1..], d.id).Some? then ErrAlreadyExists
      else
        var targets := CheckDepTargets(ds, d, 0);
        if targets != Ok then targets else ValidateFrom(ds, i + 1)
  }

  function DescMap(ds: seq<Desc>): map<nat, Desc> {
    if ds == [] then map[] else DescMap(ds[1..])[ds[0].id := ds[0]]
  }

  lemma {:induction false} DescMapSound(ds: seq<Desc>)
    ensures forall d :: d in ds ==> d.id in DescMap(ds)
    ensures forall id :: id in DescMap(ds) ==> DescMap(ds)[id] in ds && DescMap(ds)[id].id == id
  {
    if ds != [] {
      DescMapSound(ds[1..]);
      assert ds == [ds[0]] + ds[1..];
    }
  }

  function TableOf(ds: seq<Desc>): Table {
    Table(DescMap(ds), Ids(ds))
  }

  function Discover(ds: seq<Desc>): Engine {
    Engine(map id | id in DescMap(ds) :: Runtime(Discovered, Ok, false, false), [], [], [])
  }

  lemma DiscoveredShape(ds: seq<Desc>)
    ensures Linked(TableOf(ds)) && Sized(TableOf(ds), Discover(ds)) && Tidy(Discover(ds).rt)
  {
    DescMapSound(ds);
    var ids := Ids(ds);
    forall id | id in DescMap(ds)
      ensures id in ids
    {
      var k :| 0 <= k < |ds| && ds[k] == DescMap(ds)[id];
      assert ids[k] == id;
    }
    forall id | id in ids
      ensures id in DescMap(ds)
    {
      var k :| 0 <= k < |ds| && ids[k] == id;
      assert ds[k] in ds;
    }
  }

  /** start_all after a successful collection: phases, then starts, with rollback on the first error. */
  function Launch(t: Table, e: Engine, cb: Callbacks): (r: (Engine, Outcome))
    requires Linked(t)
    requires Sized(t, e) && Tidy(e.rt)
    ensures Sized(t, r.0) && Honest(r.1)
  {
    var (e1, outcome) := InitializeFrom(t, e, 0, cb);
    if outcome != Done then (Rollback(t, e1, cb).0, outcome)
    else
      var (e2, outcome2) := StartFrom(t, e1, 0, cb);
      if outcome2 != Done then (Rollback(t, e2, cb).0, outcome2) else (e2, Done)
  }

  function StartAll(section: seq<Desc>, before: Engine, cb: Callbacks): (Engine, SysErr) {
    if |section| > MAX_COMPONENTS then (before, ErrOverflow)
    else
      var ds := Collect(section);
      if ValidateFrom(ds, 0) != Ok then (Discover(ds), ValidateFrom(ds, 0))
      else
        DiscoveredShape(ds);
        var (e, outcome) := Launch(TableOf(ds), Discover(ds), cb);
        (e, Code(outcome))
  }
}
