/** The engine as the program keeps it: a fixed table of runtime records and two fixed order arrays,
    updated in place by loops. Every method is proved to do what ComponentModel says. */
module ComponentEngine {
  import opened SysTypes
  import opened ComponentModel
  import opened ComponentLifecycle
  import opened ComponentTable
  import opened ComponentTheorems

  /** `sys_component_runtime_t`: a descriptor and its runtime record. */
  datatype Component = Component(desc: Desc, rt: Runtime)

  ghost predicate UniqueIds(ds: seq<Desc>) {
    forall i, j :: 0 <= i < j < |ds| ==> ds[i].id != ds[j].id
  }

  lemma UniqueIsDistinct(ds: seq<Desc>)
    ensures UniqueIds(ds) <==> Distinct(Ids(ds))
  {
    if Distinct(Ids(ds)) {
      forall i: nat, j: nat | i < j < |ds|
        ensures ds[i].id != ds[j].id
      {
        DistinctPair(Ids(ds), i, j);
      }
    }
  }

  lemma FindKnown(ds: seq<Desc>, id: nat)
    ensures id in DescMap(ds) <==> Find(ds, id).Some?
  {
    hide DescMap;
    DescMapSound(ds);
    FindFirst(ds, id);
    if Find(ds, id).Some? {
      assert ds[Find(ds, id).value] in ds;
    }
  }

  /** A later write to the same record hides an earlier one. */
  lemma {:induction false} UpdateTwice(m: map<nat, Runtime>, id: nat, a: Runtime, b: Runtime)
    ensures m[id := a][id := b] == m[id := b]
  {
  }

  lemma CollectNext(section: seq<Desc>, i: nat)
    requires i < |section|
    ensures Collect(section[i..]) == (if section[i].hasInit then [section[i]] else []) + Collect(section[i + 1..])
  {
    assert section[i..][0] == section[i] && section[i..][1..] == section[i + 1..];
  }

  lemma CollectEnd(section: seq<Desc>)
    ensures Collect(section[|section|..]) == []
  {
    assert section[|section|..] == [];
  }

  class Components {
    const components: array<Component>
    var count: nat
    const initializedOrder: array<nat>
    var initializedCount: nat
    const startedOrder: array<nat>
    var startedCount: nat
    // The calls made into the components since the last collection.
    var trace: seq<Call>

    // The collected descriptors in link order, and the engine they stand for.
    ghost var table: seq<Desc>
    ghost var model: Engine

    /** An order array holds the positions of the components the model lists by id. */
    ghost predicate Lists(order: seq<nat>, ids: seq<nat>)
      reads this`table
    {
      && |order| == |ids|
      && forall k :: 0 <= k < |order| ==> order[k] < |table| && ids[k] == table[order[k]].id
    }

    ghost predicate Records()
      reads this`count, this`table, this`model, components
      requires count <= components.Length
    {
      && count == |table|
      && model.rt.Keys == DescMap(table).Keys
      && forall i :: 0 <= i < count ==>
           && components[i].desc == table[i]
           && table[i].id in model.rt && model.rt[table[i].id] == components[i].rt
    }

    ghost predicate Valid()
      reads this, components, initializedOrder, startedOrder
    {
      && components.Length == initializedOrder.Length == startedOrder.Length == MAX_COMPONENTS
      && initializedOrder != startedOrder
      && count <= MAX_COMPONENTS && initializedCount <= MAX_COMPONENTS && startedCount <= MAX_COMPONENTS
      && Records()
      && Lists(initializedOrder[..initializedCount], model.initOrder)
      && Lists(startedOrder[..startedCount], model.startOrder)
      && model.trace == trace
    }

    constructor ()
      ensures Valid() && model == Engine(map[], [], [], []) && table == []
      ensures fresh(components) && fresh(initializedOrder) && fresh(startedOrder)
    {
      components := new Component[MAX_COMPONENTS];
      initializedOrder := new nat[MAX_COMPONENTS];
      startedOrder := new nat[MAX_COMPONENTS];
      count, initializedCount, startedCount, trace := 0, 0, 0, [];
      table, model := [], Engine(map[], [], [], []);
    }

    /** Writes one runtime record. */
    method Store(i: nat, r: Runtime)
      requires Valid() && UniqueIds(table) && i < count
      modifies components, this`model
      ensures Valid()
      ensures components[i] == Component(table[i], r)
      ensures model == old(model).(rt := old(model).rt[table[i].id := r])
    {
      components[i] := Component(components[i].desc, r);
      model := model.(rt := model.rt[table[i].id := r]);
    }

    method UpdateState(i: nat, state: State, error: SysErr)
      requires Valid() && UniqueIds(table) && i < count
      modifies components, this`model
      ensures Valid()
      ensures components[i] == Component(table[i], old(components[i].rt).(state := state, lastError := error))
      ensures model == old(model).(rt := old(model).rt[table[i].id := components[i].rt])
    {
      Store(i, components[i].rt.(state := state, lastError := error));
    }

    /** Calls a hook of component `i`, if it has one, and records the action. */
    method Perform(op: Op, i: nat, cb: Callbacks) returns (r: SysErr)
      requires Valid() && i < count
      modifies this`trace, this`model
      ensures Valid()
      ensures model == old(model).(trace := old(model).trace + [Invoke(old(model), table[i], op, cb)])
      ensures r == Invoke(old(model), table[i], op, cb).result
    {
      var d := components[i].desc;
      r := Ok;
      if Hook(d, op) {
        r := cb(trace, op, d.id);
      }
      trace := trace + [Call(op, d.id, Hook(d, op), r)];
      model := model.(trace := trace);
    }

    method PushInitialized(i: nat)
      requires Valid() && i < count && initializedCount < MAX_COMPONENTS
      modifies this`initializedCount, initializedOrder, this`model
      ensures Valid()
      ensures model == old(model).(initOrder := old(model).initOrder + [table[i].id])
    {
      initializedOrder[initializedCount] := i;
      initializedCount := initializedCount + 1;
      model := model.(initOrder := model.initOrder + [table[i].id]);
    }

    method PushStarted(i: nat)
      requires Valid() && i < count && startedCount < MAX_COMPONENTS
      modifies this`startedCount, startedOrder, this`model
      ensures Valid()
      ensures model == old(model).(startOrder := old(model).startOrder + [table[i].id])
    {
      startedOrder[startedCount] := i;
      startedCount := startedCount + 1;
      model := model.(startOrder := model.startOrder + [table[i].id]);
    }

    // ----- lookup, dependency check and validation

    method FindComponent(id: nat) returns (r: Option<nat>)
      requires Valid()
      ensures r == Find(table, id)
    {
      for i := 0 to count
        invariant forall k :: 0 <= k < i ==> table[k].id != id
      {
        if components[i].desc.id == id {
          FindFirst(table, id);
          return Some(i);
        }
      }
      FindFirst(table, id);
      return None;
    }

    method CheckDependencies(i: nat, requireRunning: bool) returns (r: DepResult)
      requires Valid() && i < count
      ensures r == CheckDeps(model.rt, table[i].deps, requireRunning)
    {
      hide Find, DescMap;
      var deps := components[i].desc.deps;
      assert deps[0..] == deps;
      for j := 0 to |deps|
        invariant CheckDeps(model.rt, deps, requireRunning) == CheckDeps(model.rt, deps[j..], requireRunning)
      {
        var found := FindComponent(deps[j]);
        FindKnown(table, deps[j]);
        assert deps[j..][1..] == deps[j + 1..];
        if found.None? || components[found.value].rt.state.Failed? || components[found.value].rt.state.Skipped? {
          return DepFailed;
        }
        if requireRunning && !components[found.value].rt.state.Running? {
          return Waiting;
        }
        if !requireRunning && !components[found.value].rt.initialized {
          return Waiting;
        }
      }
      return Ready;
    }

    method DuplicatedLater(i: nat) returns (r: bool)
      requires Valid() && i < count
      ensures r == Find(table[i + 1..], table[i].id).Some?
    {
      hide Find, DescMap;
      FoundLater(table, i);
      for j := i + 1 to count
        invariant forall k :: i < k < j ==> table[k].id != table[i].id
      {
        if components[j].desc.id == components[i].desc.id {
          return true;
        }
      }
      return false;
    }

    method CheckTargets(i: nat) returns (r: SysErr)
      requires Valid() && i < count
      ensures r == CheckDepTargets(table, table[i], 0)
    {
      hide Find, DescMap;
      var d := components[i].desc;
      for j := 0 to |d.deps|
        invariant CheckDepTargets(table, d, 0) == CheckDepTargets(table, d, j)
      {
        var found := FindComponent(d.deps[j]);
        if found.None? || components[found.value].desc.phase > d.phase {
          return ErrDependency;
        }
      }
      return Ok;
    }

    method ValidateComponents() returns (r: SysErr)
      requires Valid()
      ensures r == ValidateFrom(table, 0)
    {
      hide Find, DescMap, CheckDepTargets;
      for i := 0 to count
        invariant ValidateFrom(table, 0) == ValidateFrom(table, i)
      {
        var d := components[i].desc;
        if d.id == 0 || !d.named || !d.hasInit || d.phase >= PHASE_COUNT || d.policy > OPTIONAL {
          return ErrInvalidParam;
        }
        var duplicated := DuplicatedLater(i);
        if duplicated {
          return ErrAlreadyExists;
        }
        var targets := CheckTargets(i);
        if targets != Ok {
          return targets;
        }
      }
      return Ok;
    }

    method CollectComponents(section: seq<Desc>) returns (r: SysErr)
      requires Valid()
      modifies this, components
      ensures Valid()
      ensures |section| > MAX_COMPONENTS ==> r == ErrOverflow && unchanged(this) && unchanged(components)
      ensures |section| <= MAX_COMPONENTS ==>
                && table == Collect(section) && model == Discover(table) && r == ValidateFrom(table, 0)
                && initializedCount == startedCount == 0
    {
      if |section| > MAX_COMPONENTS {
        return ErrOverflow;
      }
      Gather(section);
      FreshRecords();
      FreshLists();
      hide DescMap, Records, Lists, Collect, Discover, Fresh;
      r := ValidateComponents();
    }

    ghost predicate Fresh()
      reads this`count, this`table, components
    {
      && count == |table| <= components.Length
      && forall k :: 0 <= k < count ==> components[k] == Component(table[k], Runtime(Discovered, Ok, false, false))
    }

    method Append(d: Desc)
      requires Fresh() && count < components.Length
      modifies this`count, this`table, components
      ensures Fresh() && table == old(table) + [d] && count == old(count) + 1
    {
      components[count] := Component(d, Runtime(Discovered, Ok, false, false));
      count := count + 1;
      table := table + [d];
    }

    method Gather(section: seq<Desc>)
      requires Valid() && |section| <= MAX_COMPONENTS
      modifies this, components
      ensures Fresh() && table == Collect(section) && model == Discover(table) && trace == []
      ensures initializedCount == startedCount == 0
    {
      initializedCount, startedCount, trace := 0, 0, [];
      count, table := 0, [];
      AppendAll(section);
      model := Discover(table);
    }

    method AppendAll(section: seq<Desc>)
      requires Fresh() && table == [] && |section| <= components.Length
      modifies this`count, this`table, components
      ensures Fresh() && table == Collect(section)
    {
      assert section[0..] == section && count == 0;
      hide DescMap, Collect, Fresh;
      for i := 0 to |section|
        invariant count <= i && Fresh()
        invariant Collect(section) == table + Collect(section[i..])
      {
        AppendStep(table, section, i);
        if section[i].hasInit {
          Append(section[i]);
        }
      }
      CollectEnd(section);
    }

    lemma FreshLists()
      requires initializedCount == startedCount == 0 && model == Discover(table)
      requires components.Length == initializedOrder.Length == startedOrder.Length == MAX_COMPONENTS
      ensures Lists(initializedOrder[..initializedCount], model.initOrder)
      ensures Lists(startedOrder[..startedCount], model.startOrder)
    {
    }

    lemma FreshRecords()
      requires Fresh() && model == Discover(table)
      ensures Records()
    {
      hide DescMap;
      DescMapSound(table);
      forall k | 0 <= k < count
        ensures table[k].id in model.rt && model.rt[table[k].id] == components[k].rt
      {
        assert table[k] in table;
      }
    }

    // ----- initialisation

    ghost function Tab(): Table
      reads this`table
    {
      TableOf(table)
    }

    /** The table agrees with the model's map of descriptors. */
    lemma DescAt(i: nat)
      requires Valid() && UniqueIds(table) && i < count
      ensures table[i].id in Tab().descs && Tab().descs[table[i].id] == table[i]
      ensures table[i].id in model.rt && model.rt[table[i].id] == components[i].rt
    {
      UniqueIsDistinct(table);
      DescMapHolds(table);
      assert table[i] in table;
    }

    method HandleDependencyFailure(i: nat) returns (r: SysErr)
      requires Valid() && UniqueIds(table) && i < count
      modifies components, this`model
      ensures Valid() && table[i].id in old(model).rt
      ensures model == old(model).(rt := SetState(old(model).rt, table[i].id, Skipped, ErrDependency))
      ensures r == if table[i].Required() then ErrDependency else Ok
    {
      hide DescMap, UniqueIds, Lists;
      UpdateState(i, Skipped, ErrDependency);
      if components[i].desc.policy == REQUIRED {
        return ErrDependency;
      }
      return Ok;
    }

    method InitializeComponent(i: nat, cb: Callbacks) returns (r: SysErr)
      requires Valid() && UniqueIds(table) && i < count && initializedCount < MAX_COMPONENTS
      modifies this`model, this`trace, this`initializedCount, components, initializedOrder
      ensures Valid() && table[i].id in old(model).rt
      ensures var (e, outcome) := ComponentModel.InitializeComponent(old(model), table[i], cb);
              model == e && r == Code(outcome)
    {
      hide DescMap, UniqueIds, Lists;
      var d := components[i].desc;
      ghost var rt := model.rt;
      UpdateState(i, Initializing, Ok);
      ghost var r1 := components[i].rt;
      r := Perform(Init, i, cb);
      if r != Ok {
        UpdateState(i, Failed, r);
        UpdateTwice(rt, d.id, r1, components[i].rt);
        if d.policy != REQUIRED {
          r := Ok;
        }
      } else {
        Store(i, components[i].rt.(initialized := true));
        UpdateTwice(rt, d.id, r1, components[i].rt);
        ghost var r2 := components[i].rt;
        PushInitialized(i);
        UpdateState(i, Initialized, Ok);
        UpdateTwice(rt, d.id, r2, components[i].rt);
      }
    }

    ghost function IdOf(candidate: Option<nat>): Option<nat>
      requires candidate.Some? ==> candidate.value < |table|
      reads this`table
    {
      if candidate.None? then None else Some(table[candidate.value].id)
    }

    /** One component of the scan. */
    method Visit(phase: nat, i: nat, pending: nat, skipped: bool, candidate: Option<nat>)
      returns (refused: bool, pending': nat, skipped': bool, candidate': Option<nat>)
      requires Valid() && UniqueIds(table) && i < count && model.rt.Keys == Tab().descs.Keys
      requires candidate.Some? ==> candidate.value < count
      requires forall id :: id in Tab().order ==> id in Tab().descs
      modifies components, this`model
      ensures Valid() && model == old(model).(rt := model.rt) && model.rt.Keys == Tab().descs.Keys
      ensures candidate'.Some? ==> candidate'.value < count
      ensures ScanFrom(Tab().descs, Tab().order[i..], old(model).rt, phase, pending, skipped, IdOf(candidate))
              == if refused then ScanRefused(model.rt, table[i].id)
                 else ScanFrom(Tab().descs, Tab().order[i + 1..], model.rt, phase, pending', skipped', IdOf(candidate'))
    {
      hide DescMap, UniqueIds, Lists, CheckDeps, Ids;
      DescAt(i);
      assert Tab().order[i..][0] == table[i].id && Tab().order[i..][1..] == Tab().order[i + 1..];
      refused, pending', skipped', candidate' := false, pending, skipped, candidate;
      if components[i].rt.state.Discovered? && components[i].desc.phase == phase {
        pending' := pending + 1;
        var dependencies := CheckDependencies(i, false);
        if dependencies.DepFailed? {
          var r := HandleDependencyFailure(i);
          refused, skipped' := r != Ok, skipped || r == Ok;
        } else if dependencies.Ready? {
          if candidate.None? || components[i].desc.id < components[candidate.value].desc.id {
            candidate' := Some(i);
          }
        }
      }
    }

    /** The scan that opens a round of initialize_phase. */
    method Scan(phase: nat) returns (refused: bool, pending: nat, skipped: bool, candidate: Option<nat>)
      requires Valid() && UniqueIds(table) && Linked(Tab()) && Sized(Tab(), model)
      modifies components, this`model
      ensures Valid() && (candidate.Some? ==> candidate.value < count)
      ensures var s := FullScan(Tab(), old(model), phase);
              && model == old(model).(rt := s.rt)
              && refused == s.ScanRefused?
              && (!refused ==> pending == s.pending && skipped == s.skipped && IdOf(candidate) == s.candidate)
    {
      ghost var t := Tab();
      ghost var e := model;
      refused, pending, skipped, candidate := false, 0, false, None;
      assert t.order[0..] == t.order && |t.order| == count == |table| && e.rt.Keys == t.descs.Keys;
      hide ScanFrom, Sized, DescMap, UniqueIds, Valid;
      for i := 0 to count
        invariant Valid() && count == |table| == |t.order| && !refused && (candidate.Some? ==> candidate.value < count)
        invariant model == e.(rt := model.rt) && model.rt.Keys == t.descs.Keys
        invariant FullScan(t, e, phase)
               == ScanFrom(t.descs, t.order[i..], model.rt, phase, pending, skipped, IdOf(candidate))
      {
        refused, pending, skipped, candidate := Visit(phase, i, pending, skipped, candidate);
        if refused {
          return;
        }
      }
      assert t.order[count..] == [];
      ScanOfNothing(t.descs, model.rt, phase, pending, skipped, IdOf(candidate));
    }

    lemma CountsMatch()
      requires Valid()
      ensures initializedCount == |model.initOrder| && startedCount == |model.startOrder| && count == |table|
      ensures |Tab().order| == count <= MAX_COMPONENTS && trace == model.trace
    {
    }

    /** The candidate a scan found can be initialised: there is room for it, and the table knows it. */
    lemma CandidateFits(e: Engine, phase: nat, i: nat)
      requires Valid() && UniqueIds(table) && i < count && ValidTable(Tab()) && InitStage(Tab(), e)
      requires Sized(Tab(), e) && Tidy(e.rt) && table[i].id in ReadySet(Tab().descs, e.rt, phase)
      requires model == e.(rt := model.rt)
      ensures initializedCount < MAX_COMPONENTS
      ensures table[i].id in Tab().descs && Tab().descs[table[i].id] == table[i]
    {
      hide Valid, InitStage, ValidTable;
      CountsMatch();
      DescAt(i);
      RoomForOne(Tab(), e, table[i].id);
    }

    /** The part of a round after a scan that found the ready component at position `i`. */
    method InitializeCandidate(i: nat, cb: Callbacks) returns (r: SysErr)
      requires Valid() && UniqueIds(table) && i < count && initializedCount < MAX_COMPONENTS
      requires table[i].id in Tab().descs && Tab().descs[table[i].id] == table[i] && table[i].id in model.rt
      modifies this`model, this`trace, this`initializedCount, components, initializedOrder
      ensures Valid()
      ensures var (e, outcome) := ComponentModel.InitializeComponent(old(model), Tab().descs[table[i].id], cb);
              model == e && r == Code(outcome)
    {
      hide Valid, UniqueIds, DescMap;
      r := InitializeComponent(i, cb);
    }

    /** The scan of a round and its verdict, unless there is a component to initialise. */
    method Survey(phase: nat, ghost cb: Callbacks) returns (finished: bool, r: SysErr, candidate: Option<nat>)
      requires Valid() && UniqueIds(table) && Linked(Tab()) && Sized(Tab(), model) && Tidy(model.rt)
      modifies this`model, components
      ensures Valid() && model == old(model).(rt := FullScan(Tab(), old(model), phase).rt)
      ensures match candidate
              case None =>
                var round := PhaseRound(Tab(), old(model), phase, cb);
                && round.e == model && finished == round.Finished? && (finished ==> r == Code(round.outcome))
              case Some(i) =>
                var s := FullScan(Tab(), old(model), phase);
                i < count == |table| && s.ScanDone? && s.pending > 0 && s.candidate == Some(table[i].id)
    {
      hide ScanFrom, DescMap, UniqueIds, Valid, FullScan, OnlySkips, Sized, Linked, Tidy, ReadySet;
      hide PhaseRound, ComponentModel.InitializeComponent, TableOf;
      ghost var e := model;
      RoundOf(Tab(), e, phase, cb);
      var refused, pending, skipped;
      refused, pending, skipped, candidate := Scan(phase);
      CountsMatch();
      finished, r := true, Ok;
      if refused {
        r, candidate := ErrDependency, None;
      } else if pending == 0 {
        candidate := None;
      } else if candidate.None? {
        finished := !skipped;
        r := ErrDependency;
      }
    }

    /** One round of initialize_phase: a scan, then at most one init. */
    method Round(phase: nat, cb: Callbacks) returns (finished: bool, r: SysErr)
      requires Valid() && UniqueIds(table) && Linked(Tab()) && Sized(Tab(), model) && Tidy(model.rt)
      requires ValidTable(Tab()) && InitStage(Tab(), model)
      modifies this`model, this`trace, this`initializedCount, components, initializedOrder
      ensures Valid()
      ensures var round := PhaseRound(Tab(), old(model), phase, cb);
              && round.e == model && finished == round.Finished? && (finished ==> r == Code(round.outcome))
    {
      hide DescMap, UniqueIds, Valid, InitStage, ValidTable, FullScan, OnlySkips, Sized, Linked, Tidy, ReadySet;
      hide PhaseRound, ComponentModel.InitializeComponent, TableOf, Distinct;
      ghost var e := model;
      var candidate;
      finished, r, candidate := Survey(phase, cb);
      if candidate.Some? {
        RoundInits(Tab(), e, phase, table[candidate.value].id, cb);
        CandidateFits(e, phase, candidate.value);
        r := InitializeCandidate(candidate.value, cb);
        finished := r != Ok;
      }
    }

    method InitializePhase(phase: nat, cb: Callbacks) returns (r: SysErr)
      requires Valid() && UniqueIds(table) && Linked(Tab()) && Sized(Tab(), model) && Tidy(model.rt)
      requires ValidTable(Tab()) && InitStage(Tab(), model)
      modifies this`model, this`trace, this`initializedCount, components, initializedOrder
      ensures Valid()
      ensures var (e, outcome) := ComponentModel.InitializePhase(Tab(), old(model), phase, cb);
              model == e && r == Code(outcome)
    {
      hide DescMap, UniqueIds, InitStage, ValidTable, PhaseRound, Linked, Tidy, Records, Lists;
      ghost var t := Tab();
      ghost var e0 := model;
      while true
        invariant Valid() && Sized(t, model) && Tidy(model.rt) && InitStage(t, model)
        invariant ComponentModel.InitializePhase(t, e0, phase, cb) == ComponentModel.InitializePhase(t, model, phase, cb)
        decreases |Pending(t.descs, model.rt, phase)|
      {
        RoundKeepsStage(t, model, phase, cb);
        var finished;
        finished, r := Round(phase, cb);
        if finished {
          return;
        }
      }
    }

    // ----- start, stop and deinit

    /** Calls the deinit hook of component `i` and clears its initialized flag. */
    method Drop(i: nat, op: Op, cb: Callbacks)
      requires Valid() && UniqueIds(table) && i < count
      modifies this`model, this`trace, components
      ensures Valid() && table[i].id in old(model).rt
      ensures model == DropInitialized(old(model), table[i], op, cb)
    {
      hide DescMap, UniqueIds, Lists;
      DescAt(i);
      var _ := Perform(op, i, cb);
      Store(i, components[i].rt.(initialized := false));
    }

    method StartComponent(i: nat, cb: Callbacks) returns (r: SysErr)
      requires Valid() && UniqueIds(table) && i < count && startedCount < MAX_COMPONENTS
      modifies this`model, this`trace, this`startedCount, components, startedOrder
      ensures Valid() && table[i].id in old(model).rt
      ensures var (e, outcome) := ComponentModel.StartComponent(old(model), table[i], cb);
              model == e && r == Code(outcome)
    {
      hide DescMap, UniqueIds, Lists, CheckDeps;
      DescAt(i);
      var d := components[i].desc;
      var dependencies := CheckDependencies(i, true);
      if !dependencies.Ready? {
        r := HandleDependencyFailure(i);
        if r == Ok && components[i].rt.initialized {
          Drop(i, EarlyDeinit, cb);
        }
        return;
      }
      r := Launch(i, cb);
      if r != Ok && d.policy != REQUIRED {
        Drop(i, EarlyDeinit, cb);
        r := Ok;
      }
    }

    /** The start hook of component `i`, and the record of its answer. */
    method Launch(i: nat, cb: Callbacks) returns (r: SysErr)
      requires Valid() && UniqueIds(table) && i < count && startedCount < MAX_COMPONENTS
      modifies this`model, this`trace, this`startedCount, components, startedOrder
      ensures Valid() && table[i].id in old(model).rt
      ensures r == Invoke(old(model), table[i], Start, cb).result
      ensures var e := old(model).(trace := old(model).trace + [Invoke(old(model), table[i], Start, cb)]);
              model == if r != Ok then e.(rt := SetState(e.rt, table[i].id, Failed, r))
                       else e.(rt := e.rt[table[i].id := e.rt[table[i].id].(state := Running, lastError := Ok, started := true)],
                               startOrder := e.startOrder + [table[i].id])
    {
      hide DescMap, UniqueIds, Lists;
      DescAt(i);
      ghost var rt := model.rt;
      UpdateState(i, Starting, Ok);
      ghost var r1 := components[i].rt;
      r := Perform(Start, i, cb);
      if r != Ok {
        UpdateState(i, Failed, r);
        UpdateTwice(rt, table[i].id, r1, components[i].rt);
      } else {
        Store(i, components[i].rt.(started := true));
        ghost var r2 := components[i].rt;
        UpdateTwice(rt, table[i].id, r1, r2);
        PushStarted(i);
        UpdateState(i, Running, Ok);
        UpdateTwice(rt, table[i].id, r2, components[i].rt);
      }
    }

    lemma ListsKnown(order: seq<nat>, ids: seq<nat>)
      requires Lists(order, ids)
      ensures forall id :: id in ids ==> id in DescMap(table)
    {
      hide DescMap;
      DescMapSound(table);
      forall id | id in ids
        ensures id in DescMap(table)
      {
        var k :| 0 <= k < |ids| && ids[k] == id;
        assert table[order[k]] in table;
      }
    }

    lemma ValidIsSized()
      requires Valid()
      ensures Linked(Tab()) && Sized(Tab(), model)
    {
      hide DescMap, Lists;
      DiscoveredShape(table);
      DescMapSound(table);
      ListsKnown(initializedOrder[..initializedCount], model.initOrder);
      ListsKnown(startedOrder[..startedCount], model.startOrder);
    }

    /** The component a list entry stands for. */
    lemma EntryAt(k: nat)
      requires Valid()
      ensures k < initializedCount ==> initializedOrder[k] < count && model.initOrder[k] == table[initializedOrder[k]].id
      ensures k < startedCount ==> startedOrder[k] < count && model.startOrder[k] == table[startedOrder[k]].id
    {
      if k < initializedCount {
        assert initializedOrder[..initializedCount][k] == initializedOrder[k];
      }
      if k < startedCount {
        assert startedOrder[..startedCount][k] == startedOrder[k];
      }
    }

    method PopStarted() returns (i: nat)
      requires Valid() && startedCount > 0
      modifies this`startedCount, this`model
      ensures Valid() && i < count && startedCount == old(startedCount) - 1 && old(model).startOrder != []
      ensures model == old(model).(startOrder := old(model).startOrder[..|old(model).startOrder| - 1])
      ensures table[i].id == old(model).startOrder[|old(model).startOrder| - 1]
    {
      EntryAt(startedCount - 1);
      startedCount := startedCount - 1;
      i := startedOrder[startedCount];
      model := model.(startOrder := model.startOrder[..|model.startOrder| - 1]);
    }

    method PopInitialized() returns (i: nat)
      requires Valid() && initializedCount > 0
      modifies this`initializedCount, this`model
      ensures Valid() && i < count && initializedCount == old(initializedCount) - 1 && old(model).initOrder != []
      ensures model == old(model).(initOrder := old(model).initOrder[..|old(model).initOrder| - 1])
      ensures table[i].id == old(model).initOrder[|old(model).initOrder| - 1]
    {
      EntryAt(initializedCount - 1);
      initializedCount := initializedCount - 1;
      i := initializedOrder[initializedCount];
      model := model.(initOrder := model.initOrder[..|model.initOrder| - 1]);
    }

    /** Stops component `i`, which has just been taken off the started list. */
    method StopComponent(i: nat, cb: Callbacks) returns (r: SysErr)
      requires Valid() && UniqueIds(table) && i < count
      modifies this`model, this`trace, components
      ensures Valid() && table[i].id in old(model).rt
      ensures r == Invoke(old(model), table[i], Stop, cb).result
      ensures var e, was := old(model), old(model).rt[table[i].id].(started := false);
              model == e.(trace := e.trace + [Invoke(e, table[i], Stop, cb)],
                          rt := e.rt[table[i].id := if r != Ok then was.(state := Failed, lastError := r)
                                                    else was.(state := Stopped)])
    {
      hide DescMap, UniqueIds, Lists;
      DescAt(i);
      ghost var rt := model.rt;
      var lastError := components[i].rt.lastError;
      UpdateState(i, Stopping, lastError);
      ghost var r1 := components[i].rt;
      r := Perform(Stop, i, cb);
      Store(i, components[i].rt.(started := false));
      ghost var r2 := components[i].rt;
      UpdateTwice(rt, table[i].id, r1, r2);
      if r != Ok {
        UpdateState(i, Failed, r);
      } else {
        UpdateState(i, Stopped, lastError);
      }
      UpdateTwice(rt, table[i].id, r2, components[i].rt);
    }

    method StopNext(cb: Callbacks) returns (r: SysErr)
      requires Valid() && UniqueIds(table) && startedCount > 0 && Sized(Tab(), model) && model.startOrder != []
      modifies this`model, this`trace, this`startedCount, components
      ensures Valid() && startedCount == old(startedCount) - 1
      ensures (model, r) == StopLast(Tab(), old(model), cb)
    {
      hide DescMap, UniqueIds, Valid, TableOf, Hook;
      CountsMatch();
      var i := PopStarted();
      DescAt(i);
      r := StopComponent(i, cb);
    }

    method StopStartedComponents(cb: Callbacks) returns (firstError: SysErr)
      requires Valid() && (startedCount > 0 ==> UniqueIds(table)) && Sized(Tab(), model)
      modifies this`model, this`trace, this`startedCount, components
      ensures Valid() && Sized(Tab(), model) && startedCount == 0
      ensures (model, firstError) == StopStarted(Tab(), old(model), cb)
    {
      hide DescMap, UniqueIds, Valid, TableOf, StopLast;
      ghost var t, e := Tab(), model;
      CountsMatch();
      firstError := Ok;
      while startedCount > 0
        invariant Valid() && (startedCount > 0 ==> UniqueIds(table)) && Sized(t, model) && startedCount == |model.startOrder|
        invariant StopStarted(t, e, cb).0 == StopStarted(t, model, cb).0
        invariant StopStarted(t, e, cb).1 == if firstError != Ok then firstError else StopStarted(t, model, cb).1
        decreases startedCount
      {
        var r := StopNext(cb);
        CountsMatch();
        if firstError == Ok {
          firstError := r;
        }
      }
    }

    method DeinitNext(cb: Callbacks)
      requires Valid() && UniqueIds(table) && initializedCount > 0 && Sized(Tab(), model) && model.initOrder != []
      modifies this`model, this`trace, this`initializedCount, components
      ensures Valid() && initializedCount == old(initializedCount) - 1
      ensures model == DeinitLast(Tab(), old(model), cb)
    {
      ghost var rt := model.rt;
      hide DescMap, UniqueIds, Valid, TableOf, Hook;
      CountsMatch();
      var i := PopInitialized();
      DescAt(i);
      if components[i].rt.initialized {
        Drop(i, Deinit, cb);
        DescAt(i);
        if !components[i].rt.state.Failed? && !components[i].rt.state.Skipped? {
          ghost var r1 := components[i].rt;
          UpdateState(i, Stopped, components[i].rt.lastError);
          UpdateTwice(rt, table[i].id, r1, components[i].rt);
        }
      }
    }

    method DeinitializeComponents(cb: Callbacks)
      requires Valid() && (initializedCount > 0 ==> UniqueIds(table)) && Sized(Tab(), model)
      modifies this`model, this`trace, this`initializedCount, components
      ensures Valid() && initializedCount == 0
      ensures model == DeinitializeAll(Tab(), old(model), cb)
    {
      hide DescMap, UniqueIds, Valid, TableOf, DeinitLast;
      ghost var t, e := Tab(), model;
      CountsMatch();
      while initializedCount > 0
        invariant Valid() && (initializedCount > 0 ==> UniqueIds(table)) && Sized(t, model) && initializedCount == |model.initOrder|
        invariant DeinitializeAll(t, e, cb) == DeinitializeAll(t, model, cb)
        decreases initializedCount
      {
        DeinitNext(cb);
        CountsMatch();
      }
    }

    /** Nothing is listed, or the collected ids are unique: what every call of the engine leaves behind. */
    ghost predicate Usable()
      reads this
    {
      initializedCount == startedCount == 0 || UniqueIds(table)
    }

    method RollbackComponents(cb: Callbacks) returns (r: SysErr)
      requires Valid() && Usable()
      modifies this`model, this`trace, this`initializedCount, this`startedCount, components
      ensures Valid() && Usable() && Sized(Tab(), old(model))
      ensures (model, r) == Rollback(Tab(), old(model), cb)
    {
      hide DescMap, UniqueIds, Valid, TableOf, DeinitializeAll, StopStarted, Sized;
      ValidIsSized();
      r := StopStartedComponents(cb);
      DeinitializeComponents(cb);
    }

    /** sys_component_stop_all. */
    method StopAll(cb: Callbacks) returns (r: SysErr)
      requires Valid() && Usable()
      modifies this`model, this`trace, this`initializedCount, this`startedCount, components
      ensures Valid() && Usable() && Sized(Tab(), old(model))
      ensures (model, r) == Rollback(Tab(), old(model), cb)
    {
      r := RollbackComponents(cb);
    }

    /** The three phases. */
    method InitializePhases(cb: Callbacks) returns (r: SysErr)
      requires Valid() && UniqueIds(table) && Linked(Tab()) && Sized(Tab(), model) && Tidy(model.rt)
      requires ValidTable(Tab()) && InitStage(Tab(), model)
      modifies this`model, this`trace, this`initializedCount, components, initializedOrder
      ensures Valid()
      ensures var (e, outcome) := InitializeFrom(Tab(), old(model), 0, cb);
              model == e && r == Code(outcome)
    {
      hide DescMap, UniqueIds, Valid, TableOf, InitStage, ValidTable, Linked, Sized, Tidy, ComponentModel.InitializePhase;
      ghost var t, e := Tab(), model;
      r := Ok;
      for phase := 0 to PHASE_COUNT
        invariant Valid() && Sized(t, model) && Tidy(model.rt) && InitStage(t, model) && r == Ok
        invariant InitializeFrom(t, e, 0, cb) == InitializeFrom(t, model, phase, cb)
      {
        PhaseKeepsStage(t, model, phase, cb);
        r := InitializePhase(phase, cb);
        if r != Ok {
          return;
        }
      }
    }

    lemma NextFits(i: nat)
      requires Valid() && UniqueIds(table) && ValidTable(Tab()) && StartStage(Tab(), model, i) && i < |model.initOrder|
      ensures startedCount < MAX_COMPONENTS && i < initializedCount <= initializedOrder.Length
      ensures var c := initializedOrder[i];
              c < count && table[c].id == model.initOrder[i] && table[c].id in Tab().descs
              && Tab().descs[table[c].id] == table[c]
    {
      CountsMatch();
      EntryAt(i);
      DescAt(initializedOrder[i]);
      hide Valid, ValidTable, StartStage, UniqueIds;
      RoomToStart(Tab(), model, i);
    }

    /** One turn of the start loop. */
    method StartNext(i: nat, cb: Callbacks) returns (r: SysErr)
      requires Valid() && UniqueIds(table) && Sized(Tab(), model) && i < |model.initOrder|
      requires ValidTable(Tab()) && StartStage(Tab(), model, i)
      modifies this`model, this`trace, this`startedCount, components, startedOrder
      ensures Valid() && Sized(Tab(), model) && model.initOrder == old(model).initOrder
      ensures var (e, outcome) := ComponentModel.StartComponent(old(model), Tab().descs[old(model).initOrder[i]], cb);
              model == e && r == Code(outcome) && (r == Ok ==> StartStage(Tab(), model, i + 1))
    {
      hide DescMap, UniqueIds, Valid, StartStage, ValidTable, Core, ComponentModel.StartComponent;
      NextFits(i);
      StartKeepsStage(Tab(), model, i, cb);
      r := StartComponent(initializedOrder[i], cb);
      ValidIsSized();
    }

    method StartComponents(cb: Callbacks) returns (r: SysErr)
      requires Valid() && UniqueIds(table) && Sized(Tab(), model)
      requires ValidTable(Tab()) && StartStage(Tab(), model, 0)
      modifies this`model, this`trace, this`startedCount, components, startedOrder
      ensures Valid()
      ensures var (e, outcome) := StartFrom(Tab(), old(model), 0, cb);
              model == e && r == Code(outcome)
    {
      hide DescMap, UniqueIds, Valid, TableOf, StartStage, ValidTable, Sized, ComponentModel.StartComponent;
      ghost var t, e := Tab(), model;
      CountsMatch();
      var i := 0;
      while i < initializedCount
        invariant 0 <= i <= initializedCount == |model.initOrder|
        invariant Valid() && Sized(t, model) && StartStage(t, model, i)
        invariant StartFrom(t, e, 0, cb) == StartFrom(t, model, i, cb)
      {
        r := StartNext(i, cb);
        CountsMatch();
        if r != Ok {
          return;
        }
        i := i + 1;
      }
      r := Ok;
    }

    /** sys_component_start_all. */
    method StartAll(section: seq<Desc>, cb: Callbacks) returns (r: SysErr)
      requires Valid() && Usable()
      modifies this, components, initializedOrder, startedOrder
      ensures Valid() && Usable()
      ensures (model, r) == ComponentModel.StartAll(section, old(model), cb)
      ensures |section| <= MAX_COMPONENTS ==> table == Collect(section)
    {
      hide DescMap, UniqueIds, Valid, ValidateFrom, Collect, ComponentModel.Launch, Discover, TableOf;
      r := CollectComponents(section);
      if r == Ok {
        LaunchKnown();
        r := LaunchAll(cb);
      }
    }

    /** What validation has established before the first phase. */
    lemma LaunchKnown()
      requires Valid() && model == Discover(table) && ValidateFrom(table, 0) == Ok
      ensures UniqueIds(table) && LaunchReady(Tab(), model)
    {
      hide Valid, LaunchReady, Discover;
      ValidateIff(table);
      FreshLaunch(table);
      UniqueIsDistinct(table);
    }

    /** Phases and starts, with rollback on the first error. */
    method LaunchAll(cb: Callbacks) returns (r: SysErr)
      requires Valid() && UniqueIds(table) && LaunchReady(Tab(), model)
      requires Linked(Tab()) && Sized(Tab(), model) && Tidy(model.rt)
      modifies this`model, this`trace, this`initializedCount, this`startedCount, components, initializedOrder, startedOrder
      ensures Valid() && Usable()
      ensures var (e, outcome) := ComponentModel.Launch(Tab(), old(model), cb);
              model == e && r == Code(outcome)
    {
      hide DescMap, UniqueIds, Valid, TableOf, StartStage, InitStage, ValidTable, LaunchReady, Sized, Tidy, Linked;
      hide InitializeFrom, StartFrom, Rollback;
      ghost var t, e := Tab(), model;
      LaunchSteps(t, e, cb);
      r := InitializePhases(cb);
      if r != Ok {
        var _ := RollbackComponents(cb);
      } else {
        r := StartOrRollback(cb);
      }
    }

    /** The start loop, with rollback on the first error. */
    method StartOrRollback(cb: Callbacks) returns (r: SysErr)
      requires Valid() && UniqueIds(table) && Sized(Tab(), model)
      requires ValidTable(Tab()) && StartStage(Tab(), model, 0)
      modifies this`model, this`trace, this`initializedCount, this`startedCount, components, startedOrder
      ensures Valid() && Usable()
      ensures var (e, outcome) := StartFrom(Tab(), old(model), 0, cb);
              model == (if outcome.Done? then e else Rollback(Tab(), e, cb).0) && r == Code(outcome)
    {
      hide DescMap, UniqueIds, Valid, TableOf, StartStage, ValidTable, Sized, StartFrom, Rollback;
      r := StartComponents(cb);
      if r != Ok {
        var _ := RollbackComponents(cb);
      }
    }
  }

  lemma NotStartedYet(t: Table, e: Engine, i: nat)
    requires StartStage(t, e, i) && i < |e.initOrder|
    ensures Sized(t, e) && Distinct(e.startOrder) && e.initOrder[i] in t.descs && e.initOrder[i] !in e.startOrder
  {
    hide Orders, WellOrdered, LifeOf, StateFits;
    NextToStart(t, e, i);
    assert Distinct(e.startOrder) by {
      StartedOnce(t, e, i);
    }
    assert Prepared(e.rt[e.initOrder[i]], LivesAfter(t.descs, e.trace)[e.initOrder[i]]);
  }

  lemma StartedOnce(t: Table, e: Engine, i: nat)
    requires StartStage(t, e, i)
    ensures Distinct(e.startOrder)
  {
  }

  lemma RoomToStart(t: Table, e: Engine, i: nat)
    requires ValidTable(t) && StartStage(t, e, i) && i < |e.initOrder| && |t.order| <= MAX_COMPONENTS
    ensures |e.startOrder| < MAX_COMPONENTS
  {
    hide StartStage, Distinct;
    NotStartedYet(t, e, i);
    ElemsSize(t.order);
    assert t.descs.Keys == Elems(t.order);
    DistinctSnoc(e.startOrder, e.initOrder[i]);
    DistinctFits(e.startOrder + [e.initOrder[i]], t.descs.Keys);
  }

  lemma LaunchSteps(t: Table, e: Engine, cb: Callbacks)
    requires Linked(t) && Sized(t, e) && Tidy(e.rt) && LaunchReady(t, e)
    ensures ValidTable(t) && InitStage(t, e)
    ensures var (e1, outcome) := InitializeFrom(t, e, 0, cb);
            outcome.Done? ==> StartStage(t, e1, 0)
  {
    LaunchReadyParts(t, e);
    InitializeKeepsStage(t, e, 0, cb);
    var (e1, outcome) := InitializeFrom(t, e, 0, cb);
    if outcome.Done? {
      StartReady(t, e1);
    }
  }

  lemma RoomForOne(t: Table, e: Engine, id: nat)
    requires ValidTable(t) && InitStage(t, e) && id in t.descs && !e.rt[id].initialized && |t.order| <= MAX_COMPONENTS
    ensures |e.initOrder| < MAX_COMPONENTS
  {
    ElemsSize(t.order);
    assert t.descs.Keys == Elems(t.order);
    DistinctSnoc(e.initOrder, id);
    DistinctFits(e.initOrder + [id], t.descs.Keys);
  }

  /** A round, told by what its scan found. */
  lemma RoundOf(t: Table, e: Engine, phase: nat, cb: Callbacks)
    requires Linked(t) && Sized(t, e) && Tidy(e.rt)
    ensures var round := PhaseRound(t, e, phase, cb);
            match FullScan(t, e, phase)
            case ScanRefused(rt, id) => round == Finished(e.(rt := rt), RequiredSkipped(id))
            case ScanDone(rt, pending, skipped, candidate) =>
              if pending == 0 then round == Finished(e.(rt := rt), Done)
              else if candidate.None? then
                round == if skipped then Again(e.(rt := rt)) else Finished(e.(rt := rt), NoProgress)
              else
                && candidate.value in ReadySet(t.descs, e.rt, phase) && candidate.value in t.descs
                && t.descs[candidate.value].id == candidate.value && candidate.value in rt
                && var (e', outcome) := ComponentModel.InitializeComponent(e.(rt := rt), t.descs[candidate.value], cb);
                   round == if outcome != Done then Finished(e', outcome) else Again(e')
  {
    hide FullScan, Linked, OnlySkips, Tidy, DepsInitialized;
    FullScanFacts(t, e, phase);
  }

  lemma RoundInits(t: Table, e: Engine, phase: nat, id: nat, cb: Callbacks)
    requires Linked(t) && Sized(t, e) && Tidy(e.rt)
    requires var s := FullScan(t, e, phase); s.ScanDone? && s.pending > 0 && s.candidate == Some(id)
    ensures var e1 := e.(rt := FullScan(t, e, phase).rt);
            && id in ReadySet(t.descs, e.rt, phase) && id in t.descs && t.descs[id].id == id && id in e1.rt
            && var (e', outcome) := ComponentModel.InitializeComponent(e1, t.descs[id], cb);
               PhaseRound(t, e, phase, cb) == if outcome != Done then Finished(e', outcome) else Again(e')
  {
    RoundOf(t, e, phase, cb);
  }

  lemma AppendStep(sofar: seq<Desc>, section: seq<Desc>, i: nat)
    requires i < |section|
    ensures sofar + Collect(section[i..])
         == (if section[i].hasInit then sofar + [section[i]] else sofar) + Collect(section[i + 1..])
  {
    CollectNext(section, i);
  }

  lemma {:induction false} ScanOfNothing(descs: map<nat, Desc>, rt: map<nat, Runtime>, phase: nat, pending: nat,
                                         skipped: bool, candidate: Option<nat>)
    requires rt.Keys == descs.Keys
    ensures ScanFrom(descs, [], rt, phase, pending, skipped, candidate) == ScanDone(rt, pending, skipped, candidate)
  {
  }
}
