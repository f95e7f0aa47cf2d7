/** The framework's life cycle: components, event bus and service registry started and stopped together.
    The bus and the registry are the concurrent systems of the other modules; what every other thread does
    while a call of the core waits or runs components is an arbitrary run of theirs. */
module SysCore {
  import opened SysTypes
  import opened ComponentModel
  import CL = ComponentLifecycle
  import opened ComponentTable
  import opened ComponentTheorems
  import B = EventSteps
  import BP = EventProofs
  import BT = EventTheorems
  import BM = EventModel
  import S = ServiceSteps
  import ST = ServiceTheorems
  import SM = ServiceModel

  datatype CoreState = Stopped | Starting | Running | Stopping

  // ----- the stop of the bus, over a whole run

  ghost predicate BusEmpty(s: B.Sys) {
    && s.bus.table == [] && s.bus.queue == [] && !s.bus.running && !s.bus.accepting
    && |s.threads| > 0 && s.threads[B.WORKER].mode.Absent? && s.threads[B.WORKER].stack == []
  }

  /** Nobody starts the bus while the core stops it. */
  ghost predicate NoStart(turns: seq<BT.Turn>) {
    forall k :: 0 <= k < |turns| ==> !turns[k].a.DoStart?
  }

  /** The caller is still inside stop, or has left everything empty behind it. */
  ghost predicate StopUnderWay(s: B.Sys, me: nat) {
    && me < |s.threads| && me != B.WORKER && s.threads[me].stack == [] && !s.bus.running && !s.bus.accepting
    && (s.threads[me].mode.Joining? || (s.threads[me].mode.Draining? && s.threads[B.WORKER].mode.Absent?)
        || (s.threads[me].mode.Free? && BusEmpty(s)))
  }

  /** With nothing accepted, an empty bus stays empty and a worker that is gone stays gone. */
  lemma BusStaysStopped(s: B.Sys, t: nat, a: B.Action)
    requires B.Ready(s, t, a) && !a.DoStart? && !s.bus.running && !s.bus.accepting && |s.threads| > 0
    requires s.threads[B.WORKER].mode.Absent? ==> s.threads[B.WORKER].stack == []
    ensures var s' := B.Step(s, t, a);
            && !s'.bus.running && !s'.bus.accepting && |s'.threads| == |s.threads|
            && (s.bus.table == [] ==> s'.bus.table == []) && (s.bus.queue == [] ==> s'.bus.queue == [])
            && (s.threads[B.WORKER].mode.Absent? ==> s'.threads[B.WORKER].mode.Absent? && s'.threads[B.WORKER].stack == [])
  {
    hide BM.Matching, BM.Retain, BM.Taken;
  }

  lemma ThreadsFit(s: B.Sys, t: nat)
    requires B.Inv(s) && t < |s.threads|
    ensures B.ThreadOk(s.bus, s.threads[t], t) && B.ThreadOk(s.bus, s.threads[B.WORKER], B.WORKER)
  {
    assert B.ThreadOk(s.bus, s.threads[t], t) && B.ThreadOk(s.bus, s.threads[B.WORKER], B.WORKER);
  }

  lemma OwnStopStep(s: B.Sys, me: nat, a: B.Action)
    requires B.Inv(s) && StopUnderWay(s, me) && B.Ready(s, me, a) && !s.threads[me].mode.Free?
    ensures StopUnderWay(B.Step(s, me, a), me)
  {
    hide B.Inv, BM.Matching, BM.Retain, BM.Taken, B.StackOk;
    ThreadsFit(s, me);
    BusStaysStopped(s, me, a);
  }

  lemma OtherStopStep(s: B.Sys, me: nat, t: nat, a: B.Action)
    requires B.Inv(s) && StopUnderWay(s, me) && B.Ready(s, t, a) && !a.DoStart? && t != me
    ensures StopUnderWay(B.Step(s, t, a), me)
  {
    hide B.Inv, BM.Matching, BM.Retain, BM.Taken, B.StackOk;
    ThreadsFit(s, t);
    BusStaysStopped(s, t, a);
    assert B.Step(s, t, a).threads[me].stack == [];
  }

  lemma StopUnderWayStep(s: B.Sys, me: nat, t: nat, a: B.Action)
    requires B.Inv(s) && StopUnderWay(s, me) && B.Ready(s, t, a) && !a.DoStart?
    requires t == me ==> !s.threads[me].mode.Free?
    ensures StopUnderWay(B.Step(s, t, a), me)
  {
    hide B.Inv, B.Ready, B.Step, StopUnderWay;
    if t == me {
      OwnStopStep(s, me, a);
    } else {
      OtherStopStep(s, me, t, a);
    }
  }

  ghost predicate Leaves(turns: seq<BT.Turn>, s: B.Sys, me: nat)
    requires BT.Runs(s, turns)
    decreases |turns|
  {
    turns != [] ==>
      && (turns[0].t == me ==> me < |s.threads| && !s.threads[me].mode.Free?)
      && Leaves(turns[1..], B.Step(s, turns[0].t, turns[0].a), me)
  }

  lemma {:induction false} StopRun(s: B.Sys, turns: seq<BT.Turn>, me: nat)
    requires B.Inv(s) && StopUnderWay(s, me) && BT.Runs(s, turns) && NoStart(turns) && Leaves(turns, s, me)
    ensures B.Inv(BT.After(s, turns)) && StopUnderWay(BT.After(s, turns), me)
    decreases |turns|
  {
    hide B.Inv, B.Ready, B.Step, StopUnderWay;
    if turns != [] {
      assert !turns[0].a.DoStart?;
      BP.StepKeepsInv(s, turns[0].t, turns[0].a);
      StopUnderWayStep(s, me, turns[0].t, turns[0].a);
      forall k | 0 <= k < |turns[1..]|
        ensures !turns[1..][k].a.DoStart?
      {
        assert turns[1..][k] == turns[k + 1];
      }
      StopRun(B.Step(s, turns[0].t, turns[0].a), turns[1..], me);
    }
  }

  // ----- the reset of the registry, over a whole run

  ghost predicate RegistryEmpty(s: S.Sys) {
    forall k :: 0 <= k < |s.slots| ==> s.slots[k] == SM.EMPTY
  }

  /** No other registrations, and no second reset, while the core resets the registry. */
  ghost predicate NoRegister(turns: seq<ST.Turn>) {
    forall k :: 0 <= k < |turns| ==> !turns[k].a.DoRegister?
  }

  ghost predicate ResetUnderWay(s: S.Sys, me: nat) {
    me < |s.threads| && (s.threads[me].mode.ResetWait? || (s.threads[me].mode.Free? && RegistryEmpty(s)))
  }

  lemma EmptyStays(s: S.Sys, t: nat, a: S.Action)
    requires S.Ready(s, t, a) && !a.DoRegister? && RegistryEmpty(s)
    ensures RegistryEmpty(S.Step(s, t, a))
  {
    hide SM.FindFrom, SM.FreeFrom;
  }

  lemma ResetUnderWayStep(s: S.Sys, me: nat, t: nat, a: S.Action)
    requires ResetUnderWay(s, me) && S.Ready(s, t, a) && !a.DoRegister?
    requires t == me ==> s.threads[me].mode.ResetWait?
    ensures ResetUnderWay(S.Step(s, t, a), me)
  {
    hide SM.FindFrom, SM.FreeFrom;
    if t != me && RegistryEmpty(s) {
      EmptyStays(s, t, a);
    }
  }

  ghost predicate Waits(turns: seq<ST.Turn>, s: S.Sys, me: nat)
    requires ST.Runs(s, turns)
    decreases |turns|
  {
    turns != [] ==>
      && (turns[0].t == me ==> me < |s.threads| && s.threads[me].mode.ResetWait?)
      && Waits(turns[1..], S.Step(s, turns[0].t, turns[0].a), me)
  }

  lemma {:induction false} ResetRun(s: S.Sys, turns: seq<ST.Turn>, me: nat)
    requires S.Inv(s) && ResetUnderWay(s, me) && ST.Runs(s, turns) && NoRegister(turns) && Waits(turns, s, me)
    ensures S.Inv(ST.After(s, turns)) && ResetUnderWay(ST.After(s, turns), me)
    decreases |turns|
  {
    hide S.Inv, S.Ready, S.Step, ResetUnderWay;
    if turns != [] {
      assert !turns[0].a.DoRegister?;
      S.StepKeepsInv(s, turns[0].t, turns[0].a);
      ResetUnderWayStep(s, me, turns[0].t, turns[0].a);
      forall k | 0 <= k < |turns[1..]|
        ensures !turns[1..][k].a.DoRegister?
      {
        assert turns[1..][k] == turns[k + 1];
      }
      ResetRun(S.Step(s, turns[0].t, turns[0].a), turns[1..], me);
    }
  }

  // ----- the components

  ghost predicate NothingUp(e: Engine) {
    e.initOrder == [] && e.startOrder == [] && forall id :: id in e.rt ==> !e.rt[id].initialized && !e.rt[id].started
  }

  /** A failed start leaves nothing up; after a successful one, stop_all leaves nothing up. */
  lemma StartAllOutcome(section: seq<Desc>, before: Engine, cb: Callbacks)
    requires NothingUp(before)
    ensures var (e, code) := StartAll(section, before, cb);
            && (code != Ok ==> NothingUp(e))
            && (code == Ok ==> Stoppable(section, e) && AllUp(TableOf(Collect(section)), e))
  {
    hide AllUp, CL.Core, TableOk, Launch, ValidateFrom;
    if |section| <= MAX_COMPONENTS && TableOk(Collect(section)) {
      hide StartAll;
      StartAllSafe(section, before, cb, cb);
      ReleasedMeansNothingUp(TableOf(Collect(section)), StartAll(section, before, cb).0);
    } else {
      ValidateIff(Collect(section));
    }
  }

  ghost predicate Stoppable(section: seq<Desc>, e: Engine) {
    CL.Core(TableOf(Collect(section)), e)
  }

  lemma ReleasedMeansNothingUp(t: Table, e: Engine)
    requires Sized(t, e)
    ensures CL.Released(t, e) ==> NothingUp(e)
  {
    hide CL.Core, CL.LifeOf;
  }

  lemma StopAllOutcome(section: seq<Desc>, e: Engine, cb: Callbacks)
    requires Stoppable(section, e)
    ensures var t := TableOf(Collect(section));
            Sized(t, e) && NothingUp(Rollback(t, e, cb).0)
  {
    var t := TableOf(Collect(section));
    CoreIsSized(t, e);
    CL.RollbackReleases(t, e, cb);
    hide Rollback, CL.Core;
    ReleasedMeansNothingUp(t, Rollback(t, e, cb).0);
  }

  // ----- the calls

  /** What the other threads do, and what the caller's own callbacks do to bus and registry, during a call of the
      core: while it resets the registry, while it runs components, while it stops the bus, and while it resets again. */
  datatype World = World(resets: seq<ST.Turn>, busRun: seq<BT.Turn>, serviceRun: seq<ST.Turn>,
                         stops: seq<BT.Turn>, finalResets: seq<ST.Turn>)

  class Framework {
    var state: CoreState
    var engine: Engine
    // The section the components were last started from.
    var section: seq<Desc>
    // g_event_running
    var running: bool
    ghost var bus: B.Sys
    ghost var services: S.Sys
    // The thread that calls the core.
    const me: nat

    /** The caller is outside callbacks and outside every wait. */
    ghost predicate CallerFree()
      reads this
    {
      && me != B.WORKER && me < |bus.threads| && me < |services.threads|
      && bus.threads[me].mode.Free? && bus.threads[me].stack == [] && services.threads[me].mode.Free?
    }

    /** No component initialised or started, no subscription, no queued event, no service. */
    ghost predicate Clean()
      reads this
    {
      NothingUp(engine) && BusEmpty(bus) && RegistryEmpty(services)
    }

    ghost predicate Valid()
      reads this
    {
      && B.Inv(bus) && S.Inv(services) && CallerFree() && running == bus.bus.running
      && (state.Stopped? ==> Clean())
      && (state.Running? ==> Stoppable(section, engine) && bus.bus.running)
    }

    /** A framework nothing was started in yet, and the thread that will call it. */
    constructor (caller: nat, ghost bus: B.Sys, ghost services: S.Sys)
      requires BT.Initial(bus) && ST.Initial(services)
      requires caller != B.WORKER && caller < |bus.threads| && caller < |services.threads|
      ensures Valid() && state == CoreState.Stopped && me == caller && this.bus == bus && this.services == services
    {
      me, state, running := caller, CoreState.Stopped, false;
      engine, section := Engine(map[], [], [], []), [];
      this.bus, this.services := bus, services;
      new;
      BT.InitialInv(bus);
      ST.InitialInv(services);
    }

    /** A legal run of the registry that begins with the caller's reset and ends when it returns. */
    ghost predicate ResetRuns(s: S.Sys, turns: seq<ST.Turn>) {
      && S.Ready(s, me, S.DoReset)
      && var s1 := S.Step(s, me, S.DoReset);
      && ST.Runs(s1, turns) && NoRegister(turns) && Waits(turns, s1, me)
      && var s2 := ST.After(s1, turns);
      && me < |s2.threads| && s2.threads[me].mode.Free?
    }

    /** A legal run of the bus that begins with the caller's stop and ends when it returns. */
    ghost predicate StopRuns(s: B.Sys, turns: seq<BT.Turn>) {
      && B.Ready(s, me, B.DoStop)
      && var s1 := B.Step(s, me, B.DoStop);
      && BT.Runs(s1, turns) && NoStart(turns) && Leaves(turns, s1, me)
      && var s2 := BT.After(s1, turns);
      && me < |s2.threads| && s2.threads[me].mode.Free?
    }

    /** A legal run of the bus between two calls of the core: nobody else stops or starts it. */
    ghost predicate BusRuns(s: B.Sys, turns: seq<BT.Turn>) {
      && BT.Runs(s, turns)
      && var s' := BT.After(s, turns);
      && me < |s'.threads| && s'.threads[me].mode.Free? && s'.threads[me].stack == [] && s'.bus.running == s.bus.running
    }

    ghost predicate ServiceRuns(s: S.Sys, turns: seq<ST.Turn>) {
      && ST.Runs(s, turns)
      && var s' := ST.After(s, turns);
      && me < |s'.threads| && s'.threads[me].mode.Free?
    }

    /** sys_service_registry_reset */
    method ResetServices(ghost turns: seq<ST.Turn>)
      requires S.Inv(services) && ResetRuns(services, turns)
      modifies this`services
      ensures S.Inv(services) && RegistryEmpty(services) && me < |services.threads| && services.threads[me].mode.Free?
      ensures services == ST.After(S.Step(old(services), me, S.DoReset), turns)
    {
      ghost var s1 := S.Step(services, me, S.DoReset);
      S.StepKeepsInv(services, me, S.DoReset);
      ResetBegins(services);
      ResetRun(s1, turns, me);
      services := ST.After(s1, turns);
    }

    lemma ResetBegins(s: S.Sys)
      requires S.Ready(s, me, S.DoReset)
      ensures ResetUnderWay(S.Step(s, me, S.DoReset), me)
    {
    }

    /** sys_event_bus_start; a failure to create the worker leaves the bus as it was. */
    method StartBus(created: bool) returns (r: SysErr)
      requires B.Inv(bus) && CallerFree() && BusEmpty(bus) && (created ==> B.Ready(bus, me, B.DoStart))
      modifies this`bus, this`running
      ensures B.Inv(bus) && CallerFree() && running == bus.bus.running && r == if created then Ok else ErrGeneric
      ensures r == Ok ==> bus == B.Step(old(bus), me, B.DoStart) && bus.bus.running
      ensures r != Ok ==> bus == old(bus)
    {
      if created {
        StartsRunning();
        BP.StepKeepsInv(bus, me, B.DoStart);
        bus := B.Step(bus, me, B.DoStart);
        running := true;
        r := Ok;
      } else {
        running := false;
        r := ErrGeneric;
      }
    }

    lemma StartsRunning()
      requires CallerFree() && BusEmpty(bus) && B.Ready(bus, me, B.DoStart)
      ensures var s := B.Step(bus, me, B.DoStart);
              && s.bus.running && |s.threads| == |bus.threads|
              && s.threads[me].mode.Free? && s.threads[me].stack == []
    {
    }

    /** sys_event_bus_stop; when the worker cannot be joined it gives up with that error. */
    method StopBus(joined: SysErr, ghost turns: seq<BT.Turn>) returns (r: SysErr)
      requires B.Inv(bus) && CallerFree() && running == bus.bus.running
      requires running && joined == Ok ==> StopRuns(bus, turns)
      requires !running ==> BusEmpty(bus)
      modifies this`bus, this`running
      ensures r == (if old(running) then joined else Ok) && !running && running == bus.bus.running
      ensures r == Ok ==> B.Inv(bus) && CallerFree() && BusEmpty(bus)
      ensures r != Ok ==> bus.bus.table == old(bus.bus.table)
    {
      r := Ok;
      if running {
        running := false;
        if joined != Ok {
          bus := bus.(bus := BM.BeginStop(bus.bus).0);
          return joined;
        }
        ghost var s1 := B.Step(bus, me, B.DoStop);
        BP.StepKeepsInv(bus, me, B.DoStop);
        StopBegins();
        StopRun(s1, turns, me);
        bus := BT.After(s1, turns);
        StopEnds();
      }
    }

    lemma StopBegins()
      requires CallerFree() && bus.bus.running && B.Ready(bus, me, B.DoStop)
      ensures StopUnderWay(B.Step(bus, me, B.DoStop), me)
    {
    }

    lemma StopEnds()
      requires StopUnderWay(bus, me) && bus.threads[me].mode.Free?
      ensures BusEmpty(bus) && me != B.WORKER && me < |bus.threads| && bus.threads[me].stack == []
    {
    }

    /** The components run their callbacks, which use the bus and the registry together with all other threads. */
    method RunWorld(ghost busRun: seq<BT.Turn>, ghost serviceRun: seq<ST.Turn>)
      requires B.Inv(bus) && S.Inv(services) && CallerFree() && BusRuns(bus, busRun) && ServiceRuns(services, serviceRun)
      modifies this`bus, this`services
      ensures B.Inv(bus) && S.Inv(services) && CallerFree() && bus.bus.running == old(bus.bus.running)
      ensures bus == BT.After(old(bus), busRun) && services == ST.After(old(services), serviceRun)
    {
      hide B.Inv, S.Inv;
      BT.RunKeepsInv(bus, busRun);
      ST.RunKeepsInv(services, serviceRun);
      bus := BT.After(bus, busRun);
      services := ST.After(services, serviceRun);
    }

    /** The world of an init that finds the core stopped, given what the start of the components answers. */
    ghost predicate InitWorld(w: World, created: bool, joined: SysErr, code: SysErr)
      reads this
    {
      && ResetRuns(services, w.resets)
      && var services1 := ST.After(S.Step(services, me, S.DoReset), w.resets);
      && (!created ==> ResetRuns(services1, w.finalResets))
      && (created ==>
            && B.Ready(bus, me, B.DoStart)
            && var bus1 := B.Step(bus, me, B.DoStart);
            && BusRuns(bus1, w.busRun) && ServiceRuns(services1, w.serviceRun)
            && (code != Ok ==> StopWorld(BT.After(bus1, w.busRun), ST.After(services1, w.serviceRun), w, joined)))
    }

    ghost predicate StopWorld(b: B.Sys, s: S.Sys, w: World, joined: SysErr) {
      (joined == Ok ==> StopRuns(b, w.stops)) && ResetRuns(s, w.finalResets)
    }

    /** sys_core_init. The first start-up error is returned, and unless the worker could not be joined a failed
        init leaves everything clean. */
    method Init(section: seq<Desc>, cb: Callbacks, created: bool, joined: SysErr, ghost w: World) returns (r: SysErr)
      requires Valid()
      requires state.Stopped? ==> InitWorld(w, created, joined, StartAll(section, engine, cb).1)
      modifies this
      ensures !old(state).Stopped? ==> r == ErrState && unchanged(this)
      ensures old(state).Stopped? ==>
                && r == (if created then StartAll(section, old(engine), cb).1 else ErrGeneric)
                && state == (if r == Ok then CoreState.Running else CoreState.Stopped)
                && (r == Ok ==> Valid() && AllUp(TableOf(Collect(section)), engine))
                && (r != Ok ==> NothingUp(engine) && RegistryEmpty(services))
                && (r != Ok && (joined == Ok || !created) ==> Valid() && Clean())
    {
      hide B.Inv, S.Inv, NothingUp, RegistryEmpty, BusEmpty, StopRuns, ResetRuns, BusRuns, ServiceRuns, Stoppable, AllUp;
      hide StartAll, B.Ready, B.Step, S.Step;
      if !state.Stopped? {
        return ErrState;
      }
      state := CoreState.Starting;
      ResetServices(w.resets);
      r := BusAndComponents(section, cb, created, w);
      if r != Ok {
        Undo(joined, w);
      }
      state := if r == Ok then CoreState.Running else CoreState.Stopped;
    }

    /** The bus, and on it the components. */
    method BusAndComponents(section: seq<Desc>, cb: Callbacks, created: bool, ghost w: World) returns (r: SysErr)
      requires B.Inv(bus) && S.Inv(services) && CallerFree() && BusEmpty(bus) && NothingUp(engine)
      requires created ==> B.Ready(bus, me, B.DoStart) && BusRuns(B.Step(bus, me, B.DoStart), w.busRun) && ServiceRuns(services, w.serviceRun)
      modifies this`engine, this`section, this`bus, this`services, this`running
      ensures r == if created then StartAll(section, old(engine), cb).1 else ErrGeneric
      ensures B.Inv(bus) && S.Inv(services) && CallerFree() && running == bus.bus.running == created
      ensures r == Ok ==> this.section == section && Stoppable(section, engine) && AllUp(TableOf(Collect(section)), engine)
      ensures r != Ok ==> NothingUp(engine)
      ensures created ==> B.Ready(old(bus), me, B.DoStart) && BT.Runs(B.Step(old(bus), me, B.DoStart), w.busRun)
                          && bus == BT.After(B.Step(old(bus), me, B.DoStart), w.busRun)
      ensures created ==> ST.Runs(old(services), w.serviceRun) && services == ST.After(old(services), w.serviceRun)
      ensures !created ==> bus == old(bus) && services == old(services)
    {
      hide B.Inv, S.Inv, NothingUp, Stoppable, AllUp, StartAll, B.Ready, B.Step;
      r := StartBus(created);
      if r == Ok {
        RunWorld(w.busRun, w.serviceRun);
        StartAllOutcome(section, engine, cb);
        this.section := section;
        engine, r := StartComponents(section, cb);
      } else {
        NotRunning();
      }
    }

    lemma NotRunning()
      requires BusEmpty(bus)
      ensures !bus.bus.running
    {
    }

    /** The rollback of a failed init. */
    method Undo(joined: SysErr, ghost w: World)
      requires B.Inv(bus) && S.Inv(services) && CallerFree() && running == bus.bus.running
      requires (running ==> StopWorld(bus, services, w, joined)) && ResetRuns(services, w.finalResets)
      requires !running ==> BusEmpty(bus)
      modifies this`bus, this`running, this`services
      ensures S.Inv(services) && RegistryEmpty(services)
      ensures joined == Ok || !old(running) ==> B.Inv(bus) && CallerFree() && BusEmpty(bus) && running == bus.bus.running
    {
      hide B.Inv, S.Inv, RegistryEmpty, BusEmpty, StopRuns, ResetRuns;
      var _ := StopBus(joined, w.stops);
      ResetServices(w.finalResets);
    }

    method StartComponents(section: seq<Desc>, cb: Callbacks) returns (e: Engine, r: SysErr)
      ensures (e, r) == StartAll(section, engine, cb)
    {
      var outcome := StartAll(section, engine, cb);
      return outcome.0, outcome.1;
    }

    method StopComponents(cb: Callbacks) returns (e: Engine, r: SysErr)
      requires Stoppable(section, engine)
      ensures Sized(TableOf(Collect(section)), engine)
      ensures (e, r) == Rollback(TableOf(Collect(section)), engine, cb)
    {
      StopAllOutcome(section, engine, cb);
      KnownTable(Collect(section));
      var outcome := Rollback(TableOf(Collect(section)), engine, cb);
      return outcome.0, outcome.1;
    }

    lemma KnownTable(ds: seq<Desc>)
      ensures Linked(TableOf(ds))
    {
      DiscoveredShape(ds);
    }

    ghost predicate ShutdownWorld(w: World, joined: SysErr)
      reads this
    {
      && BusRuns(bus, w.busRun) && ServiceRuns(services, w.serviceRun)
      && StopWorld(BT.After(bus, w.busRun), ST.After(services, w.serviceRun), w, joined)
    }

    /** sys_core_shutdown. The first stop error of a component wins over the bus, and both over left-over threads;
        unless the worker could not be joined, everything is clean. */
    method Shutdown(cb: Callbacks, joined: SysErr, unjoined: nat, ghost w: World) returns (r: SysErr)
      requires Valid()
      requires state.Running? ==> ShutdownWorld(w, joined)
      modifies this
      ensures !old(state).Running? ==> r == ErrState && unchanged(this)
      ensures old(state).Running? ==>
                && state == CoreState.Stopped && NothingUp(engine) && RegistryEmpty(services)
                && Sized(TableOf(Collect(old(section))), old(engine))
                && var component := Rollback(TableOf(Collect(old(section))), old(engine), cb).1;
                && r == (if component != Ok then component else if joined != Ok then joined
                         else if unjoined != 0 then ErrBusy else Ok)
                && (joined == Ok ==> Valid() && Clean())
    {
      hide B.Inv, S.Inv, NothingUp, RegistryEmpty, BusEmpty, StopRuns, ResetRuns, BusRuns, ServiceRuns, Stoppable, Sized;
      hide Rollback, B.Ready, B.Step, S.Step;
      if !state.Running? {
        return ErrState;
      }
      state := CoreState.Stopping;
      RunWorld(w.busRun, w.serviceRun);
      StopAllOutcome(section, engine, cb);
      var componentRet;
      engine, componentRet := StopComponents(cb);
      var eventRet := StopBus(joined, w.stops);
      r := Ok;
      if componentRet != Ok {
        r := componentRet;
      } else if eventRet != Ok {
        r := eventRet;
      }
      if unjoined != 0 && r == Ok {
        r := ErrBusy;
      }
      ResetServices(w.finalResets);
      state := CoreState.Stopped;
    }
  }
}
