/** What the event bus promises in every reachable state and over every run. */
module EventTheorems {
  import opened SysTypes
  import opened Sums
  import opened EventModel
  import opened EventSteps
  import opened EventProofs

  // ----- runs

  datatype Turn = Turn(t: nat, a: Action)

  ghost predicate Runs(s: Sys, turns: seq<Turn>)
    decreases |turns|
  {
    turns != [] ==> Ready(s, turns[0].t, turns[0].a) && Runs(Step(s, turns[0].t, turns[0].a), turns[1..])
  }

  ghost function After(s: Sys, turns: seq<Turn>): Sys
    requires Runs(s, turns)
    decreases |turns|
  {
    if turns == [] then s else After(Step(s, turns[0].t, turns[0].a), turns[1..])
  }

  /** A bus that was never started, no worker, and client threads outside it. */
  ghost predicate Initial(s: Sys) {
    && s.bus == Bus([], [], [], false, false) && s.accepted == s.delivered == []
    && |s.threads| > 0 && s.threads[WORKER].mode.Absent?
    && (forall i :: 0 <= i < |s.threads| ==> s.threads[i].stack == [])
    && (forall i :: 0 < i < |s.threads| ==> s.threads[i].mode.Free?)
  }

  lemma InitialInv(s: Sys)
    requires Initial(s)
    ensures Inv(s)
  {
    forall x: nat
      ensures Outstanding(s, x) == 0
    {
      SumZero(s.threads, ThreadHolds(x));
    }
    forall t | 0 <= t < |s.threads|
      ensures ThreadOk(s.bus, s.threads[t], t)
    {
      assert t > 0 ==> s.threads[t].mode.Free?;
    }
  }

  lemma {:induction false} RunKeepsInv(s: Sys, turns: seq<Turn>)
    requires Inv(s) && Runs(s, turns)
    ensures Inv(After(s, turns))
    decreases |turns|
  {
    hide Inv, Ready, Step;
    if turns != [] {
      StepKeepsInv(s, turns[0].t, turns[0].a);
      RunKeepsInv(Step(s, turns[0].t, turns[0].a), turns[1..]);
    }
  }

  lemma Reachable(s: Sys, turns: seq<Turn>)
    requires Initial(s) && Runs(s, turns)
    ensures Inv(After(s, turns))
  {
    InitialInv(s);
    RunKeepsInv(s, turns);
  }

  // ----- reclamation

  /** A record is freed only when nothing queued and nothing in progress refers to it. */
  lemma FreedOnlyIdle(s: Sys, t: nat, a: Action, x: nat)
    requires Inv(s) && Ready(s, t, a) && x < |s.bus.subs|
    requires !s.bus.subs[x].freed && x < |Step(s, t, a).bus.subs| && Step(s, t, a).bus.subs[x].freed
    ensures Outstanding(s, x) == 0 && Outstanding(Step(s, t, a), x) == 0
    ensures x !in Step(s, t, a).bus.table
  {
    StepKeepsInv(s, t, a);
    var s' := Step(s, t, a);
    assert SubOk(s'.bus.subs, s'.bus.table, x);
    assert s'.bus.subs[x].inFlight == Outstanding(s', x);
    assert s.bus.subs[x].inFlight == Outstanding(s, x);
    FreeingCountsNothing(s, t, a, x);
  }

  lemma FreeingCountsNothing(s: Sys, t: nat, a: Action, x: nat)
    requires BusOk(s.bus) && ThreadsOk(s.bus, s.threads) && Ready(s, t, a) && x < |s.bus.subs|
    requires !s.bus.subs[x].freed && x < |EffectOf(s, t, a).bus.subs| && EffectOf(s, t, a).bus.subs[x].freed
    ensures s.bus.subs[x].inFlight == 0
  {
    if a.StopResume? && x in s.bus.table {
      var k :| 0 <= k < |s.bus.table| && s.bus.table[k] == x;
      assert !InFlight(s.bus.subs, s.bus.table[k]);
    }
  }

  /** A callback that is about to be called, or is running, belongs to a record that still exists, and
      finish_callback always finds a positive count. */
  lemma CallsFindTheirRecord(s: Sys, t: nat, k: nat, j: nat)
    requires Inv(s) && t < |s.threads| && k < |s.threads[t].stack| && j < |s.threads[t].stack[k].rest|
    ensures var x := s.threads[t].stack[k].rest[j];
            x < |s.bus.subs| && !s.bus.subs[x].freed && s.bus.subs[x].inFlight > 0
  {
    var f := s.threads[t].stack[k];
    var x := f.rest[j];
    assert x in f.rest && multiset(f.rest)[x] > 0;
    SumBounds(s.threads[t].stack, k, FrameHolds(x));
    SumBounds(s.threads, t, ThreadHolds(x));
    assert Outstanding(s, x) > 0;
    if x < |s.bus.subs| {
      assert SubOk(s.bus.subs, s.bus.table, x);
    }
  }

  // ----- barriers

  /** A thread blocked in unsubscribe or stop is in no callback and holds no reference, so waiters never wait for each other. */
  lemma BlockedHoldsNothing(s: Sys, turns: seq<Turn>, t: nat, x: nat)
    requires Initial(s) && Runs(s, turns) && t < |After(s, turns).threads|
    requires var mode := After(s, turns).threads[t].mode; mode.UnsubWait? || mode.Joining? || mode.Draining?
    ensures After(s, turns).threads[t].stack == [] && Holds(After(s, turns).threads[t], x) == 0
  {
    hide Runs, After, Initial;
    Reachable(s, turns);
    BlockedIsOutside(After(s, turns), t, x);
  }

  lemma BlockedIsOutside(s: Sys, t: nat, x: nat)
    requires Inv(s) && t < |s.threads|
    requires s.threads[t].mode.UnsubWait? || s.threads[t].mode.Joining? || s.threads[t].mode.Draining?
    ensures s.threads[t].stack == [] && Holds(s.threads[t], x) == 0
  {
    assert ThreadOk(s.bus, s.threads[t], t);
  }

  /** An unsubscribe made inside a callback is refused and changes nothing but the answer. */
  lemma RefusedInCallback(s: Sys, t: nat, x: nat)
    requires Ready(s, t, DoUnsubscribe(x)) && InCallback(s.threads[t])
    ensures var s' := Step(s, t, DoUnsubscribe(x));
            && s'.bus == s.bus && s'.accepted == s.accepted && s'.delivered == s.delivered
            && s'.threads[t] == s.threads[t].(result := ErrBusy)
            && forall i :: 0 <= i < |s.threads| && i != t ==> s'.threads[i] == s.threads[i]
  {
  }

  /** The steps that bring references nearer to finish_callback: those of a publish in progress, and the turn of a
      worker that is awake and has something queued. */
  predicate Finishing(a: Action) {
    a.BeginCall? || a.EndCall? || a.Return? || a.WorkerTurn?
  }

  ghost predicate Advances(s: Sys, t: nat, a: Action) {
    && Finishing(a) && Ready(s, t, a)
    && (a.WorkerTurn? ==> s.bus.queue != [] && s.threads[t].mode != Sleeping(false))
  }

  ghost predicate CanAdvance(s: Sys, t: nat) {
    exists a :: Advances(s, t, a)
  }

  lemma BusyCanAdvance(s: Sys, t: nat)
    requires Inv(s) && t < |s.threads| && s.threads[t].stack != []
    ensures CanAdvance(s, t)
  {
    var th := s.threads[t];
    assert ThreadOk(s.bus, th, t);
    var k := |th.stack| - 1;
    if th.stack[k].rest == [] {
      assert Advances(s, t, Return);
    } else {
      CallsFindTheirRecord(s, t, k, 0);
      assert Advances(s, t, if th.stack[k].calling then EndCall(Ok) else BeginCall);
    }
  }

  /** A worker with something queued is awake and can go on: no wake-up of the worker is lost. */
  lemma WorkerNotLost(s: Sys)
    requires Inv(s) && (s.bus.queue != [] || !s.bus.running)
    ensures s.threads[WORKER].mode != Sleeping(false)
    ensures s.bus.queue != [] ==> CanAdvance(s, WORKER)
  {
    assert ThreadOk(s.bus, s.threads[WORKER], WORKER);
    if s.threads[WORKER].stack != [] {
      BusyCanAdvance(s, WORKER);
    } else if s.bus.queue != [] {
      assert Advances(s, WORKER, WorkerTurn);
    }
  }

  /** Blocked in unsubscribe or in the last part of stop, and not woken. */
  predicate Unwoken(th: Thread) {
    (th.mode.UnsubWait? || th.mode.Draining?) && !th.mode.woken
  }

  /** What such a thread waits for: its own record, or any with a callback in flight. */
  ghost predicate Awaits(s: Sys, t: nat, x: nat)
    requires t < |s.threads|
  {
    Unwoken(s.threads[t]) && InFlight(s.bus.subs, x) && (s.threads[t].mode.UnsubWait? ==> x == s.threads[t].mode.sub)
  }

  /** A thread still has to finish a callback of `x` and can take its next step. */
  ghost predicate HoldsAndAdvances(s: Sys, i: nat, x: nat)
    requires i < |s.threads|
  {
    Holds(s.threads[i], x) > 0 && CanAdvance(s, i)
  }

  /** Queued work refers to `x`, and the worker is awake and can take its next step. */
  ghost predicate QueuedAndServed(s: Sys, x: nat) {
    Sum(s.bus.queue, WorkHolds(x)) > 0 && |s.threads| > 0 && s.threads[WORKER].mode != Sleeping(false) && CanAdvance(s, WORKER)
  }

  /** Whatever an unwoken waiter of unsubscribe or stop waits for is held by another thread that can go on towards
      finish_callback, or by queued work the worker is about to take. */
  lemma WaiterHasRunner(s: Sys, t: nat, x: nat)
    requires Inv(s) && t < |s.threads| && Awaits(s, t, x)
    ensures QueuedAndServed(s, x) || exists i :: 0 <= i < |s.threads| && i != t && HoldsAndAdvances(s, i, x)
  {
    assert ThreadOk(s.bus, s.threads[t], t);
    BlockedIsOutside(s, t, x);
    CountAt(s, x);
    if Sum(s.threads, ThreadHolds(x)) > 0 {
      SumWitness(s.threads, ThreadHolds(x));
      var i :| 0 <= i < |s.threads| && ThreadHolds(x)(s.threads[i]) > 0;
      BusyCanAdvance(s, i);
      assert HoldsAndAdvances(s, i, x);
    } else {
      WorkerNotLost(s);
    }
  }

  /** Every unwoken waiter waits for something. */
  lemma AwaitedRecord(s: Sys, t: nat) returns (x: nat)
    requires Inv(s) && t < |s.threads| && Unwoken(s.threads[t])
    ensures Awaits(s, t, x)
  {
    assert ThreadOk(s.bus, s.threads[t], t);
    if s.threads[t].mode.UnsubWait? {
      x := s.threads[t].mode.sub;
    } else {
      x :| InFlight(s.bus.subs, x);
    }
  }

  // The steps still to be made by the publishes in progress and by the events queued.
  function FrameLoad(): Frame -> nat {
    (f: Frame) => if f.calling then 2 * |f.rest| else 2 * |f.rest| + 1
  }

  function WorkLoad(): Work -> nat {
    (w: Work) => 2 * |w.targets| + 2
  }

  function ThreadLoad(): Thread -> nat {
    (th: Thread) => Sum(th.stack, FrameLoad())
  }

  function Load(s: Sys): nat {
    Sum(s.bus.queue, WorkLoad()) + Sum(s.threads, ThreadLoad())
  }

  lemma StackLoad(s: Sys, t: nat, a: Action)
    requires Advances(s, t, a) && !a.WorkerTurn?
    ensures EffectOf(s, t, a).bus.queue == s.bus.queue
    ensures ThreadLoad()(EffectOf(s, t, a).next) < ThreadLoad()(s.threads[t])
  {
    var th, next := s.threads[t], EffectOf(s, t, a).next;
    if !a.Return? {
      SumUpdate(th.stack, |th.stack| - 1, Top(next), FrameLoad());
    }
  }

  lemma TakeLoad(s: Sys, t: nat)
    requires Advances(s, t, WorkerTurn)
    ensures var e := EffectOf(s, t, WorkerTurn);
            Sum(e.bus.queue, WorkLoad()) + ThreadLoad()(e.next) < Sum(s.bus.queue, WorkLoad()) + ThreadLoad()(s.threads[t])
  {
    var w := s.bus.queue[0];
    SumHead(s.bus.queue, WorkLoad());
    SumSnoc([], NewFrame(w.event, w.payload, w.targets), FrameLoad());
    assert [] + [NewFrame(w.event, w.payload, w.targets)] == EffectOf(s, t, WorkerTurn).next.stack;
  }

  lemma RouseKeepsLoad(threads: seq<Thread>, rouse: bool, nudge: bool)
    ensures Sum(RouseAll(threads, rouse, nudge), ThreadLoad()) == Sum(threads, ThreadLoad())
  {
    hide Sum;
    SumSame(threads, RouseAll(threads, rouse, nudge), ThreadLoad());
  }

  /** Every advance leaves less to be done. */
  lemma AdvanceShrinks(s: Sys, t: nat, a: Action)
    requires Advances(s, t, a)
    ensures Load(Step(s, t, a)) < Load(s)
  {
    var e := EffectOf(s, t, a);
    if a.WorkerTurn? {
      TakeLoad(s, t);
    } else {
      StackLoad(s, t, a);
    }
    assert !e.starts;
    hide EffectOf, Sum, Rouse, ThreadLoad, WorkLoad, Ready;
    SumUpdate(s.threads, t, e.next, ThreadLoad());
    RouseKeepsLoad(s.threads[t := e.next], e.rouse, e.nudge);
  }

  lemma WaiterStays(s: Sys, i: nat, a: Action, t: nat)
    requires Advances(s, i, a) && t < |s.threads| && t != i && (s.threads[t].mode.UnsubWait? || s.threads[t].mode.Draining?)
    ensures |Step(s, i, a).threads| == |s.threads|
    ensures var th := Step(s, i, a).threads[t];
            th.mode.UnsubWait? || th.mode.Draining?
  {
  }

  lemma RunnerOf(s: Sys, t: nat) returns (i: nat, a: Action)
    requires Inv(s) && t < |s.threads| && Unwoken(s.threads[t])
    ensures i < |s.threads| && i != t && Advances(s, i, a)
  {
    var x := AwaitedRecord(s, t);
    assert ThreadOk(s.bus, s.threads[t], t);
    WaiterHasRunner(s, t, x);
    hide Inv, Advances;
    if QueuedAndServed(s, x) {
      i := WORKER;
    } else {
      i :| 0 <= i < |s.threads| && i != t && HoldsAndAdvances(s, i, x);
    }
    a :| Advances(s, i, a);
  }

  /** From every reachable state the others can wake a waiter by finishing what they have begun, and nothing else. */
  lemma {:induction false} WaiterIsWoken(s: Sys, t: nat) returns (turns: seq<Turn>)
    requires Inv(s) && t < |s.threads| && Unwoken(s.threads[t])
    ensures Runs(s, turns) && |turns| <= Load(s)
    ensures forall k :: 0 <= k < |turns| ==> turns[k].t != t && Finishing(turns[k].a)
    ensures t < |After(s, turns).threads| && var th := After(s, turns).threads[t];
            (th.mode.UnsubWait? || th.mode.Draining?) && th.mode.woken
    decreases Load(s)
  {
    hide Inv, Load, Ready, EffectOf;
    var i, a := RunnerOf(s, t);
    AdvanceShrinks(s, i, a);
    WaiterStays(s, i, a, t);
    StepKeepsInv(s, i, a);
    var s1 := Step(s, i, a);
    var rest: seq<Turn> := [];
    if Unwoken(s1.threads[t]) {
      rest := WaiterIsWoken(s1, t);
    }
    turns := [Turn(i, a)] + rest;
    assert turns[1..] == rest;
  }

  /** Only threads other than `t` step, and every step is an advance. */
  ghost predicate OthersAdvance(s: Sys, turns: seq<Turn>, t: nat)
    requires Runs(s, turns)
    decreases |turns|
  {
    turns != [] ==>
      && turns[0].t != t && Advances(s, turns[0].t, turns[0].a)
      && OthersAdvance(Step(s, turns[0].t, turns[0].a), turns[1..], t)
  }

  /** However the others advance, they can only do so for as long as there is work outstanding, and when none of them
      can go on the waiter has been woken. */
  lemma {:induction false} AdvancingWakes(s: Sys, turns: seq<Turn>, t: nat)
    requires Inv(s) && t < |s.threads| && (s.threads[t].mode.UnsubWait? || s.threads[t].mode.Draining?)
    requires Runs(s, turns) && OthersAdvance(s, turns, t)
    ensures |turns| <= Load(s)
    ensures var s' := After(s, turns);
            && t < |s'.threads| && (s'.threads[t].mode.UnsubWait? || s'.threads[t].mode.Draining?)
            && ((forall i :: 0 <= i < |s'.threads| && i != t ==> !CanAdvance(s', i)) ==> s'.threads[t].mode.woken)
    decreases |turns|
  {
    hide Inv, Load, Ready, EffectOf, Advances;
    if turns != [] {
      var s1 := Step(s, turns[0].t, turns[0].a);
      AdvanceShrinks(s, turns[0].t, turns[0].a);
      WaiterStays(s, turns[0].t, turns[0].a, t);
      StepKeepsInv(s, turns[0].t, turns[0].a);
      AdvancingWakes(s1, turns[1..], t);
    } else if !s.threads[t].mode.woken {
      var i, a := RunnerOf(s, t);
      assert CanAdvance(s, i);
    }
  }

  /** Everybody waiting on the bus is woken when the last reference to a record is given back, and not before. */
  lemma LastFinishWakes(s: Sys, t: nat, r: SysErr, i: nat)
    requires Inv(s) && Ready(s, t, EndCall(r)) && i < |s.threads| && i != t
    ensures var (th, th') := (s.threads[i], Step(s, t, EndCall(r)).threads[i]);
            th.mode.UnsubWait? || th.mode.Draining? ==>
              && (th'.mode.UnsubWait? || th'.mode.Draining?)
              && (th'.mode.woken <==> th.mode.woken || Outstanding(Step(s, t, EndCall(r)), Top(s.threads[t]).rest[0]) == 0)
  {
    hide Inv, Outstanding;
    var x := Top(s.threads[t]).rest[0];
    StepKeepsInv(s, t, EndCall(r));
    CountAt(Step(s, t, EndCall(r)), x);
  }

  lemma CountAt(s: Sys, x: nat)
    requires Inv(s) && x < |s.bus.subs|
    ensures s.bus.subs[x].inFlight == Outstanding(s, x)
  {
  }

  // ----- publishing

  /** A publish that returns has called exactly the subscribers retained for it, each once and in table order, and a
      synchronous one reports the first failure among their answers. */
  lemma PublishAnswers(s: Sys, t: nat)
    requires Inv(s) && Ready(s, t, Return)
    ensures var (f, th') := (Top(s.threads[t]), Step(s, t, Return).threads[t]);
            && f.called == f.targets && |f.answers| == |f.targets|
            && th'.result == FirstFailure(f.answers) && th'.stack == s.threads[t].stack[..|s.threads[t].stack| - 1]
  {
    assert ThreadOk(s.bus, s.threads[t], t);
    TopOk(s.threads[t].stack);
    var f := Top(s.threads[t]);
    assert f.called + [] == f.called;
  }

  /** One callback: it begins with the next subscriber and, when it returns, is logged with the answer it gave. */
  lemma CallIsLogged(s: Sys, t: nat, a: Action)
    requires Inv(s) && Ready(s, t, a) && (a.BeginCall? || a.EndCall?)
    ensures var (th, th') := (s.threads[t], Step(s, t, a).threads[t]);
            && |th'.stack| == |th.stack| && th'.stack[..|th.stack| - 1] == th.stack[..|th.stack| - 1]
            && (a.BeginCall? ==> Top(th') == Top(th).(calling := true))
            && (a.EndCall? ==>
                  && !Top(th').calling && Top(th').targets == Top(th).targets && Top(th').event == Top(th).event
                  && Top(th').payload == Top(th).payload
                  && Top(th').called == Top(th).called + [Top(th).rest[0]]
                  && Top(th').answers == Top(th).answers + [a.result])
  {
    hide Counted, InOrder, UniqueKeys, WorkerAccounted, WaitsDistinct, BusOk, ThreadsOk;
  }

  /** What a synchronous publish retains: the subscribers registered for the event at that moment. */
  lemma SyncTargets(s: Sys, t: nat, event: nat, payload: Payload)
    requires Inv(s) && Ready(s, t, DoPublishSync(event, payload)) && PublishSync(s.bus, event).2 == Ok
    ensures var th' := Step(s, t, DoPublishSync(event, payload)).threads[t];
            && th'.stack != [] && th'.stack[..|th'.stack| - 1] == s.threads[t].stack
            && Top(th').payload == payload && Distinct(Top(th').targets)
            && forall x: nat :: x in Top(th').targets <==> x in s.bus.table && x < |s.bus.subs| && s.bus.subs[x].event == event
  {
    hide Matching, Retain, Distinct, StackOk, Counted, InOrder, ThreadsOk;
    MatchingIs(s.bus.subs, s.bus.table, event);
    forall x: nat | x in s.bus.table && x < |s.bus.subs|
      ensures s.bus.subs[x].active
    {
      assert SubOk(s.bus.subs, s.bus.table, x);
    }
  }

  // ----- delivery

  /** Over every run deliveries happen in publish order, each at most once, and only what was accepted is delivered. */
  lemma DeliveredInOrder(s: Sys, turns: seq<Turn>)
    requires Initial(s) && Runs(s, turns)
    ensures var s' := After(s, turns);
            && s'.delivered <= s'.accepted && |s'.threads| > 0
            && (s'.bus.queue == [] && s'.threads[WORKER].stack == [] ==> s'.delivered == s'.accepted)
  {
    hide Runs, After, Initial;
    Reachable(s, turns);
    DeliveredIsPrefix(After(s, turns));
  }

  lemma DeliveredIsPrefix(s: Sys)
    requires InOrder(s)
    ensures s.delivered <= s.accepted
    ensures s.bus.queue == [] && s.threads[WORKER].stack == [] ==> s.delivered == s.accepted
  {
    assert s.delivered + InHand(s.threads[WORKER]) + Flatten(s.bus.queue)
        == s.delivered + (InHand(s.threads[WORKER]) + Flatten(s.bus.queue));
  }

  /** An accepted event is logged once for each subscriber registered for it at that moment, with the payload as it was. */
  lemma AcceptedForRegistered(s: Sys, t: nat, event: nat, payload: Payload)
    requires Inv(s) && Ready(s, t, DoPublishAsync(event, payload))
    ensures var d := NewlyAccepted(s, t, DoPublishAsync(event, payload));
            && Distinct(d)
            && (PublishAsync(s.bus, event, payload).1 != Ok ==> d == [])
            && (PublishAsync(s.bus, event, payload).1 == Ok ==>
                  forall x: nat :: Delivery(event, payload, x) in d <==>
                    x in s.bus.table && x < |s.bus.subs| && s.bus.subs[x].event == event)
  {
    hide Deliveries, Matching, Retain, Distinct;
    var targets := Matching(s.bus.subs, s.bus.table, event);
    MatchingIs(s.bus.subs, s.bus.table, event);
    DeliveriesOf(Work(event, payload, targets));
    NothingRepeats();
    forall x: nat | x in s.bus.table && x < |s.bus.subs|
      ensures s.bus.subs[x].active
    {
      assert SubOk(s.bus.subs, s.bus.table, x);
    }
  }

  lemma NothingRepeats()
    ensures Distinct<Delivery>([])
  {
  }

  lemma DeliveriesOf(w: Work)
    requires Distinct(w.targets)
    ensures Distinct(Deliveries(w)) && (w.targets == [] ==> Deliveries(w) == [])
    ensures forall x: nat :: Delivery(w.event, w.payload, x) in Deliveries(w) <==> x in w.targets
  {
    var d := Deliveries(w);
    forall x: nat | x in w.targets
      ensures Delivery(w.event, w.payload, x) in d
    {
      var k :| 0 <= k < |w.targets| && w.targets[k] == x;
      assert d[k] == Delivery(w.event, w.payload, x);
    }
    forall k | 0 <= k < |d|
      ensures d[k] !in d[..k]
    {
      assert w.targets[k] !in w.targets[..k];
      forall j | 0 <= j < k
        ensures d[j] != d[k]
      {
        assert w.targets[..k][j] == w.targets[j];
      }
    }
  }

  /** Once the bus no longer accepts, nothing is queued any more, and each turn of the idle worker shortens
      the queue or ends the worker. */
  lemma DrainTerminates(s: Sys, t: nat, a: Action)
    requires Inv(s) && !s.bus.running && Ready(s, t, a) && !a.DoStart?
    ensures var s' := Step(s, t, a);
            && !s'.bus.running && s'.accepted == s.accepted && |s'.bus.queue| <= |s.bus.queue|
            && (a.WorkerTurn? ==> |s'.bus.queue| < |s.bus.queue| || s'.threads[WORKER].mode.Absent?)
  {
    assert ThreadOk(s.bus, s.threads[t], t);
  }

  /** When a stop that had a worker to join returns to its caller, nothing is left behind. */
  lemma StopLeavesNothing(s: Sys, t: nat)
    requires Inv(s) && Ready(s, t, StopResume) && Step(s, t, StopResume).threads[t].mode.Free?
    ensures var s' := Step(s, t, StopResume);
            && s'.bus.table == [] && s'.bus.queue == [] && !s'.bus.accepting
            && s'.delivered == s'.accepted && s'.threads[t].result == Ok
            && forall x :: x in s.bus.table ==> s'.bus.subs[x].freed
  {
    assert ThreadOk(s.bus, s.threads[t], t) && ThreadOk(s.bus, s.threads[WORKER], WORKER);
    DeliveredIsPrefix(s);
  }

  // ----- the unsubscribe barrier, over whole runs

  /** The record has left the table for good. */
  ghost predicate Detached(s: Sys, x: nat) {
    x < |s.bus.subs| && x !in s.bus.table && !s.bus.subs[x].active
  }

  lemma DetachedStep(s: Sys, t: nat, a: Action, x: nat)
    requires Inv(s) && Ready(s, t, a) && Detached(s, x)
    ensures var s' := Step(s, t, a);
            && Detached(s', x) && s'.bus.subs[x].inFlight <= s.bus.subs[x].inFlight
            && (s.bus.subs[x].freed ==> s'.bus.subs[x].freed)
  {
    hide Counted, InOrder, UniqueKeys, WorkerAccounted, WaitsDistinct, StackOk;
    StepRespects(s, t, a);
    if a.DoPublishSync? || a.DoPublishAsync? {
      MatchingIs(s.bus.subs, s.bus.table, a.event);
      hide Matching;
    } else {
      hide Matching, Retain;
    }
  }

  /** Once a record is unsubscribed, over any run: it is never registered again, its callbacks in flight only become
      fewer, and once it is freed it stays freed and nothing queued or in progress ever refers to it. */
  lemma {:induction false} DetachedOnlyFalls(s: Sys, turns: seq<Turn>, x: nat)
    requires Inv(s) && Runs(s, turns) && Detached(s, x)
    ensures var s' := After(s, turns);
            && Detached(s', x) && s'.bus.subs[x].inFlight <= s.bus.subs[x].inFlight
            && (s.bus.subs[x].freed ==> s'.bus.subs[x].freed && Outstanding(s', x) == 0)
    decreases |turns|
  {
    hide Inv, Ready, Step, Outstanding;
    if turns != [] {
      var s1 := Step(s, turns[0].t, turns[0].a);
      DetachedStep(s, turns[0].t, turns[0].a, x);
      StepKeepsInv(s, turns[0].t, turns[0].a);
      DetachedOnlyFalls(s1, turns[1..], x);
    } else {
      FreedIsForgotten(s, x);
    }
  }

  lemma FreedIsForgotten(s: Sys, x: nat)
    requires Inv(s) && x < |s.bus.subs|
    ensures s.bus.subs[x].freed ==> Outstanding(s, x) == 0
  {
    assert SubOk(s.bus.subs, s.bus.table, x);
  }
}
