/** Every step of the event bus keeps its invariant. */
module EventProofs {
  import opened SysTypes
  import opened Sums
  import opened EventModel
  import opened EventSteps

  // ----- the bus

  lemma SubscribeKeepsBus(b: Bus, event: nat, client: nat)
    requires BusOk(b)
    ensures BusOk(Subscribe(b, event, client).0)
  {
    if Subscribe(b, event, client).1 == Ok {
      DistinctSnoc(b.table, |b.subs|);
      var b' := Subscribe(b, event, client).0;
      forall x | 0 <= x < |b'.subs|
        ensures SubOk(b'.subs, b'.table, x)
      {
        assert x < |b.subs| ==> SubOk(b.subs, b.table, x);
      }
    }
  }

  lemma RetainKeepsBus(b: Bus, targets: seq<nat>, queue: seq<Work>)
    requires BusOk(b) && (forall x :: x in targets ==> x in b.table) && |queue| <= QUEUE_CAPACITY
    ensures BusOk(b.(subs := Retain(b.subs, targets), queue := queue))
  {
    var b' := b.(subs := Retain(b.subs, targets), queue := queue);
    forall x | 0 <= x < |b'.subs|
      ensures SubOk(b'.subs, b'.table, x)
    {
      assert SubOk(b.subs, b.table, x);
    }
  }

  lemma DetachKeepsBus(b: Bus, x: nat)
    requires BusOk(b) && x in b.table
    ensures x < |b.subs| && BusOk(Detach(b, x)) && x !in Detach(b, x).table
  {
    RemoveIs(b.table, x);
    var b' := Detach(b, x);
    forall y | 0 <= y < |b'.subs|
      ensures SubOk(b'.subs, b'.table, y)
    {
      assert SubOk(b.subs, b.table, y);
    }
  }

  lemma FinishKeepsBus(b: Bus, x: nat)
    requires BusOk(b) && x < |b.subs|
    ensures BusOk(FinishCallback(b, x).0)
  {
    var b' := FinishCallback(b, x).0;
    forall y | 0 <= y < |b'.subs|
      ensures SubOk(b'.subs, b'.table, y)
    {
      assert SubOk(b.subs, b.table, y);
    }
  }

  lemma ClearKeepsBus(b: Bus)
    requires BusOk(b) && !AnyInFlight(b)
    ensures BusOk(Clear(b))
  {
    var b' := Clear(b);
    forall y | 0 <= y < |b'.subs|
      ensures SubOk(b'.subs, b'.table, y)
    {
      assert SubOk(b.subs, b.table, y);
      if y in b.table {
        var k :| 0 <= k < |b.table| && b.table[k] == y;
        assert !InFlight(b.subs, b.table[k]);
      }
    }
  }

  lemma UnsubKeepsBus(b: Bus, th: Thread, x: nat)
    requires BusOk(b) && x < |b.subs| && x !in b.table
    ensures BusOk(UnsubEffect(b, th, x).bus)
  {
    var b' := UnsubEffect(b, th, x).bus;
    forall y | 0 <= y < |b'.subs|
      ensures SubOk(b'.subs, b'.table, y)
    {
      assert SubOk(b.subs, b.table, y);
    }
  }

  lemma StepKeepsBus(s: Sys, t: nat, a: Action)
    requires BusOk(s.bus) && ThreadsOk(s.bus, s.threads) && Ready(s, t, a)
    ensures BusOk(EffectOf(s, t, a).bus)
  {
    var b, th := s.bus, s.threads[t];
    assert ThreadOk(b, th, t);
    hide ThreadsOk;
    match a
    case DoSubscribe(event, client) =>
      SubscribeKeepsBus(b, event, client);
    case DoPublishSync(event, _) =>
      MatchingIs(b.subs, b.table, event);
      RetainKeepsBus(b, Matching(b.subs, b.table, event), b.queue);
    case DoPublishAsync(event, payload) =>
      MatchingIs(b.subs, b.table, event);
      if |b.queue| < QUEUE_CAPACITY {
        RetainKeepsBus(b, Matching(b.subs, b.table, event), PublishAsync(b, event, payload).0.queue);
      }
    case DoUnsubscribe(x) =>
      if x in b.table && !InCallback(th) {
        DetachKeepsBus(b, x);
        UnsubKeepsBus(Detach(b, x), th, x);
      }
    case UnsubResume =>
      UnsubKeepsBus(b, th, th.mode.sub);
    case StopResume =>
      if !AnyInFlight(b) {
        ClearKeepsBus(b);
      }
    case EndCall(_) =>
      FinishKeepsBus(b, Top(th).rest[0]);
    case _ =>
  }

  // ----- what the other threads rely on

  /** A bus change that respects the waits of every thread but the one that takes the step, which may dispose of `mine`. */
  ghost predicate Respects(b: Bus, b': Bus, e: Effect, mine: Option<nat>) {
    && |b.subs| <= |b'.subs|
    && (forall x :: 0 <= x < |b.subs| && x !in b.table ==> x !in b'.table)
    && (forall x :: 0 <= x < |b.subs| && b'.subs[x].freed && !b.subs[x].freed ==> x in b.table || mine == Some(x))
    && (!e.rouse ==> forall x :: 0 <= x < |b.subs| && b.subs[x].inFlight != 0 ==> b'.subs[x].inFlight != 0)
    && (!e.nudge && b.queue == [] && b.running ==> b'.queue == [] && b'.running)
    && (!e.starts && b.queue == [] && !b.running ==> b'.queue == [])
    && (!e.starts && !b.running ==> !b'.running)
  }

  function Mine(th: Thread, a: Action): Option<nat> {
    if a.UnsubResume? && th.mode.UnsubWait? then Some(th.mode.sub) else None
  }

  lemma OtherStaysOk(b: Bus, b': Bus, e: Effect, th: Thread, i: nat, mine: Option<nat>)
    requires ThreadOk(b, th, i) && BusOk(b) && Respects(b, b', e, mine)
    requires th.mode.UnsubWait? ==> mine != Some(th.mode.sub)
    requires e.starts ==> !th.mode.Joining? && !th.mode.Draining? && i != WORKER
    ensures ThreadOk(b', Rouse(th, e.rouse, e.nudge), i)
  {
    if th.mode.Draining? && !th.mode.woken && !e.rouse {
      var x :| InFlight(b.subs, x);
      assert InFlight(b'.subs, x);
    }
  }

  lemma PublishRespects(b: Bus, event: nat, payload: Payload, e: Effect)
    requires BusOk(b)
    requires e.bus == PublishSync(b, event).0 || (e.bus == PublishAsync(b, event, payload).0 && e.nudge == (|e.bus.queue| > |b.queue|))
    ensures Respects(b, e.bus, e, None)
  {
  }

  lemma SubscribeRespects(b: Bus, event: nat, client: nat, e: Effect)
    requires BusOk(b) && e.bus == Subscribe(b, event, client).0
    ensures Respects(b, e.bus, e, None)
  {
  }

  lemma UnsubRespects(b: Bus, b0: Bus, th: Thread, x: nat, mine: Option<nat>)
    requires BusOk(b) && BusOk(b0) && x < |b.subs|
    requires (b == b0 && mine == Some(x)) || (x in b0.table && x < |b0.subs| && b == Detach(b0, x))
    ensures Respects(b0, UnsubEffect(b, th, x).bus, UnsubEffect(b, th, x), mine)
  {
    RemoveIs(b0.table, x);
  }

  lemma StepRespects(s: Sys, t: nat, a: Action)
    requires BusOk(s.bus) && ThreadsOk(s.bus, s.threads) && Ready(s, t, a)
    ensures var e := EffectOf(s, t, a);
            Respects(s.bus, e.bus, e, Mine(s.threads[t], a))
  {
    var b, th := s.bus, s.threads[t];
    assert ThreadOk(b, th, t);
    hide ThreadsOk;
    match a
    case DoSubscribe(event, client) =>
      SubscribeRespects(b, event, client, EffectOf(s, t, a));
    case DoPublishSync(event, payload) =>
      PublishRespects(b, event, payload, EffectOf(s, t, a));
    case DoPublishAsync(event, payload) =>
      PublishRespects(b, event, payload, EffectOf(s, t, a));
    case DoUnsubscribe(x) =>
      if x in b.table && !InCallback(th) {
        DetachKeepsBus(b, x);
        UnsubRespects(Detach(b, x), b, th, x, None);
      }
    case UnsubResume =>
      UnsubRespects(b, b, th, th.mode.sub, Some(th.mode.sub));
    case _ =>
  }

  // ----- the threads

  lemma PushKeepsStack(stack: seq<Frame>, f: Frame)
    requires StackOk(stack) && FrameOk(f) && !f.calling && (stack != [] ==> stack[|stack| - 1].calling)
    ensures StackOk(stack + [f])
  {
  }

  lemma PopKeepsStack(stack: seq<Frame>)
    requires StackOk(stack) && stack != []
    ensures StackOk(stack[..|stack| - 1])
  {
  }

  lemma SetTopKeepsStack(stack: seq<Frame>, f: Frame)
    requires StackOk(stack) && FrameOk(f) && stack != [] && (f.calling ==> f.rest != [])
    ensures StackOk(stack[|stack| - 1 := f])
  {
  }

  lemma {:induction false} FirstFailureSnoc(answers: seq<SysErr>, r: SysErr)
    ensures FirstFailure(answers + [r]) == if FirstFailure(answers) == Ok then r else FirstFailure(answers)
  {
    if answers == [] {
      assert ([] + [r])[1..] == [];
    } else {
      assert (answers + [r])[1..] == answers[1..] + [r];
      FirstFailureSnoc(answers[1..], r);
    }
  }

  lemma AnswerKeepsFrame(f: Frame, r: SysErr)
    requires FrameOk(f) && f.rest != []
    ensures FrameOk(f.(called := f.called + [f.rest[0]], rest := f.rest[1..], calling := false, answers := f.answers + [r],
                       firstError := if f.firstError == Ok then r else f.firstError))
  {
    FirstFailureSnoc(f.answers, r);
    assert f.called + [f.rest[0]] + f.rest[1..] == f.called + f.rest;
  }

  lemma CallKeepsFrame(f: Frame)
    requires FrameOk(f)
    ensures FrameOk(f.(calling := true))
  {
  }

  lemma TopOk(stack: seq<Frame>)
    requires StackOk(stack) && stack != []
    ensures FrameOk(stack[|stack| - 1])
  {
  }

  lemma NewFrameOk(event: nat, payload: Payload, targets: seq<nat>)
    ensures FrameOk(NewFrame(event, payload, targets)) && !NewFrame(event, payload, targets).calling
    ensures StackOk([NewFrame(event, payload, targets)])
  {
  }

  lemma NextStaysOk(s: Sys, t: nat, a: Action)
    requires BusOk(s.bus) && ThreadsOk(s.bus, s.threads) && Ready(s, t, a)
    ensures var e := EffectOf(s, t, a);
            ThreadOk(e.bus, Rouse(e.next, e.rouse, e.nudge), t)
  {
    var b, th := s.bus, s.threads[t];
    assert ThreadOk(b, th, t);
    if a.BeginCall? || a.EndCall? || a.Return? || a.DoPublishSync? {
      CallNextOk(s, t, a);
    } else if a.DoUnsubscribe? {
      if a.sub in b.table && a.sub < |b.subs| && !InCallback(th) {
        UnsubNextOk(s, t, a.sub);
      }
    } else if a.StopResume? {
      DrainNextOk(b, th, t);
    } else if a.WorkerTurn? {
      WorkerNextOk(b, th, t);
    }
  }

  lemma WorkerNextOk(b: Bus, th: Thread, t: nat)
    requires ThreadOk(b, th, t) && AtLoop(th)
    ensures var e := WorkerEffect(b, th);
            ThreadOk(e.bus, Rouse(e.next, e.rouse, e.nudge), t)
  {
    hide NewFrame, FrameOk;
    if b.queue != [] {
      NewFrameOk(b.queue[0].event, b.queue[0].payload, b.queue[0].targets);
    }
  }

  lemma CallNextOk(s: Sys, t: nat, a: Action)
    requires Ready(s, t, a) && ThreadOk(s.bus, s.threads[t], t)
    requires a.BeginCall? || a.EndCall? || a.Return? || a.DoPublishSync?
    ensures var e := EffectOf(s, t, a);
            ThreadOk(e.bus, Rouse(e.next, e.rouse, e.nudge), t)
  {
    hide PublishSync, FinishCallback, StackOk, FrameOk, NewFrame;
    var th, e := s.threads[t], EffectOf(s, t, a);
    if a.DoPublishSync? {
      NewFrameOk(a.event, a.payload, PublishSync(s.bus, a.event).1);
      if e.next.stack != th.stack {
        PushKeepsStack(th.stack, NewFrame(a.event, a.payload, PublishSync(s.bus, a.event).1));
      }
    } else if a.Return? {
      PopKeepsStack(th.stack);
    } else {
      TopOk(th.stack);
      if a.EndCall? {
        AnswerKeepsFrame(Top(th), a.result);
      } else {
        CallKeepsFrame(Top(th));
      }
      SetTopKeepsStack(th.stack, Top(e.next));
    }
  }

  lemma UnsubNextOk(s: Sys, t: nat, x: nat)
    requires BusOk(s.bus) && x in s.bus.table && x < |s.bus.subs| && t < |s.threads|
    requires s.threads[t].mode.Free? && s.threads[t].stack == [] && t != WORKER
    ensures var e := UnsubEffect(Detach(s.bus, x), s.threads[t], x);
            ThreadOk(e.bus, Rouse(e.next, e.rouse, e.nudge), t)
  {
    DetachKeepsBus(s.bus, x);
    assert SubOk(s.bus.subs, s.bus.table, x);
  }

  lemma DrainNextOk(b: Bus, th: Thread, t: nat)
    requires th.stack == [] && !b.running && t != WORKER
    ensures var e := DrainEffect(b, th);
            ThreadOk(e.bus, Rouse(e.next, e.rouse, e.nudge), t)
  {
    if AnyInFlight(b) {
      var k :| 0 <= k < |b.table| && InFlight(b.subs, b.table[k]);
      assert SomeInFlight(b.subs);
    }
  }

  lemma StepKeepsThreads(s: Sys, t: nat, a: Action)
    requires BusOk(s.bus) && ThreadsOk(s.bus, s.threads) && WaitsDistinct(s.threads) && Ready(s, t, a)
    ensures ThreadsOk(Step(s, t, a).bus, Step(s, t, a).threads)
  {
    var s', e := Step(s, t, a), EffectOf(s, t, a);
    StepRespects(s, t, a);
    NextStaysOk(s, t, a);
    forall i | 0 <= i < |s'.threads|
      ensures ThreadOk(s'.bus, s'.threads[i], i)
    {
      if i != t && !(e.starts && i == WORKER) {
        assert ThreadOk(s.bus, s.threads[i], i);
        MineIsMine(s.threads, t, a, i);
        OthersStop(s, t, a, i);
        hide BusOk, Respects, EffectOf, WaitsDistinct;
        OtherStaysOk(s.bus, e.bus, e, s.threads[i], i, Mine(s.threads[t], a));
      }
    }
  }

  lemma MineIsMine(threads: seq<Thread>, t: nat, a: Action, i: nat)
    requires WaitsDistinct(threads) && t < |threads| && i < |threads| && i != t
    ensures threads[i].mode.UnsubWait? ==> Mine(threads[t], a) != Some(threads[i].mode.sub)
  {
  }

  lemma OthersStop(s: Sys, t: nat, a: Action, i: nat)
    requires Ready(s, t, a) && i < |s.threads|
    ensures EffectOf(s, t, a).starts ==> !s.threads[i].mode.Joining? && !s.threads[i].mode.Draining?
  {
  }

  lemma StepKeepsWaits(s: Sys, t: nat, a: Action)
    requires BusOk(s.bus) && ThreadsOk(s.bus, s.threads) && WaitsDistinct(s.threads) && Ready(s, t, a)
    ensures WaitsDistinct(Step(s, t, a).threads)
  {
    hide EffectOf, BusOk;
    var s', e := Step(s, t, a), EffectOf(s, t, a);
    forall i | 0 <= i < |s'.threads| && i != t && s'.threads[i].mode.UnsubWait?
      ensures s.threads[i].mode.UnsubWait? && s'.threads[i].mode.sub == s.threads[i].mode.sub
    {
    }
    forall i | 0 <= i < |s.threads| && i != t && s.threads[i].mode.UnsubWait? && e.next.mode.UnsubWait?
      ensures e.next.mode.sub != s.threads[i].mode.sub
    {
      NewWaitIsOther(s, t, a, i);
    }
  }

  /** A thread that goes to wait in unsubscribe waits for a record nobody else waits for. */
  lemma NewWaitIsOther(s: Sys, t: nat, a: Action, i: nat)
    requires ThreadsOk(s.bus, s.threads) && WaitsDistinct(s.threads) && Ready(s, t, a)
    requires i < |s.threads| && i != t && s.threads[i].mode.UnsubWait? && EffectOf(s, t, a).next.mode.UnsubWait?
    ensures EffectOf(s, t, a).next.mode.sub != s.threads[i].mode.sub
  {
    assert ThreadOk(s.bus, s.threads[i], i) && ThreadOk(s.bus, s.threads[t], t);
    hide ThreadsOk, Matching, Retain, Taken;
    assert a.UnsubResume? || (a.DoUnsubscribe? && a.sub in s.bus.table);
  }

  lemma StepKeepsWorker(s: Sys, t: nat, a: Action)
    requires ThreadsOk(s.bus, s.threads) && WorkerAccounted(s.bus, s.threads) && Ready(s, t, a)
    ensures WorkerAccounted(Step(s, t, a).bus, Step(s, t, a).threads)
  {
    var s', e := Step(s, t, a), EffectOf(s, t, a);
    assert ThreadOk(s.bus, s.threads[t], t) && ThreadOk(s.bus, s.threads[WORKER], WORKER);
    if !s.bus.running && !s'.bus.running && !s.threads[WORKER].mode.Absent? {
      var i :| 0 <= i < |s.threads| && s.threads[i].mode.Joining?;
      assert i != t && s'.threads[i].mode.Joining?;
    } else if s.bus.running && !s'.bus.running {
      assert s'.threads[t].mode.Joining?;
    }
    forall i | 0 <= i < |s'.threads| && s'.threads[i].mode.Draining?
      ensures s'.threads[WORKER].mode.Absent?
    {
      DrainsAfterJoin(s, t, a, i);
    }
  }

  lemma OwnMode(s: Sys, t: nat)
    requires ThreadsOk(s.bus, s.threads) && t < |s.threads|
    ensures t == WORKER ==> !s.threads[t].mode.Draining? && !s.threads[t].mode.Joining?
    ensures t != WORKER ==> !s.threads[t].mode.Absent?
  {
    assert ThreadOk(s.bus, s.threads[t], t);
  }

  lemma OwnDrain(s: Sys, t: nat, a: Action)
    requires ThreadsOk(s.bus, s.threads) && WorkerAccounted(s.bus, s.threads) && Ready(s, t, a)
    requires Step(s, t, a).threads[t].mode.Draining?
    ensures Step(s, t, a).threads[WORKER].mode.Absent?
  {
    hide ThreadsOk, ThreadOk, Matching, Retain, Taken, Subscribe, PublishAsync, FinishCallback, AnyInFlight;
    OwnMode(s, t);
  }

  lemma OtherDrain(s: Sys, t: nat, a: Action, i: nat)
    requires ThreadsOk(s.bus, s.threads) && WorkerAccounted(s.bus, s.threads) && Ready(s, t, a) && i < |s.threads| && i != t
    requires Step(s, t, a).threads[i].mode.Draining?
    ensures Step(s, t, a).threads[WORKER].mode.Absent?
  {
    hide ThreadsOk, ThreadOk, Matching, Retain, Taken, Subscribe, PublishAsync, FinishCallback, AnyInFlight;
    OwnMode(s, t);
    assert s.threads[i].mode.Draining?;
  }

  lemma DrainsAfterJoin(s: Sys, t: nat, a: Action, i: nat)
    requires ThreadsOk(s.bus, s.threads) && WorkerAccounted(s.bus, s.threads) && Ready(s, t, a) && i < |s.threads|
    requires Step(s, t, a).threads[i].mode.Draining?
    ensures Step(s, t, a).threads[WORKER].mode.Absent?
  {
    hide ThreadsOk, WorkerAccounted, Ready, Step;
    if i == t {
      OwnDrain(s, t, a);
    } else {
      OtherDrain(s, t, a, i);
    }
  }

  // ----- in-flight counts

  lemma ThreadsHold(threads: seq<Thread>, t: nat, e: Effect, x: nat)
    requires t < |threads| && (e.starts ==> t != WORKER && threads[WORKER].stack == [])
    ensures Sum(NextThreads(threads, t, e), ThreadHolds(x)) + Holds(threads[t], x)
         == Sum(threads, ThreadHolds(x)) + Holds(e.next, x)
  {
    hide Sum, Rouse;
    var threads1 := threads[t := e.next];
    var threads2 := RouseAll(threads1, e.rouse, e.nudge);
    SumUpdate(threads, t, e.next, ThreadHolds(x));
    RouseHolds(threads1, e.rouse, e.nudge, x);
    if e.starts {
      NothingHeld(threads2[WORKER], x);
      NothingHeld(Thread(Looping, [], Ok), x);
      SumUpdate(threads2, WORKER, Thread(Looping, [], Ok), ThreadHolds(x));
    }
  }

  lemma NothingHeld(th: Thread, x: nat)
    ensures th.stack == [] ==> Holds(th, x) == 0
  {
  }

  lemma RouseKeepsStack(th: Thread, rouse: bool, nudge: bool)
    ensures Rouse(th, rouse, nudge).stack == th.stack
  {
  }

  lemma RouseHolds(threads: seq<Thread>, rouse: bool, nudge: bool, x: nat)
    ensures Sum(RouseAll(threads, rouse, nudge), ThreadHolds(x)) == Sum(threads, ThreadHolds(x))
    ensures forall i :: 0 <= i < |threads| ==> RouseAll(threads, rouse, nudge)[i].stack == threads[i].stack
  {
    hide Sum, Rouse;
    var roused := RouseAll(threads, rouse, nudge);
    forall i | 0 <= i < |threads|
      ensures roused[i].stack == threads[i].stack
    {
      RouseKeepsStack(threads[i], rouse, nudge);
    }
    SumSame(threads, roused, ThreadHolds(x));
  }

  /** What an effect changes in the count of references to `x`. */
  ghost predicate Balanced(s: Sys, t: nat, e: Effect, x: nat, change: int)
    requires t < |s.threads|
  {
    Sum(e.bus.queue, WorkHolds(x)) + Holds(e.next, x) == Sum(s.bus.queue, WorkHolds(x)) + Holds(s.threads[t], x) + change
  }

  ghost function Flight(b: Bus, x: nat): nat {
    if x < |b.subs| then b.subs[x].inFlight else 0
  }

  lemma PublishCounts(b: Bus, event: nat, x: nat)
    requires BusOk(b)
    ensures var targets := Matching(b.subs, b.table, event);
            && Flight(b.(subs := Retain(b.subs, targets)), x) == Flight(b, x) + multiset(targets)[x]
  {
    MatchingIs(b.subs, b.table, event);
    DistinctMultiplicity(Matching(b.subs, b.table, event), x);
  }

  lemma SyncBalances(s: Sys, t: nat, event: nat, payload: Payload, x: nat)
    requires BusOk(s.bus) && Ready(s, t, DoPublishSync(event, payload))
    ensures var e := EffectOf(s, t, DoPublishSync(event, payload));
            Balanced(s, t, e, x, Flight(e.bus, x) - Flight(s.bus, x))
  {
    PublishCounts(s.bus, event, x);
    var targets := Matching(s.bus.subs, s.bus.table, event);
    SumSnoc(s.threads[t].stack, NewFrame(event, payload, targets), FrameHolds(x));
  }

  lemma AsyncBalances(s: Sys, t: nat, event: nat, payload: Payload, x: nat)
    requires BusOk(s.bus) && Ready(s, t, DoPublishAsync(event, payload))
    ensures var e := EffectOf(s, t, DoPublishAsync(event, payload));
            Balanced(s, t, e, x, Flight(e.bus, x) - Flight(s.bus, x))
  {
    PublishCounts(s.bus, event, x);
    SumSnoc(s.bus.queue, Work(event, payload, Matching(s.bus.subs, s.bus.table, event)), WorkHolds(x));
  }

  lemma HeadCount(q: seq<nat>, x: nat)
    requires q != []
    ensures multiset(q)[x] == (if q[0] == x then 1 else 0) + multiset(q[1..])[x]
  {
    assert q == [q[0]] + q[1..];
  }

  lemma HeldIsCounted(s: Sys, t: nat, x: nat)
    requires Counted(s) && t < |s.threads| && s.threads[t].stack != [] && Top(s.threads[t]).rest != []
    requires x == Top(s.threads[t]).rest[0] && x < |s.bus.subs|
    ensures s.bus.subs[x].inFlight > 0
  {
    var th := s.threads[t];
    SumBounds(th.stack, |th.stack| - 1, FrameHolds(x));
    SumBounds(s.threads, t, ThreadHolds(x));
    HeadCount(Top(th).rest, x);
  }

  lemma EndBalances(s: Sys, t: nat, r: SysErr, x: nat)
    requires Counted(s) && Ready(s, t, EndCall(r))
    ensures var e := EffectOf(s, t, EndCall(r));
            Balanced(s, t, e, x, Flight(e.bus, x) - Flight(s.bus, x))
  {
    var th, e := s.threads[t], EffectOf(s, t, EndCall(r));
    HeldIsCounted(s, t, Top(th).rest[0]);
    HeadCount(Top(th).rest, x);
    SumUpdate(th.stack, |th.stack| - 1, Top(e.next), FrameHolds(x));
  }

  lemma SetTopBalances(s: Sys, t: nat, x: nat)
    requires Ready(s, t, BeginCall)
    ensures Balanced(s, t, EffectOf(s, t, BeginCall), x, 0)
  {
    var th := s.threads[t];
    SumUpdate(th.stack, |th.stack| - 1, Top(th).(calling := true), FrameHolds(x));
  }

  lemma TakeBalances(s: Sys, t: nat, x: nat)
    requires Ready(s, t, WorkerTurn)
    ensures Balanced(s, t, EffectOf(s, t, WorkerTurn), x, 0)
  {
    var q := s.bus.queue;
    if q != [] {
      SumHead(q, WorkHolds(x));
      SumSnoc([], NewFrame(q[0].event, q[0].payload, q[0].targets), FrameHolds(x));
      assert [] + [NewFrame(q[0].event, q[0].payload, q[0].targets)] == EffectOf(s, t, WorkerTurn).next.stack;
    }
  }

  /** A start finds the queue empty and the worker gone, so it loses nothing. */
  lemma StartFindsNothing(s: Sys, t: nat)
    requires ThreadsOk(s.bus, s.threads) && WorkerAccounted(s.bus, s.threads) && Ready(s, t, DoStart)
    ensures !s.bus.running ==> s.bus.queue == [] && s.threads[WORKER].mode.Absent? && s.threads[WORKER].stack == []
  {
    assert ThreadOk(s.bus, s.threads[WORKER], WORKER);
  }

  lemma EffectBalances(s: Sys, t: nat, a: Action, x: nat)
    requires BusOk(s.bus) && ThreadsOk(s.bus, s.threads) && WorkerAccounted(s.bus, s.threads) && Counted(s) && Ready(s, t, a)
    ensures var e := EffectOf(s, t, a);
            Balanced(s, t, e, x, Flight(e.bus, x) - Flight(s.bus, x))
  {
    if a.DoPublishSync? {
      SyncBalances(s, t, a.event, a.payload, x);
    } else if a.DoPublishAsync? {
      AsyncBalances(s, t, a.event, a.payload, x);
    } else if a.EndCall? {
      EndBalances(s, t, a.result, x);
    } else if a.BeginCall? {
      SetTopBalances(s, t, x);
    } else if a.WorkerTurn? {
      TakeBalances(s, t, x);
    } else {
      RestBalances(s, t, a, x);
    }
  }

  lemma RestBalances(s: Sys, t: nat, a: Action, x: nat)
    requires BusOk(s.bus) && ThreadsOk(s.bus, s.threads) && WorkerAccounted(s.bus, s.threads) && Ready(s, t, a)
    requires a.DoSubscribe? || a.DoUnsubscribe? || a.UnsubResume? || a.DoStart? || a.DoStop? || a.StopResume? || a.Return?
    ensures var e := EffectOf(s, t, a);
            Balanced(s, t, e, x, Flight(e.bus, x) - Flight(s.bus, x))
  {
    hide BusOk, ThreadsOk, WorkerAccounted, AnyInFlight, Distinct, Sum, InUser, Taken;
    if a.DoStart? {
      StartFindsNothing(s, t);
    } else if a.Return? {
      ReturnBalances(s, t, x);
    } else {
      SameStackHolds(EffectOf(s, t, a).next, s.threads[t], x);
    }
  }

  lemma SameStackHolds(th: Thread, th': Thread, x: nat)
    ensures th.stack == th'.stack ==> Holds(th, x) == Holds(th', x)
  {
  }

  lemma ReturnBalances(s: Sys, t: nat, x: nat)
    requires Ready(s, t, Return)
    ensures Balanced(s, t, EffectOf(s, t, Return), x, 0)
  {
  }

  lemma StepKeepsCounts(s: Sys, t: nat, a: Action)
    requires BusOk(s.bus) && ThreadsOk(s.bus, s.threads) && WorkerAccounted(s.bus, s.threads) && Counted(s) && Ready(s, t, a)
    ensures Counted(Step(s, t, a))
  {
    hide BusOk, EffectOf, NextThreads, Sum, ThreadsOk, WorkerAccounted, Ready;
    var s', e := Step(s, t, a), EffectOf(s, t, a);
    StartsCleanly(s, t, a);
    StepRespects(s, t, a);
    forall x: nat
      ensures Flight(e.bus, x) == Outstanding(s', x)
    {
      assert Flight(s.bus, x) == Outstanding(s, x);
      EffectBalances(s, t, a, x);
      ThreadsHold(s.threads, t, e, x);
    }
    forall x: nat | x < |s'.bus.subs|
      ensures s'.bus.subs[x].inFlight == Outstanding(s', x)
    {
      assert Flight(e.bus, x) == Outstanding(s', x);
    }
    forall x: nat | x >= |s'.bus.subs|
      ensures Outstanding(s', x) == 0
    {
      assert Flight(e.bus, x) == Outstanding(s', x);
    }
  }

  lemma StartsCleanly(s: Sys, t: nat, a: Action)
    requires ThreadsOk(s.bus, s.threads) && WorkerAccounted(s.bus, s.threads) && Ready(s, t, a)
    ensures t < |s.threads|
    ensures EffectOf(s, t, a).starts ==> t != WORKER && s.threads[WORKER].stack == []
  {
    if a.DoStart? {
      StartFindsNothing(s, t);
    }
  }

  // ----- order of deliveries

  lemma {:induction false} FlattenSnoc(queue: seq<Work>, w: Work)
    ensures Flatten(queue + [w]) == Flatten(queue) + Deliveries(w)
  {
    if queue == [] {
      assert [w][1..] == [];
      assert Flatten([w]) == Deliveries(w) + [];
    } else {
      assert (queue + [w])[1..] == queue[1..] + [w];
      FlattenSnoc(queue[1..], w);
    }
  }

  lemma StepKeepsOrder(s: Sys, t: nat, a: Action)
    requires BusOk(s.bus) && ThreadsOk(s.bus, s.threads) && WorkerAccounted(s.bus, s.threads) && InOrder(s) && Ready(s, t, a)
    ensures InOrder(Step(s, t, a))
  {
    var s', e, w, w' := Step(s, t, a), EffectOf(s, t, a), s.threads[WORKER], Step(s, t, a).threads[WORKER];
    assert ThreadOk(s.bus, s.threads[t], t) && ThreadOk(s.bus, w, WORKER);
    if a.DoPublishAsync? && |e.bus.queue| > |s.bus.queue| {
      AcceptKeepsOrder(s, t, a);
    } else if a.WorkerTurn? {
      TakeKeepsOrder(s, t);
    } else if a.EndCall? && t == WORKER && |w.stack| == 1 {
      DeliverKeepsOrder(s, a.result);
    } else {
      OthersKeepHand(s, t, a);
    }
  }

  lemma AcceptKeepsOrder(s: Sys, t: nat, a: Action)
    requires InOrder(s) && Ready(s, t, a) && a.DoPublishAsync? && |EffectOf(s, t, a).bus.queue| > |s.bus.queue|
    ensures InOrder(Step(s, t, a))
  {
    hide Flatten, Matching, Retain, Pending, InUser;
    var w := Work(a.event, a.payload, Matching(s.bus.subs, s.bus.table, a.event));
    FlattenSnoc(s.bus.queue, w);
    assert Step(s, t, a).threads[WORKER].stack == s.threads[WORKER].stack;
    assert NewlyAccepted(s, t, a) == Deliveries(w);
    Regroup(s.delivered + InHand(s.threads[WORKER]), Flatten(s.bus.queue), Deliveries(w));
  }

  lemma Regroup(a: seq<Delivery>, b: seq<Delivery>, c: seq<Delivery>)
    ensures a + b + c == a + (b + c)
  {
  }

  lemma TakeKeepsOrder(s: Sys, t: nat)
    requires InOrder(s) && ThreadsOk(s.bus, s.threads) && Ready(s, t, WorkerTurn)
    ensures InOrder(Step(s, t, WorkerTurn))
  {
    assert ThreadOk(s.bus, s.threads[t], t);
    var w' := Step(s, t, WorkerTurn).threads[WORKER];
    if s.bus.queue != [] {
      var q := s.bus.queue[0];
      assert Pending(w'.stack[0]) == Deliveries(q);
      assert Flatten(s.bus.queue) == Deliveries(q) + Flatten(s.bus.queue[1..]);
    }
  }

  lemma DeliverKeepsOrder(s: Sys, r: SysErr)
    requires InOrder(s) && Ready(s, WORKER, EndCall(r)) && |s.threads[WORKER].stack| == 1
    ensures InOrder(Step(s, WORKER, EndCall(r)))
  {
    hide Flatten;
    var f, w' := s.threads[WORKER].stack[0], Step(s, WORKER, EndCall(r)).threads[WORKER];
    var d, later := [Delivery(f.event, f.payload, f.rest[0])], Pending(w'.stack[0]);
    PendingHead(f, w'.stack[0]);
    hide Pending, FinishCallback;
    Regroup(s.delivered, d, later);
  }

  lemma PendingHead(f: Frame, f': Frame)
    requires f.rest != [] && f'.event == f.event && f'.payload == f.payload && f'.rest == f.rest[1..]
    ensures Pending(f) == [Delivery(f.event, f.payload, f.rest[0])] + Pending(f')
  {
    assert f.rest == [f.rest[0]] + f.rest[1..];
  }

  lemma OthersKeepHand(s: Sys, t: nat, a: Action)
    requires InOrder(s) && ThreadsOk(s.bus, s.threads) && WorkerAccounted(s.bus, s.threads) && Ready(s, t, a)
    requires !a.WorkerTurn? && (a.DoPublishAsync? ==> |EffectOf(s, t, a).bus.queue| <= |s.bus.queue|)
    requires !(a.EndCall? && t == WORKER && |s.threads[WORKER].stack| == 1)
    ensures InOrder(Step(s, t, a))
  {
    hide InOrder, Flatten, Pending, Retain, Matching, AnyInFlight;
    var s', e, w, w' := Step(s, t, a), EffectOf(s, t, a), s.threads[WORKER], Step(s, t, a).threads[WORKER];
    assert ThreadOk(s.bus, s.threads[t], t) && ThreadOk(s.bus, w, WORKER);
    if a.DoStart? {
      StartFindsNothing(s, t);
    }
    HandStays(s, t, a);
    SameOrder(s, s');
  }

  lemma SameOrder(s: Sys, s': Sys)
    requires InOrder(s) && |s'.threads| > 0 && s'.accepted == s.accepted && s'.delivered == s.delivered
    requires InHand(s'.threads[WORKER]) == InHand(s.threads[WORKER]) && s'.bus.queue == s.bus.queue
    ensures InOrder(s')
  {
  }

  lemma HandStays(s: Sys, t: nat, a: Action)
    requires ThreadsOk(s.bus, s.threads) && WorkerAccounted(s.bus, s.threads) && Ready(s, t, a)
    requires !a.WorkerTurn? && !(a.EndCall? && t == WORKER && |s.threads[WORKER].stack| == 1)
    ensures InHand(Step(s, t, a).threads[WORKER]) == InHand(s.threads[WORKER])
  {
    hide Matching, Retain, Subscribe, PublishAsync, FinishCallback, AnyInFlight, StackOk;
    var w, w' := s.threads[WORKER], Step(s, t, a).threads[WORKER];
    assert ThreadOk(s.bus, w, WORKER);
    if a.DoStart? {
      StartFindsNothing(s, t);
    } else if t == WORKER && a.BeginCall? && |w.stack| == 1 {
      assert Pending(w'.stack[0]) == Pending(w.stack[0]);
    } else if t == WORKER && a.Return? && |w.stack| == 1 {
      assert Pending(w.stack[0]) == [];
    } else if t == WORKER && w.stack != [] && w'.stack != [] {
      assert w'.stack[0] == w.stack[0];
    }
  }

  // ----- keys

  lemma StepKeepsKeys(s: Sys, t: nat, a: Action)
    requires BusOk(s.bus) && ThreadsOk(s.bus, s.threads) && UniqueKeys(s.bus.subs, s.bus.table) && Ready(s, t, a)
    ensures var b := EffectOf(s, t, a).bus;
            UniqueKeys(b.subs, b.table)
  {
    var b, b' := s.bus, EffectOf(s, t, a).bus;
    hide EffectOf;
    KeysStay(s, t, a);
    forall x | x in b'.table
      ensures Alone(b'.subs, b'.table, x)
    {
      if x < |b.subs| {
        assert Alone(b.subs, b.table, x);
      }
    }
  }

  /** Records keep their key; the table only loses entries, or gains one record with a new key. */
  ghost predicate KeysKept(b: Bus, b': Bus) {
    && |b.subs| <= |b'.subs|
    && (forall x :: 0 <= x < |b.subs| ==> b'.subs[x].event == b.subs[x].event && b'.subs[x].client == b.subs[x].client)
    && (forall x :: x in b'.table ==>
          || x in b.table
          || (x == |b.subs| && |b'.subs| == x + 1
              && forall y :: y in b.table ==> !SameKey(b.subs, y, b'.subs[x].event, b'.subs[x].client)))
  }

  lemma SubscribeKeepsKeys(b: Bus, event: nat, client: nat)
    requires BusOk(b)
    ensures KeysKept(b, Subscribe(b, event, client).0)
  {
    forall y | y in b.table && Subscribe(b, event, client).1 == Ok
      ensures !SameKey(b.subs, y, event, client)
    {
      var k :| 0 <= k < |b.table| && b.table[k] == y;
      assert !SameKey(b.subs, b.table[k], event, client);
    }
  }

  lemma DetachKeepsKeys(b: Bus, th: Thread, x: nat)
    requires BusOk(b) && x < |b.subs|
    ensures KeysKept(b, UnsubEffect(Detach(b, x), th, x).bus) && KeysKept(b, UnsubEffect(b, th, x).bus)
  {
    RemoveIs(b.table, x);
  }

  lemma KeysStay(s: Sys, t: nat, a: Action)
    requires BusOk(s.bus) && ThreadsOk(s.bus, s.threads) && Ready(s, t, a)
    ensures KeysKept(s.bus, EffectOf(s, t, a).bus)
  {
    var b := s.bus;
    if a.DoSubscribe? {
      hide KeysKept, BusOk, Subscribe;
      SubscribeKeepsKeys(b, a.event, a.client);
    } else if a.DoUnsubscribe? && a.sub < |b.subs| {
      DetachKeepsKeys(b, s.threads[t], a.sub);
    } else if a.UnsubResume? {
      DetachKeepsKeys(b, s.threads[t], s.threads[t].mode.sub);
    }
  }

  // ----- the theorem

  lemma StepKeepsInv(s: Sys, t: nat, a: Action)
    requires Inv(s) && Ready(s, t, a)
    ensures Inv(Step(s, t, a))
  {
    hide BusOk, ThreadsOk, WaitsDistinct, Counted, InOrder, UniqueKeys, WorkerAccounted, EffectOf, Ready, NextThreads;
    StepKeepsBus(s, t, a);
    StepKeepsThreads(s, t, a);
    StepKeepsWaits(s, t, a);
    StepKeepsCounts(s, t, a);
    StepKeepsOrder(s, t, a);
    StepKeepsKeys(s, t, a);
    StepKeepsWorker(s, t, a);
  }
}
