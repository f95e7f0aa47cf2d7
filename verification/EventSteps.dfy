/** One worker and any number of client threads on the event bus, as a step system. Every section under
    the mutex is one step; callbacks may themselves publish and subscribe, on any thread. */
module EventSteps {
  import opened SysTypes
  import opened Sums
  import opened EventModel

  /** A publish in progress: `rest` lists the subscribers still to be finished, the current one first; `called` and
      `answers` log the finished ones. */
  datatype Frame = Frame(event: nat, payload: Payload, targets: seq<nat>, called: seq<nat>, rest: seq<nat>,
                         calling: bool, answers: seq<SysErr>, firstError: SysErr)

  function NewFrame(event: nat, payload: Payload, targets: seq<nat>): Frame {
    Frame(event, payload, targets, [], targets, false, [], Ok)
  }

  datatype Mode =
    | Free
    | UnsubWait(sub: nat, woken: bool)
    | Joining
    | Draining(woken: bool)
    | Looping
    | Sleeping(woken: bool)
    | Absent

  /** The last frame of `stack` is the innermost one. */
  datatype Thread = Thread(mode: Mode, stack: seq<Frame>, result: SysErr)

  datatype Delivery = Delivery(event: nat, payload: Payload, sub: nat)

  /** Thread 0 is the worker. `accepted` and `delivered` log asynchronous deliveries in order. */
  datatype Sys = Sys(bus: Bus, threads: seq<Thread>, accepted: seq<Delivery>, delivered: seq<Delivery>)

  const WORKER: nat := 0

  datatype Action =
    | DoSubscribe(event: nat, client: nat)
    | DoPublishSync(event: nat, payload: Payload)
    | DoPublishAsync(event: nat, payload: Payload)
    | DoUnsubscribe(sub: nat)
    | UnsubResume
    | DoStart
    | DoStop
    | StopResume
    | BeginCall
    | EndCall(result: SysErr)
    | Return
    | WorkerTurn

  function Top(th: Thread): Frame
    requires th.stack != []
  {
    th.stack[|th.stack| - 1]
  }

  function SetTop(th: Thread, f: Frame): Thread
    requires th.stack != []
  {
    th.(stack := th.stack[|th.stack| - 1 := f])
  }

  /** g_event_callback_depth of a thread is positive exactly while it is inside a callback. */
  predicate InCallback(th: Thread) {
    th.stack != [] && Top(th).calling
  }

  /** The thread runs user code: outside the bus, or inside one of its callbacks. */
  predicate InUser(th: Thread) {
    (th.mode.Free? && th.stack == []) || InCallback(th)
  }

  predicate AtLoop(th: Thread) {
    (th.mode.Looping? || th.mode.Sleeping?) && th.stack == []
  }

  /** When thread `t` may take a step. Stop and start are called outside callbacks, start only when no stop
      is under way; an unsubscribe from inside a callback is answered with BUSY and changes nothing. */
  ghost predicate Ready(s: Sys, t: nat, a: Action) {
    && t < |s.threads|
    && var th := s.threads[t];
       match a
       case DoSubscribe(_, _) => InUser(th)
       case DoPublishSync(_, _) => InUser(th)
       case DoPublishAsync(_, _) => InUser(th)
       case DoUnsubscribe(_) => InUser(th)
       case UnsubResume => th.mode.UnsubWait? && th.mode.sub < |s.bus.subs|
       case DoStart => th.mode.Free? && th.stack == [] && t != WORKER && NoStop(s.threads)
       case DoStop => th.mode.Free? && th.stack == []
       case StopResume => (th.mode.Joining? && s.threads[WORKER].mode.Absent?) || th.mode.Draining?
       case BeginCall => th.stack != [] && !Top(th).calling && Top(th).rest != []
       case EndCall(_) => InCallback(th) && Top(th).rest != [] && Top(th).rest[0] < |s.bus.subs|
       case Return => th.stack != [] && !Top(th).calling && Top(th).rest == []
       case WorkerTurn => AtLoop(th)
  }

  ghost predicate NoStop(threads: seq<Thread>) {
    forall i :: 0 <= i < |threads| ==> !threads[i].mode.Joining? && !threads[i].mode.Draining?
  }

  function Deliveries(w: Work): seq<Delivery> {
    seq(|w.targets|, i requires 0 <= i < |w.targets| => Delivery(w.event, w.payload, w.targets[i]))
  }

  function Pending(f: Frame): seq<Delivery> {
    Deliveries(Work(f.event, f.payload, f.rest))
  }

  function Flatten(queue: seq<Work>): seq<Delivery> {
    if queue == [] then [] else Deliveries(queue[0]) + Flatten(queue[1..])
  }

  datatype Effect = Effect(bus: Bus, next: Thread, rouse: bool, nudge: bool, starts: bool)

  function Answer(th: Thread, result: SysErr): Thread {
    th.(result := result)
  }

  /** The tail of an unsubscribe, first reached or resumed. */
  function UnsubEffect(b: Bus, th: Thread, x: nat): Effect
    requires x < |b.subs|
  {
    if b.subs[x].inFlight > 0 then Effect(b, th.(mode := UnsubWait(x, false)), false, false, false)
    else Effect(Dispose(b, x), Thread(Free, th.stack, Ok), false, false, false)
  }

  /** The tail of a stop after the worker was joined, first reached or resumed. */
  function DrainEffect(b: Bus, th: Thread): Effect {
    if AnyInFlight(b) then Effect(b, th.(mode := Draining(false)), false, false, false)
    else Effect(Clear(b), Thread(Free, th.stack, Ok), false, false, false)
  }

  function WorkerEffect(b: Bus, th: Thread): Effect {
    if b.queue == [] && b.running then Effect(b, th.(mode := Sleeping(false)), false, false, false)
    else if b.queue == [] then Effect(b, th.(mode := Absent), false, false, false)
    else
      var (b', w) := TakeWork(b);
      Effect(b', th.(mode := Looping, stack := [NewFrame(w.event, w.payload, w.targets)]), false, false, false)
  }

  ghost function EffectOf(s: Sys, t: nat, a: Action): Effect
    requires Ready(s, t, a)
  {
    var th, b := s.threads[t], s.bus;
    match a
    case DoSubscribe(event, client) =>
      var (b', r) := Subscribe(b, event, client);
      Effect(b', Answer(th, r), false, false, false)
    case DoPublishSync(event, payload) =>
      var (b', targets, r) := PublishSync(b, event);
      Effect(b', if r == Ok then th.(stack := th.stack + [NewFrame(event, payload, targets)]) else Answer(th, r),
             false, false, false)
    case DoPublishAsync(event, payload) =>
      var (b', r) := PublishAsync(b, event, payload);
      Effect(b', Answer(th, r), false, |b'.queue| > |b.queue|, false)
    case DoUnsubscribe(x) =>
      if InCallback(th) then Effect(b, Answer(th, ErrBusy), false, false, false)
      else if x !in b.table || x >= |b.subs| then Effect(b, Answer(th, ErrNotFound), false, false, false)
      else UnsubEffect(Detach(b, x), th, x)
    case UnsubResume => UnsubEffect(b, th, th.mode.sub)
    case DoStart =>
      var (b', r) := Start(b);
      Effect(b', Answer(th, r), false, false, r == Ok)
    case DoStop =>
      var (b', joins) := BeginStop(b);
      Effect(b', if joins then th.(mode := Joining) else Answer(th, Ok), false, joins, false)
    case StopResume => DrainEffect(b, th)
    case BeginCall => Effect(b, SetTop(th, Top(th).(calling := true)), false, false, false)
    case EndCall(r) =>
      var f := Top(th);
      var (b', zero) := FinishCallback(b, f.rest[0]);
      Effect(b', SetTop(th, f.(called := f.called + [f.rest[0]], rest := f.rest[1..], calling := false, answers := f.answers + [r],
                               firstError := if f.firstError == Ok then r else f.firstError)), zero, false, false)
    case Return =>
      Effect(b, Thread(th.mode, th.stack[..|th.stack| - 1], Top(th).firstError), false, false, false)
    case WorkerTurn => WorkerEffect(b, th)
  }

  /** Broadcasts on the two conditions. */
  function Rouse(th: Thread, rouse: bool, nudge: bool): Thread {
    match th.mode
    case UnsubWait(x, woken) => th.(mode := UnsubWait(x, woken || rouse))
    case Draining(woken) => th.(mode := Draining(woken || rouse))
    case Sleeping(woken) => th.(mode := Sleeping(woken || nudge))
    case _ => th
  }

  function RouseAll(threads: seq<Thread>, rouse: bool, nudge: bool): (r: seq<Thread>)
    ensures |r| == |threads|
  {
    seq(|threads|, i requires 0 <= i < |threads| => Rouse(threads[i], rouse, nudge))
  }

  function NextThreads(threads: seq<Thread>, t: nat, e: Effect): (r: seq<Thread>)
    requires t < |threads|
    ensures |r| == |threads|
  {
    var threads1 := RouseAll(threads[t := e.next], e.rouse, e.nudge);
    if e.starts then threads1[WORKER := Thread(Looping, [], Ok)] else threads1
  }

  /** The deliveries a step adds to the log of accepted ones. */
  ghost function NewlyAccepted(s: Sys, t: nat, a: Action): seq<Delivery>
    requires Ready(s, t, a)
  {
    var queue := EffectOf(s, t, a).bus.queue;
    if a.DoPublishAsync? && |queue| > |s.bus.queue| then Deliveries(queue[|queue| - 1]) else []
  }

  /** The delivery a step completes: the worker's own callbacks, not those of publishes nested in them. */
  ghost function NewlyDelivered(s: Sys, t: nat, a: Action): seq<Delivery>
    requires Ready(s, t, a)
  {
    var th := s.threads[t];
    if a.EndCall? && t == WORKER && |th.stack| == 1 then [Delivery(Top(th).event, Top(th).payload, Top(th).rest[0])] else []
  }

  ghost function Step(s: Sys, t: nat, a: Action): Sys
    requires Ready(s, t, a)
  {
    var e := EffectOf(s, t, a);
    Sys(e.bus, NextThreads(s.threads, t, e), s.accepted + NewlyAccepted(s, t, a), s.delivered + NewlyDelivered(s, t, a))
  }

  // ----- the invariant

  function FrameHolds(x: nat): Frame -> nat {
    (f: Frame) => multiset(f.rest)[x]
  }

  function WorkHolds(x: nat): Work -> nat {
    (w: Work) => multiset(w.targets)[x]
  }

  /** The references to subscription `x` that a thread still has to give back. */
  function Holds(th: Thread, x: nat): nat {
    Sum(th.stack, FrameHolds(x))
  }

  function ThreadHolds(x: nat): Thread -> nat {
    (th: Thread) => Holds(th, x)
  }

  function Outstanding(s: Sys, x: nat): nat {
    Sum(s.bus.queue, WorkHolds(x)) + Sum(s.threads, ThreadHolds(x))
  }

  /** A subscription's in_flight is exactly what queued work and publishes in progress hold. */
  ghost predicate Counted(s: Sys) {
    && (forall x :: 0 <= x < |s.bus.subs| ==> s.bus.subs[x].inFlight == Outstanding(s, x))
    && (forall x :: x >= |s.bus.subs| ==> Outstanding(s, x) == 0)
  }

  /** Registered means active and allocated; a freed record is neither registered nor referenced. */
  ghost predicate SubOk(subs: seq<Sub>, table: seq<nat>, x: nat)
    requires x < |subs|
  {
    && (subs[x].active <==> x in table)
    && (subs[x].freed ==> !subs[x].active && subs[x].inFlight == 0)
  }

  /** No other registered subscription has the key of `x`. */
  ghost predicate Alone(subs: seq<Sub>, table: seq<nat>, x: nat) {
    x < |subs| && forall y :: y in table && y != x ==> !SameKey(subs, y, subs[x].event, subs[x].client)
  }

  ghost predicate UniqueKeys(subs: seq<Sub>, table: seq<nat>) {
    forall x :: x in table ==> Alone(subs, table, x)
  }

  ghost predicate BusOk(b: Bus) {
    && Distinct(b.table) && |b.table| <= MAX_SUBSCRIBERS && |b.queue| <= QUEUE_CAPACITY
    && (forall x :: x in b.table ==> x < |b.subs|)
    && (forall x :: 0 <= x < |b.subs| ==> SubOk(b.subs, b.table, x))
    && (b.accepting ==> b.running)
  }

  ghost predicate SomeInFlight(subs: seq<Sub>) {
    exists x :: InFlight(subs, x)
  }

  function FirstFailure(answers: seq<SysErr>): SysErr {
    if answers == [] then Ok else if answers[0] != Ok then answers[0] else FirstFailure(answers[1..])
  }

  /** A publish works through its subscribers in order and keeps the first failure among their answers. */
  ghost predicate FrameOk(f: Frame) {
    f.called + f.rest == f.targets && |f.answers| == |f.called| && f.firstError == FirstFailure(f.answers)
  }

  /** All frames but the innermost are inside a callback, and whoever is has somebody to call. */
  ghost predicate StackOk(stack: seq<Frame>) {
    && (forall k :: 0 <= k < |stack| ==> FrameOk(stack[k]))
    && (forall k :: 0 <= k < |stack| - 1 ==> stack[k].calling)
    && (forall k :: 0 <= k < |stack| ==> stack[k].calling ==> stack[k].rest != [])
  }

  /** A blocked thread holds no reference, and one not yet woken still has something to wait for. */
  ghost predicate ThreadOk(b: Bus, th: Thread, t: nat) {
    && (th.stack != [] ==> th.mode.Free? || th.mode.Looping?)
    && StackOk(th.stack)
    && ((th.mode.Looping? || th.mode.Sleeping? || th.mode.Absent?) <==> t == WORKER)
    && match th.mode
       case UnsubWait(x, woken) =>
         x < |b.subs| && x !in b.table && !b.subs[x].freed && (!woken ==> InFlight(b.subs, x))
       case Joining => !b.running
       case Draining(woken) => !b.running && (!woken ==> SomeInFlight(b.subs))
       case Sleeping(woken) => !woken ==> b.queue == [] && b.running
       case Absent => b.queue == [] && !b.running
       case _ => true
  }

  ghost predicate ThreadsOk(b: Bus, threads: seq<Thread>) {
    |threads| > 0 && forall t :: 0 <= t < |threads| ==> ThreadOk(b, threads[t], t)
  }

  /** Two unsubscribers never wait for the same record, so it is freed once. */
  ghost predicate WaitsDistinct(threads: seq<Thread>) {
    forall i, j :: 0 <= i < j < |threads| && threads[i].mode.UnsubWait? && threads[j].mode.UnsubWait? ==>
      threads[i].mode.sub != threads[j].mode.sub
  }

  /** The worker is gone, or somebody is waiting to join it, unless the bus runs; a stop drains only after the join. */
  ghost predicate WorkerAccounted(b: Bus, threads: seq<Thread>) {
    && |threads| > 0
    && (b.running || threads[WORKER].mode.Absent? || exists i :: 0 <= i < |threads| && threads[i].mode.Joining?)
    && (forall i :: 0 <= i < |threads| && threads[i].mode.Draining? ==> threads[WORKER].mode.Absent?)
  }

  /** The worker's own frame is the rest of the event it took last. */
  function InHand(worker: Thread): seq<Delivery> {
    if worker.stack == [] then [] else Pending(worker.stack[0])
  }

  /** Delivered, in the worker's hand and queued: together exactly what was accepted, in order. */
  ghost predicate InOrder(s: Sys) {
    |s.threads| > 0 && s.accepted == s.delivered + InHand(s.threads[WORKER]) + Flatten(s.bus.queue)
  }

  ghost predicate Inv(s: Sys) {
    BusOk(s.bus) && ThreadsOk(s.bus, s.threads) && WaitsDistinct(s.threads) && Counted(s) && InOrder(s)
    && UniqueKeys(s.bus.subs, s.bus.table) && WorkerAccounted(s.bus, s.threads)
  }
}
