/** Any number of threads on any number of channels over one pool, as a step system: every locked
    section is one step, and a blocked thread is resumed by a signal, spuriously, or by a failed wait. */
module ChannelSteps {
  import opened SysTypes
  import opened Sums
  import opened ChannelModel

  datatype Patience = Never | Timed | Forever

  datatype Side = Senders | Receivers

  datatype Job = Send(b: nat) | Receive

  datatype Thread =
    | Idle(result: SysErr)
    | Sending(c: nat, b: nat, patience: Patience)
    | Blocked(job: Job, c: nat, patience: Patience, signalled: bool)
    | Releasing(bufs: seq<nat>, result: SysErr)

  function SideOf(job: Job): Side {
    if job.Send? then Senders else Receivers
  }

  predicate Waits(th: Thread, side: Side, c: nat, signalled: bool) {
    th.Blocked? && th.c == c && th.signalled == signalled && SideOf(th.job) == side
  }

  /** A channel, everything ever queued on it and everything ever taken off it, in order. */
  datatype Lane = Lane(chan: Channel, freed: bool, sent: seq<nat>, removed: seq<nat>)

  datatype Sys = Sys(pool: Pool, held: seq<nat>, lanes: seq<Lane>, threads: seq<Thread>)

  datatype Action =
    | Acquire
    | UserRetain(b: nat)
    | UserRelease(b: nat)
    | SendCall(c: nat, b: nat, patience: Patience)
    | SendEnter(wake: Option<nat>)
    | ReceiveCall(c: nat, patience: Patience, wake: Option<nat>)
    | Resume(wake: Option<nat>)
    | WaitFails(error: SysErr)
    | ReleaseNext
    | Close(c: nat)
    | Free(c: nat)

  /** What a step of thread `t` does besides waking somebody. */
  datatype Effect = Effect(next: Thread, lanes: seq<Lane>, pool: Pool, held: seq<nat>, signal: Option<(Side, nat)>)

  function Finish(bufs: seq<nat>, result: SysErr): Thread {
    if bufs == [] then Idle(result) else Releasing(bufs, result)
  }

  function Dropped(d: Option<nat>): seq<nat> {
    if d.None? then [] else [d.value]
  }

  /** The wait loop of sys_channel_send, entered or resumed. */
  function SendEffect(s: Sys, lane: Lane, dropped: Option<nat>, c: nat, b: nat, patience: Patience): Effect
    requires c < |s.lanes|
  {
    match Offer(lane.chan, b)
    case MustWait =>
      Effect(if patience.Never? then Releasing([b], ErrQueueFull) else Blocked(Send(b), c, patience, false),
             s.lanes[c := lane], s.pool, s.held, None)
    case Accepted(chan) =>
      Effect(Finish(Dropped(dropped), Ok), s.lanes[c := lane.(chan := chan, sent := lane.sent + [b])],
             s.pool, s.held, Some((Receivers, c)))
    case _ =>
      Effect(Releasing([b] + Dropped(dropped), ErrClosed), s.lanes[c := lane], s.pool, s.held, None)
  }

  function AdmitLane(lane: Lane): (Lane, Option<nat>)
    requires lane.chan.capacity > 0
  {
    var (chan, dropped) := Admit(lane.chan);
    (lane.(chan := chan, removed := lane.removed + Dropped(dropped)), dropped)
  }

  /** The wait loop of sys_channel_receive, entered or resumed. */
  function ReceiveEffect(s: Sys, c: nat, patience: Patience): Effect
    requires c < |s.lanes|
  {
    var lane := s.lanes[c];
    match Poll(lane.chan)
    case MustWait =>
      if patience.Never? then
        Effect(Idle(ErrTimeout), s.lanes[c := lane.(chan := CountTimeout(lane.chan))], s.pool, s.held, None)
      else
        Effect(Blocked(Receive, c, patience, false), s.lanes, s.pool, s.held, None)
    case Taken(b, chan) =>
      Effect(Idle(Ok), s.lanes[c := lane.(chan := chan, removed := lane.removed + [b])], s.pool,
             if b < |s.held| then s.held[b := s.held[b] + 1] else s.held, Some((Senders, c)))
    case _ =>
      Effect(Idle(ErrClosed), s.lanes, s.pool, s.held, None)
  }

  /** Only a signalled wait is sure to have been woken; an unsignalled one may also time out or fail. */
  function FailEffect(s: Sys, th: Thread, error: SysErr): Effect
    requires th.Blocked? && th.c < |s.lanes|
  {
    var lane := s.lanes[th.c];
    var counted := lane.(chan := CountTimeout(lane.chan));
    match th.job
    case Send(b) =>
      Effect(Releasing([b], error), if error == ErrTimeout then s.lanes[th.c := counted] else s.lanes,
             s.pool, s.held, None)
    case Receive => Effect(Idle(error), s.lanes[th.c := counted], s.pool, s.held, None)
  }

  predicate Uses(th: Thread, c: nat) {
    (th.Sending? || th.Blocked?) && th.c == c
  }

  /** When `t` may take a step: the caller's discipline and the program counter. */
  ghost predicate Ready(s: Sys, t: nat, a: Action) {
    && t < |s.threads|
    && var th := s.threads[t];
       match a
       case Acquire => th.Idle?
       case UserRetain(b) => th.Idle? && b < |s.pool.refs|
       case UserRelease(b) => th.Idle? && b < |s.pool.refs| && b < |s.held| && s.held[b] > 0
       case SendCall(c, b, _) => th.Idle? && c < |s.lanes| && !s.lanes[c].freed && b < |s.pool.refs|
       case SendEnter(_) => th.Sending? && th.c < |s.lanes| && s.lanes[th.c].chan.capacity > 0
       case ReceiveCall(c, _, _) => th.Idle? && c < |s.lanes| && !s.lanes[c].freed
       case Resume(_) => th.Blocked? && th.c < |s.lanes|
       case WaitFails(error) =>
         th.Blocked? && th.c < |s.lanes| && !th.signalled && error != Ok && (error == ErrTimeout ==> th.patience.Timed?)
       case ReleaseNext => th.Releasing? && th.bufs != [] && th.bufs[0] < |s.pool.refs|
       case Close(c) => th.Idle? && c < |s.lanes| && !s.lanes[c].freed
       case Free(c) =>
         th.Idle? && c < |s.lanes| && !s.lanes[c].freed && forall i :: 0 <= i < |s.threads| ==> !Uses(s.threads[i], c)
  }

  ghost function EffectOf(s: Sys, t: nat, a: Action): Effect
    requires Ready(s, t, a)
  {
    var th := s.threads[t];
    match a
    case Acquire =>
      var (pool, b) := AcquireBuffer(s.pool);
      Effect(Idle(if b.Some? then Ok else ErrBusy), s.lanes, pool,
             if b.Some? && b.value < |s.held| then s.held[b.value := s.held[b.value] + 1] else s.held, None)
    case UserRetain(b) =>
      var (pool, r) := RetainBuffer(s.pool, b);
      Effect(Idle(r), s.lanes, pool,
             if r == Ok && b < |s.held| then s.held[b := s.held[b] + 1] else s.held, None)
    case UserRelease(b) =>
      Effect(Idle(Ok), s.lanes, ReleaseBuffer(s.pool, b), s.held[b := s.held[b] - 1], None)
    case SendCall(c, b, patience) =>
      var (pool, r) := RetainBuffer(s.pool, b);
      Effect(if r == Ok then Sending(c, b, patience) else Idle(r), s.lanes, pool, s.held, None)
    case SendEnter(_) =>
      var (lane, dropped) := AdmitLane(s.lanes[th.c]);
      SendEffect(s, lane, dropped, th.c, th.b, th.patience)
    case ReceiveCall(c, patience, _) =>
      ReceiveEffect(s, c, patience)
    case Resume(_) =>
      (match th.job
       case Send(b) => SendEffect(s, s.lanes[th.c], None, th.c, b, th.patience)
       case Receive => ReceiveEffect(s, th.c, th.patience))
    case WaitFails(error) =>
      FailEffect(s, th, error)
    case ReleaseNext =>
      Effect(Finish(th.bufs[1..], th.result), s.lanes, ReleaseBuffer(s.pool, th.bufs[0]), s.held, None)
    case Close(c) =>
      Effect(Idle(Ok), s.lanes[c := s.lanes[c].(chan := s.lanes[c].chan.(closed := true))], s.pool, s.held, None)
    case Free(c) =>
      var lane := s.lanes[c];
      Effect(Finish(lane.chan.queue, Ok),
             s.lanes[c := Lane(lane.chan.(queue := []), true, lane.sent, lane.removed + lane.chan.queue)],
             s.pool, s.held, None)
  }

  function WakeOf(a: Action): Option<nat> {
    match a
    case SendEnter(wake) => wake
    case ReceiveCall(_, _, wake) => wake
    case Resume(wake) => wake
    case _ => None
  }

  /** pthread_cond_signal: one blocked, not yet signalled thread is signalled, if there is one. */
  ghost predicate SignalOk(threads: seq<Thread>, t: nat, signal: Option<(Side, nat)>, wake: Option<nat>) {
    match signal
    case None => wake == None
    case Some((side, c)) =>
      match wake
      case None => forall i :: 0 <= i < |threads| && i != t ==> !Waits(threads[i], side, c, false)
      case Some(i) => i < |threads| && i != t && Waits(threads[i], side, c, false)
  }

  ghost predicate Enabled(s: Sys, t: nat, a: Action) {
    Ready(s, t, a) && SignalOk(s.threads, t, EffectOf(s, t, a).signal, WakeOf(a))
  }

  function Signalled(th: Thread): Thread {
    if th.Blocked? then th.(signalled := true) else th
  }

  function WakeUp(threads: seq<Thread>, wake: Option<nat>): (r: seq<Thread>)
    ensures |r| == |threads|
  {
    if wake.None? || wake.value >= |threads| then threads
    else threads[wake.value := Signalled(threads[wake.value])]
  }

  /** pthread_cond_broadcast on both conditions of a channel. */
  function Broadcast(threads: seq<Thread>, c: nat): (r: seq<Thread>)
    ensures |r| == |threads|
  {
    seq(|threads|, i requires 0 <= i < |threads| =>
      if Uses(threads[i], c) then Signalled(threads[i]) else threads[i])
  }

  ghost function Step(s: Sys, t: nat, a: Action): Sys
    requires Enabled(s, t, a)
  {
    var e := EffectOf(s, t, a);
    var threads := s.threads[t := e.next];
    Sys(e.pool, e.held, e.lanes, if a.Close? then Broadcast(threads, a.c) else WakeUp(threads, WakeOf(a)))
  }

  // ----- the invariant

  ghost predicate Below(bufs: seq<nat>, n: nat) {
    forall b :: b in bufs ==> b < n
  }

  ghost predicate LaneOk(lane: Lane, n: nat) {
    && (if lane.freed then lane.chan.queue == [] else ChannelOk(lane.chan))
    && lane.sent == lane.removed + lane.chan.queue
    && Below(lane.sent, n)
  }

  ghost predicate ThreadOk(th: Thread, lanes: seq<Lane>, n: nat) {
    match th
    case Idle(_) => true
    case Sending(c, b, _) => c < |lanes| && !lanes[c].freed && b < n
    case Blocked(job, c, patience, signalled) =>
      && c < |lanes| && !lanes[c].freed && !patience.Never?
      && (job.Send? ==> job.b < n && lanes[c].chan.policy.FailWhenFull?)
      && (lanes[c].chan.closed ==> signalled)
    case Releasing(bufs, _) => bufs != [] && Below(bufs, n)
  }

  ghost predicate Shape(s: Sys) {
    && |s.held| == |s.pool.refs|
    && (forall c :: 0 <= c < |s.lanes| ==> LaneOk(s.lanes[c], |s.pool.refs|))
    && (forall i :: 0 <= i < |s.threads| ==> ThreadOk(s.threads[i], s.lanes, |s.pool.refs|))
  }

  // References to a buffer held by a queue, and by a thread on its way into or out of one.
  function Queued(b: nat): Lane -> nat {
    (lane: Lane) => multiset(lane.chan.queue)[b]
  }

  function Carries(th: Thread, b: nat): nat {
    match th
    case Idle(_) => 0
    case Sending(_, x, _) => if x == b then 1 else 0
    case Blocked(job, _, _, _) => if job == Send(b) then 1 else 0
    case Releasing(bufs, _) => multiset(bufs)[b]
  }

  function Carried(b: nat): Thread -> nat {
    (th: Thread) => Carries(th, b)
  }

  function Owed(s: Sys, b: nat): nat
    requires b < |s.held|
  {
    s.held[b] + Sum(s.lanes, Queued(b)) + Sum(s.threads, Carried(b))
  }

  /** Each reference count is exactly what users, queues and sends in progress hold. */
  ghost predicate Conserved(s: Sys) {
    && |s.held| == |s.pool.refs|
    && forall b :: 0 <= b < |s.pool.refs| ==> s.pool.refs[b] == Owed(s, b)
  }

  function Signals(side: Side, c: nat): Thread -> nat {
    (th: Thread) => if Waits(th, side, c, true) then 1 else 0
  }

  /** What a waiter of that side is waiting for: queued buffers, or free slots. */
  function Supply(side: Side, chan: Channel): int {
    if side.Receivers? then |chan.queue| else chan.capacity - |chan.queue|
  }

  /** No lost wake-up: if anybody still waits unsignalled, everything there is to take is spoken for. */
  ghost predicate NoneLost(threads: seq<Thread>, side: Side, c: nat, supply: int) {
    forall i :: 0 <= i < |threads| && Waits(threads[i], side, c, false) ==> supply <= Sum(threads, Signals(side, c))
  }

  ghost predicate Wakeful(s: Sys) {
    forall side: Side, c :: 0 <= c < |s.lanes| ==> NoneLost(s.threads, side, c, Supply(side, s.lanes[c].chan))
  }

  ghost predicate Inv(s: Sys) {
    Shape(s) && PoolOk(s.pool) && Conserved(s) && Wakeful(s)
  }
}
