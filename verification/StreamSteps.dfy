/** One stream of the camera, from its start to the end of its stop or rollback: the camera's controlling
    thread, the producer, the media server's consumer, and a second thread that may stop the media server. */
module StreamSteps {
  import opened SysTypes
  import opened ChannelModel

  /** The producer loop; `PGo` has found no stop request, `closed` remembers what the send answered. */
  datatype Producer = PTop | PGo | PFilled(b: nat) | PRetained(b: nat) | PUndo(b: nat, closed: bool) | POwn(b: nat, closed: bool) | PExited

  datatype Consumer = ZNone | ZTop | ZGo | ZHolding(b: nat) | ZExited

  /** detach_stream after it took thread and channel: joining the consumer, releasing the channel, draining it. */
  datatype Detach = Off | Joining | Letting | Draining(bufs: seq<nat>)

  datatype Camera =
    | Attaching | Attached(failed: bool) | Running | Flagging | Closing | JoiningProducer
    | Publishing | Detaching | Releasing | Emptying(bufs: seq<nat>) | WaitingIdle | Done(clean: bool)

  datatype Side = OfCamera | OfMedia

  /** `sequence[b]` is the frame number written into buffer `b`; `attached` is the media server's hold on the
      channel and its thread; `consumed` logs the frame numbers the consumer counted. */
  datatype Sys = Sys(pool: Pool, alive: bool, sequence: seq<nat>, chan: Channel, chanRefs: nat,
                     camera: Camera, producer: Producer, consumer: Consumer, attached: bool,
                     detachC: Detach, detachM: Detach, stopP: bool, stopZ: bool, next: nat, consumed: seq<nat>)

  datatype CameraAction =
    | Attach(created: bool) | NoAttach(failed: bool) | Conclude(failed: bool) | Stop | Flag | Close | JoinProducer
    | Publish | Detached | Release | Empty | Idle | TimeOut

  datatype DetachAction = MediaStop | JoinConsumer(side: Side) | LetGo(side: Side) | Drain(side: Side)

  datatype ProducerAction = LookP | Produce | Abort | Retain | Offer | Undo | Own

  datatype ConsumerAction = LookZ | Consume | Finish

  datatype Action = ByCamera(c: CameraAction) | ByDetach(d: DetachAction) | ByProducer(p: ProducerAction) | ByConsumer(z: ConsumerAction)

  function DetachOf(s: Sys, side: Side): Detach {
    if side.OfCamera? then s.detachC else s.detachM
  }

  function SetDetach(s: Sys, side: Side, d: Detach): Sys {
    if side.OfCamera? then s.(detachC := d) else s.(detachM := d)
  }

  predicate CameraReady(s: Sys, a: CameraAction) {
    match a
    case Attach(_) => s.camera.Attaching? && !s.attached && s.detachM.Off?
    case NoAttach(_) => s.camera.Attaching?
    case Conclude(_) => s.camera.Attached?
    case Stop => s.camera.Running?
    case Flag => s.camera.Flagging?
    case Close => s.camera.Closing?
    case JoinProducer => s.camera.JoiningProducer? && s.producer.PExited?
    case Publish => s.camera.Publishing?
    case Detached => s.camera.Detaching? && s.detachC.Off?
    case Release => s.camera.Releasing? && s.chanRefs > 0
    case Empty => s.camera.Emptying? && (s.camera.bufs != [] ==> s.camera.bufs[0] < |s.pool.refs|)
    case Idle => s.camera.WaitingIdle? && s.pool.inUse == 0
    case TimeOut => s.camera.WaitingIdle? && s.pool.inUse != 0
  }

  predicate DetachReady(s: Sys, a: DetachAction) {
    match a
    case MediaStop => s.attached && s.detachM.Off?
    case JoinConsumer(side) => DetachOf(s, side).Joining? && s.consumer.ZExited?
    case LetGo(side) => DetachOf(s, side).Letting? && s.chanRefs > 0
    case Drain(side) =>
      DetachOf(s, side).Draining? && (DetachOf(s, side).bufs != [] ==> DetachOf(s, side).bufs[0] < |s.pool.refs|)
  }

  predicate ProducerReady(s: Sys, a: ProducerAction) {
    match a
    case LookP => s.producer.PTop?
    case Produce => s.producer.PGo?
    case Abort => s.producer.PFilled? && s.producer.b < |s.pool.refs|
    case Retain => s.producer.PFilled? && s.producer.b < |s.pool.refs|
    case Offer => s.producer.PRetained?
    case Undo => s.producer.PUndo? && s.producer.b < |s.pool.refs|
    case Own => s.producer.POwn? && s.producer.b < |s.pool.refs|
  }

  predicate ConsumerReady(s: Sys, a: ConsumerAction) {
    match a
    case LookZ => s.consumer.ZTop?
    case Consume => s.consumer.ZGo?
    case Finish => s.consumer.ZHolding? && s.consumer.b < |s.pool.refs|
  }

  predicate Ready(s: Sys, a: Action) {
    match a
    case ByCamera(c) => CameraReady(s, c)
    case ByDetach(d) => DetachReady(s, d)
    case ByProducer(p) => ProducerReady(s, p)
    case ByConsumer(z) => ConsumerReady(s, z)
  }

  /** sys_channel_release: the last one takes the queued buffers with it. */
  function DropChannel(s: Sys): (Sys, seq<nat>)
    requires s.chanRefs > 0
  {
    if s.chanRefs == 1 then (s.(chanRefs := 0, chan := s.chan.(queue := [])), s.chan.queue)
    else (s.(chanRefs := s.chanRefs - 1), [])
  }

  function GiveBack(s: Sys, b: nat): Sys
    requires b < |s.pool.refs|
  {
    s.(pool := ReleaseBuffer(s.pool, b))
  }

  function ProduceStep(s: Sys): Sys {
    match AcquireBuffer(s.pool)
    case (_, None) => s.(producer := PTop)
    case (pool, Some(b)) =>
      s.(pool := pool, producer := PFilled(b), next := s.next + 1,
         sequence := if b < |s.sequence| then s.sequence[b := s.next] else s.sequence)
  }

  function RetainStep(s: Sys): Sys
    requires s.producer.PFilled? && s.producer.b < |s.pool.refs|
  {
    var (pool, r) := RetainBuffer(s.pool, s.producer.b);
    s.(pool := pool, producer := if r == Ok then PRetained(s.producer.b) else POwn(s.producer.b, false))
  }

  function OfferStep(s: Sys): Sys
    requires s.producer.PRetained?
  {
    match ChannelModel.Offer(s.chan, s.producer.b)
    case Accepted(chan) => s.(chan := chan, producer := POwn(s.producer.b, false))
    case MustWait => s.(producer := PUndo(s.producer.b, false))
    case _ => s.(producer := PUndo(s.producer.b, true))
  }

  function ConsumeStep(s: Sys): Sys {
    match Poll(s.chan)
    case MustWait => s.(chan := CountTimeout(s.chan), consumer := ZTop)
    case Taken(b, chan) => s.(chan := chan, consumer := ZHolding(b))
    case _ => s.(consumer := ZExited)
  }

  function CameraStep(s: Sys, a: CameraAction): Sys
    requires CameraReady(s, a)
  {
    match a
    case Attach(created) =>
      if created then s.(chanRefs := s.chanRefs + 1, attached := true, consumer := ZTop, stopZ := false, camera := Attached(false))
      else s.(camera := Attached(true))
    case NoAttach(failed) => s.(camera := Attached(failed))
    case Conclude(failed) => s.(camera := if failed || s.camera.failed then Flagging else Running)
    case Stop => s.(camera := Flagging)
    case Flag => s.(stopP := true, camera := Closing)
    case Close => s.(chan := s.chan.(closed := true), camera := JoiningProducer)
    case JoinProducer => s.(camera := Publishing)
    case Publish =>
      if s.attached then s.(attached := false, stopZ := true, detachC := Joining, camera := Detaching)
      else s.(camera := Releasing)
    case Detached => s.(camera := Releasing)
    case Release =>
      var (s1, bufs) := DropChannel(s);
      s1.(camera := if s.chanRefs == 1 then Emptying(bufs) else WaitingIdle)
    case Empty =>
      if s.camera.bufs == [] then s.(camera := WaitingIdle)
      else GiveBack(s, s.camera.bufs[0]).(camera := Emptying(s.camera.bufs[1..]))
    case Idle => s.(alive := false, camera := Done(true))
    case TimeOut => s.(camera := Done(false))
  }

  function DetachStep(s: Sys, a: DetachAction): Sys
    requires DetachReady(s, a)
  {
    match a
    case MediaStop => s.(attached := false, stopZ := true, detachM := Joining)
    case JoinConsumer(side) => SetDetach(s, side, Letting).(consumer := ZNone)
    case LetGo(side) =>
      var (s1, bufs) := DropChannel(s);
      SetDetach(s1, side, if s.chanRefs == 1 then Draining(bufs) else Off)
    case Drain(side) =>
      var bufs := DetachOf(s, side).bufs;
      if bufs == [] then SetDetach(s, side, Off)
      else SetDetach(GiveBack(s, bufs[0]), side, Draining(bufs[1..]))
  }

  function ProducerStep(s: Sys, a: ProducerAction): Sys
    requires ProducerReady(s, a)
  {
    match a
    case LookP => s.(producer := if s.stopP then PExited else PGo)
    case Produce => ProduceStep(s)
    case Abort => GiveBack(s, s.producer.b).(producer := PExited)
    case Retain => RetainStep(s)
    case Offer => OfferStep(s)
    case Undo => GiveBack(s, s.producer.b).(producer := POwn(s.producer.b, s.producer.closed))
    case Own => GiveBack(s, s.producer.b).(producer := if s.producer.closed then PExited else PTop)
  }

  function ConsumerStep(s: Sys, a: ConsumerAction): Sys
    requires ConsumerReady(s, a)
  {
    match a
    case LookZ => s.(consumer := if s.stopZ then ZExited else ZGo)
    case Consume => ConsumeStep(s)
    case Finish => GiveBack(s, s.consumer.b).(consumer := ZTop, consumed := s.consumed + [NumberOf(s.sequence, s.consumer.b)])
  }

  function Step(s: Sys, a: Action): Sys
    requires Ready(s, a)
  {
    match a
    case ByCamera(c) => CameraStep(s, c)
    case ByDetach(d) => DetachStep(s, d)
    case ByProducer(p) => ProducerStep(s, p)
    case ByConsumer(z) => ConsumerStep(s, z)
  }

  // ----- the invariant

  function One(b: bool): nat {
    if b then 1 else 0
  }

  function Listed(bufs: seq<nat>, b: nat): nat {
    multiset(bufs)[b]
  }

  function ProducerHolds(p: Producer, b: nat): nat {
    match p
    case PFilled(x) => One(x == b)
    case PRetained(x) => 2 * One(x == b)
    case PUndo(x, _) => 2 * One(x == b)
    case POwn(x, _) => One(x == b)
    case _ => 0
  }

  function DetachHolds(d: Detach, b: nat): nat {
    if d.Draining? then Listed(d.bufs, b) else 0
  }

  function CameraHolds(c: Camera, b: nat): nat {
    if c.Emptying? then Listed(c.bufs, b) else 0
  }

  function ConsumerHolds(z: Consumer, b: nat): nat {
    if z.ZHolding? then One(z.b == b) else 0
  }

  function Ahead(p: Producer, queue: seq<nat>, b: nat): nat {
    ProducerHolds(p, b) + Listed(queue, b)
  }

  function Behind(z: Consumer, c: Detach, m: Detach, camera: Camera, b: nat): nat {
    ConsumerHolds(z, b) + DetachHolds(c, b) + DetachHolds(m, b) + CameraHolds(camera, b)
  }

  /** The references to `b` on their way to the consumer, and those the consumer and the releasing sides have. */
  function Owed(s: Sys, b: nat): nat {
    Ahead(s.producer, s.chan.queue, b) + Behind(s.consumer, s.detachC, s.detachM, s.camera, b)
  }

  ghost predicate Conserved(s: Sys) {
    && (forall b :: 0 <= b < |s.pool.refs| ==> s.pool.refs[b] == Owed(s, b))
    && (forall b :: b >= |s.pool.refs| ==> Owed(s, b) == 0)
  }

  predicate Token(d: Detach) {
    d.Joining? || d.Letting?
  }

  /** The camera still has its reference to the channel. */
  predicate CameraHasChannel(c: Camera) {
    !c.Emptying? && !c.WaitingIdle? && !c.Done?
  }

  /** The producer has not been joined yet. */
  predicate ProducerOurs(c: Camera) {
    c.Attaching? || c.Attached? || c.Running? || c.Flagging? || c.Closing? || c.JoiningProducer?
  }

  ghost predicate Phases(s: Sys) {
    && s.chanRefs == One(CameraHasChannel(s.camera)) + One(s.attached) + One(Token(s.detachC)) + One(Token(s.detachM))
    && One(s.attached) + One(Token(s.detachC)) + One(Token(s.detachM)) <= 1
    && (s.chanRefs == 0 ==> s.chan.queue == [])
    && (!s.consumer.ZNone? <==> s.attached || s.detachC.Joining? || s.detachM.Joining?)
    && (s.detachC.Joining? || s.detachM.Joining? ==> s.stopZ)
    && (s.camera.Attaching? ==> !s.attached && s.detachM.Off? && s.detachC.Off?)
    && (!s.camera.Detaching? ==> s.detachC.Off?)
    && (!s.producer.PExited? ==> ProducerOurs(s.camera))
    && (s.camera.Releasing? || s.camera.Detaching? || !CameraHasChannel(s.camera) ==> !s.attached)
    && (s.camera.Closing? ==> s.stopP)
    && (s.chan.closed <==> !(s.camera.Attaching? || s.camera.Attached? || s.camera.Running? || s.camera.Flagging? || s.camera.Closing?))
    && (s.chan.closed ==> s.stopP)
    && (s.alive <==> s.camera != Done(true))
    && (s.camera == Done(true) ==> s.pool.inUse == 0)
  }

  function NumberOf(sequence: seq<nat>, b: nat): nat {
    if b < |sequence| then sequence[b] else 0
  }

  function NumbersOf(sequence: seq<nat>, bufs: seq<nat>): (r: seq<nat>)
    ensures |r| == |bufs|
  {
    seq(|bufs|, i requires 0 <= i < |bufs| => NumberOf(sequence, bufs[i]))
  }

  function InHand(z: Consumer): seq<nat> {
    if z.ZHolding? then [z.b] else []
  }

  function OnTheWay(p: Producer): seq<nat> {
    if p.PFilled? || p.PRetained? then [p.b] else []
  }

  /** The frame numbers from the first one consumed to the last one filled, along the way they take. */
  function Pipeline(s: Sys): seq<nat> {
    s.consumed + NumbersOf(s.sequence, InHand(s.consumer) + s.chan.queue + OnTheWay(s.producer))
  }

  ghost predicate StrictlyRising(q: seq<nat>) {
    forall i, j :: 0 <= i < j < |q| ==> q[i] < q[j]
  }

  ghost predicate AllBelow(q: seq<nat>, n: nat) {
    forall i :: 0 <= i < |q| ==> q[i] < n
  }

  ghost predicate Ordered(s: Sys) {
    |s.sequence| == |s.pool.refs| && StrictlyRising(Pipeline(s)) && AllBelow(Pipeline(s), s.next)
  }

  ghost predicate Inv(s: Sys) {
    Conserved(s) && PoolOk(s.pool) && Phases(s) && Ordered(s) && s.chan.capacity == |s.pool.refs|
  }
}
