/** Every way a stream can end: the producer joined, the buffers back in the pool, the pool destroyed; and
    what the consumer counted came in the order it was produced. */
module StreamTheorems {
  import opened SysTypes
  import opened Sums
  import opened ChannelModel
  import opened StreamSteps

  // ----- pool

  ghost predicate PoolKept(s: Sys, s': Sys) {
    && PoolOk(s'.pool) && |s'.pool.refs| == |s.pool.refs| && |s'.sequence| == |s.sequence|
    && s'.chan.capacity == s.chan.capacity
  }

  lemma GiveBackKeepsPool(s: Sys, b: nat)
    requires PoolOk(s.pool) && b < |s.pool.refs|
    ensures PoolOk(GiveBack(s, b).pool)
  {
    ReleaseKeepsPool(s.pool, b);
  }

  lemma ProducerKeepsPool(s: Sys, a: ProducerAction)
    requires PoolOk(s.pool) && ProducerReady(s, a)
    ensures PoolKept(s, ProducerStep(s, a))
  {
    hide PoolOk, FirstFree, ReleaseBuffer;
    if a.Produce? {
      AcquireKeepsPool(s.pool);
    } else if a.Retain? {
      RetainKeepsPool(s.pool, s.producer.b);
    } else if !a.Offer? && !a.LookP? {
      GiveBackKeepsPool(s, s.producer.b);
    }
  }

  lemma CameraKeepsPool(s: Sys, a: CameraAction)
    requires PoolOk(s.pool) && CameraReady(s, a)
    ensures PoolKept(s, CameraStep(s, a))
  {
    hide PoolOk, ReleaseBuffer;
    if a.Empty? && s.camera.bufs != [] {
      GiveBackKeepsPool(s, s.camera.bufs[0]);
    }
  }

  lemma DrainKeepsPool(s: Sys, side: Side)
    requires PoolOk(s.pool) && DetachReady(s, Drain(side))
    ensures PoolKept(s, DetachStep(s, Drain(side)))
  {
    hide PoolOk, ReleaseBuffer;
    if DetachOf(s, side).bufs != [] {
      GiveBackKeepsPool(s, DetachOf(s, side).bufs[0]);
    }
  }

  lemma DetachKeepsPool(s: Sys, a: DetachAction)
    requires PoolOk(s.pool) && DetachReady(s, a)
    ensures PoolKept(s, DetachStep(s, a))
  {
    hide PoolOk, ReleaseBuffer;
    if a.Drain? {
      DrainKeepsPool(s, a.side);
    }
  }

  lemma ConsumerKeepsPool(s: Sys, a: ConsumerAction)
    requires PoolOk(s.pool) && ConsumerReady(s, a)
    ensures PoolKept(s, ConsumerStep(s, a))
  {
    hide PoolOk, ReleaseBuffer;
    if a.Finish? {
      GiveBackKeepsPool(s, s.consumer.b);
    }
  }

  lemma StepKeepsPool(s: Sys, a: Action)
    requires PoolOk(s.pool) && Ready(s, a)
    ensures PoolKept(s, Step(s, a))
  {
    hide PoolOk, PoolKept, CameraStep, DetachStep, ProducerStep, ConsumerStep, CameraReady, DetachReady, ProducerReady, ConsumerReady;
    match a
    case ByCamera(c) => CameraKeepsPool(s, c);
    case ByDetach(d) => DetachKeepsPool(s, d);
    case ByConsumer(z) => ConsumerKeepsPool(s, z);
    case ByProducer(p) => ProducerKeepsPool(s, p);
  }

  // ----- references

  lemma HeadListed(bufs: seq<nat>, b: nat)
    requires bufs != []
    ensures Listed(bufs, b) == One(bufs[0] == b) + Listed(bufs[1..], b)
  {
    assert bufs == [bufs[0]] + bufs[1..];
  }

  lemma SnocListed(bufs: seq<nat>, x: nat, b: nat)
    ensures Listed(bufs + [x], b) == Listed(bufs, b) + One(x == b)
  {
  }

  function Count(p: Pool, b: nat): nat {
    if b < |p.refs| then p.refs[b] else 0
  }

  ghost predicate Balanced(s: Sys, s': Sys, b: nat) {
    Count(s'.pool, b) - Count(s.pool, b) == Owed(s', b) - Owed(s, b)
  }

  /** Giving back a reference that is owed lowers the count by one. */
  lemma GiveBackCounts(s: Sys, x: nat, b: nat)
    requires Conserved(s) && x < |s.pool.refs| && Owed(s, x) > 0
    ensures Count(GiveBack(s, x).pool, b) + One(x == b) == Count(s.pool, b)
  {
    hide Owed;
  }

  lemma ProducerGives(s: Sys, a: ProducerAction, b: nat)
    requires Conserved(s) && ProducerReady(s, a) && (a.Abort? || a.Undo? || a.Own?)
    ensures Balanced(s, ProducerStep(s, a), b)
  {
    hide ReleaseBuffer, Listed, Conserved, Count, Behind;
    GiveBackCounts(s, s.producer.b, b);
  }

  lemma ProducerTakes(s: Sys, a: ProducerAction, b: nat)
    requires Conserved(s) && ProducerReady(s, a) && (a.Produce? || a.Retain?)
    ensures Balanced(s, ProducerStep(s, a), b)
  {
    hide Listed, FirstFree, Behind;
    FirstFreeIsFree(s.pool.refs, 0);
  }

  lemma RefusalBalances(s: Sys, b: nat)
    requires ProducerReady(s, Offer) && !ChannelModel.Offer(s.chan, s.producer.b).Accepted?
    ensures Balanced(s, ProducerStep(s, Offer), b)
  {
    hide Listed, Count, Behind;
  }

  lemma OfferBalances(s: Sys, b: nat)
    requires ProducerReady(s, Offer)
    ensures Balanced(s, ProducerStep(s, Offer), b)
  {
    hide Listed, Count, Behind;
    if ChannelModel.Offer(s.chan, s.producer.b).Accepted? {
      SnocListed(s.chan.queue, s.producer.b, b);
    } else {
      RefusalBalances(s, b);
    }
  }

  lemma ProducerBalances(s: Sys, a: ProducerAction, b: nat)
    requires Conserved(s) && ProducerReady(s, a)
    ensures Balanced(s, ProducerStep(s, a), b)
  {
    hide Conserved, ReleaseBuffer, Listed, ProduceStep, RetainStep, OfferStep, Ahead, Behind;
    if a.Offer? {
      OfferBalances(s, b);
    } else if a.Produce? || a.Retain? {
      ProducerTakes(s, a, b);
    } else if a.LookP? {
      LookBalances(s, b);
    } else {
      ProducerGives(s, a, b);
    }
  }

  lemma LookBalances(s: Sys, b: nat)
    requires ProducerReady(s, LookP)
    ensures Balanced(s, ProducerStep(s, LookP), b)
  {
  }

  lemma ConsumerBalances(s: Sys, a: ConsumerAction, b: nat)
    requires Conserved(s) && ConsumerReady(s, a)
    ensures Balanced(s, ConsumerStep(s, a), b)
  {
    hide Conserved, ReleaseBuffer, Listed, Count, ConsumeStep;
    if a.Finish? {
      GiveBackCounts(s, s.consumer.b, b);
    } else if a.Consume? {
      ReceiveBalances(s, b);
    }
  }

  lemma ReceiveBalances(s: Sys, b: nat)
    requires ConsumerReady(s, Consume)
    ensures Balanced(s, ConsumerStep(s, Consume), b)
  {
    hide Listed, Count, ProducerHolds, DetachHolds, CameraHolds;
    if s.chan.queue != [] {
      HeadListed(s.chan.queue, b);
    }
  }

  lemma EmptyBalances(s: Sys, b: nat)
    requires Conserved(s) && CameraReady(s, Empty)
    ensures Balanced(s, CameraStep(s, Empty), b)
  {
    hide Conserved, ReleaseBuffer, Count, Listed;
    var bufs := s.camera.bufs;
    ListedNothing(b);
    if bufs != [] {
      HeadListed(bufs, bufs[0]);
      HeadListed(bufs, b);
      GiveBackCounts(s, bufs[0], b);
    }
  }

  lemma CameraBalances(s: Sys, a: CameraAction, b: nat)
    requires Conserved(s) && Phases(s) && CameraReady(s, a)
    ensures Balanced(s, CameraStep(s, a), b)
  {
    hide Conserved, ReleaseBuffer, Count, Listed;
    if a.Empty? {
      EmptyBalances(s, b);
    } else {
      ListedNothing(b);
    }
  }

  lemma DetachBalances(s: Sys, a: DetachAction, b: nat)
    requires Conserved(s) && Phases(s) && DetachReady(s, a)
    ensures Balanced(s, DetachStep(s, a), b)
  {
    hide Conserved, ReleaseBuffer, Count, Listed;
    if a.Drain? {
      DrainBalances(s, a.side, b);
    } else {
      ListedNothing(b);
    }
  }

  lemma ListedNothing(b: nat)
    ensures Listed([], b) == 0
  {
  }

  lemma DrainBalances(s: Sys, side: Side, b: nat)
    requires Conserved(s) && DetachReady(s, Drain(side))
    ensures Balanced(s, DetachStep(s, Drain(side)), b)
  {
    hide Conserved, ReleaseBuffer, Count, Listed;
    var bufs := DetachOf(s, side).bufs;
    ListedNothing(b);
    if bufs != [] {
      HeadListed(bufs, bufs[0]);
      HeadListed(bufs, b);
      GiveBackCounts(s, bufs[0], b);
    }
  }

  lemma StepConserves(s: Sys, a: Action)
    requires Conserved(s) && Phases(s) && Ready(s, a) && PoolOk(s.pool)
    ensures Conserved(Step(s, a))
  {
    hide Owed, CameraStep, DetachStep, ProducerStep, ConsumerStep, Phases, PoolOk, CameraReady, DetachReady, ProducerReady, ConsumerReady;
    StepKeepsPool(s, a);
    var s' := Step(s, a);
    forall b: nat
      ensures Count(s'.pool, b) == Owed(s', b)
    {
      assert Count(s.pool, b) == Owed(s, b);
      match a {
        case ByCamera(c) => CameraBalances(s, c, b);
        case ByDetach(d) => DetachBalances(s, d, b);
        case ByProducer(p) => ProducerBalances(s, p, b);
        case ByConsumer(z) => ConsumerBalances(s, z, b);
      }
    }
    forall b: nat
      ensures b < |s'.pool.refs| ==> s'.pool.refs[b] == Owed(s', b)
      ensures b >= |s'.pool.refs| ==> Owed(s', b) == 0
    {
      assert Count(s'.pool, b) == Owed(s', b);
    }
  }

  // ----- phases

  lemma NothingLeft(s: Sys, b: nat)
    requires Conserved(s) && PoolOk(s.pool) && s.pool.inUse == 0
    ensures Owed(s, b) == 0
  {
    IdleIff(s.pool);
    assert b < |s.pool.refs| ==> s.pool.refs[b] == Owed(s, b);
  }

  /** Once no buffer is in use, no queue, no list and no thread has one. */
  lemma IdleIsQuiet(s: Sys)
    requires Conserved(s) && PoolOk(s.pool) && s.pool.inUse == 0
    ensures s.chan.queue == [] && !s.consumer.ZHolding? && (s.producer.PTop? || s.producer.PGo? || s.producer.PExited?)
    ensures (s.detachM.Draining? ==> s.detachM.bufs == []) && (s.detachC.Draining? ==> s.detachC.bufs == [])
    ensures s.camera.Emptying? ==> s.camera.bufs == []
  {
    hide Conserved, PoolOk;
    if s.chan.queue != [] { NothingLeft(s, s.chan.queue[0]); }
    if s.consumer.ZHolding? { NothingLeft(s, s.consumer.b); }
    if s.detachM.Draining? && s.detachM.bufs != [] { NothingLeft(s, s.detachM.bufs[0]); }
    if s.detachC.Draining? && s.detachC.bufs != [] { NothingLeft(s, s.detachC.bufs[0]); }
    if s.camera.Emptying? && s.camera.bufs != [] { NothingLeft(s, s.camera.bufs[0]); }
    if !s.producer.PTop? && !s.producer.PGo? && !s.producer.PExited? { NothingLeft(s, s.producer.b); }
  }

  lemma ReleaseKeepsPhases(s: Sys)
    requires Phases(s) && CameraReady(s, Release)
    ensures Phases(CameraStep(s, Release))
  {
  }

  lemma EmptyKeepsPhases(s: Sys)
    requires Phases(s) && CameraReady(s, Empty)
    ensures Phases(CameraStep(s, Empty))
  {
    hide ReleaseBuffer;
  }

  lemma OthersKeepPhases(s: Sys, a: CameraAction)
    requires Phases(s) && CameraReady(s, a) && !a.Release? && !a.Empty?
    ensures Phases(CameraStep(s, a))
  {
  }

  lemma CameraKeepsPhases(s: Sys, a: CameraAction)
    requires Phases(s) && CameraReady(s, a)
    ensures Phases(CameraStep(s, a))
  {
    hide Phases, CameraStep, CameraReady;
    match a
    case Release => ReleaseKeepsPhases(s);
    case Empty => EmptyKeepsPhases(s);
    case _ => OthersKeepPhases(s, a);
  }

  lemma LetGoKeepsPhases(s: Sys, side: Side)
    requires Phases(s) && DetachReady(s, LetGo(side))
    ensures Phases(DetachStep(s, LetGo(side)))
  {
  }

  lemma DrainKeepsPhases(s: Sys, side: Side)
    requires Phases(s) && DetachReady(s, Drain(side))
    requires s.camera == Done(true) ==> s.detachM.Draining? ==> s.detachM.bufs == []
    ensures Phases(DetachStep(s, Drain(side)))
  {
    hide ReleaseBuffer;
  }

  lemma JoinKeepsPhases(s: Sys, a: DetachAction)
    requires Phases(s) && DetachReady(s, a) && (a.MediaStop? || a.JoinConsumer?)
    ensures Phases(DetachStep(s, a))
  {
  }

  lemma DetachKeepsPhases(s: Sys, a: DetachAction)
    requires Phases(s) && DetachReady(s, a)
    requires s.camera == Done(true) ==> s.detachM.Draining? ==> s.detachM.bufs == []
    ensures Phases(DetachStep(s, a))
  {
    hide Phases, DetachStep, DetachReady;
    if a.LetGo? {
      LetGoKeepsPhases(s, a.side);
    } else if a.Drain? {
      DrainKeepsPhases(s, a.side);
    } else {
      JoinKeepsPhases(s, a);
    }
  }

  ghost predicate OnlyProducer(s: Sys, s': Sys) {
    && s'.chan.closed == s.chan.closed
    && s' == s.(producer := s'.producer, pool := s'.pool, chan := s'.chan, next := s'.next, sequence := s'.sequence)
  }

  lemma ProduceTouches(s: Sys)
    ensures OnlyProducer(s, ProduceStep(s))
  {
    hide AcquireBuffer;
  }

  lemma RetainTouches(s: Sys)
    requires s.producer.PFilled? && s.producer.b < |s.pool.refs|
    ensures OnlyProducer(s, RetainStep(s))
  {
    hide RetainBuffer;
  }

  lemma OfferTouches(s: Sys)
    requires s.producer.PRetained?
    ensures OnlyProducer(s, OfferStep(s))
  {
  }

  /** The producer touches only its own place, the pool and the queue. */
  lemma ProducerTouches(s: Sys, a: ProducerAction)
    requires ProducerReady(s, a)
    ensures !s.producer.PExited? && OnlyProducer(s, ProducerStep(s, a))
  {
    hide ReleaseBuffer, ProduceStep, RetainStep, OfferStep;
    match a
    case Produce => ProduceTouches(s);
    case Retain => RetainTouches(s);
    case Offer => OfferTouches(s);
    case _ =>
  }

  lemma ProducerKeepsPhases(s: Sys, a: ProducerAction)
    requires Phases(s) && ProducerReady(s, a)
    ensures Phases(ProducerStep(s, a))
  {
    hide ProducerStep, ProducerReady;
    ProducerTouches(s, a);
  }

  lemma FinishKeepsPhases(s: Sys)
    requires Phases(s) && ConsumerReady(s, Finish) && s.camera != Done(true)
    ensures Phases(ConsumerStep(s, Finish))
  {
    hide ReleaseBuffer;
  }

  lemma ReceiveKeepsPhases(s: Sys, a: ConsumerAction)
    requires Phases(s) && ConsumerReady(s, a) && !a.Finish?
    ensures Phases(ConsumerStep(s, a))
  {
  }

  lemma ConsumerKeepsPhases(s: Sys, a: ConsumerAction)
    requires Phases(s) && ConsumerReady(s, a)
    requires s.camera == Done(true) ==> !s.consumer.ZHolding?
    ensures Phases(ConsumerStep(s, a))
  {
    hide Phases, ConsumerStep;
    if a.Finish? {
      FinishKeepsPhases(s);
    } else {
      ReceiveKeepsPhases(s, a);
    }
  }

  lemma StepKeepsPhases(s: Sys, a: Action)
    requires Conserved(s) && PoolOk(s.pool) && Phases(s) && Ready(s, a)
    ensures Phases(Step(s, a))
  {
    if s.camera == Done(true) {
      IdleIsQuiet(s);
    }
    match a
    case ByCamera(c) => CameraKeepsPhases(s, c);
    case ByDetach(d) => DetachKeepsPhases(s, d);
    case ByProducer(p) => ProducerKeepsPhases(s, p);
    case ByConsumer(z) => ConsumerKeepsPhases(s, z);
  }

  // ----- order of frames

  lemma RisingPrefix(q: seq<nat>, r: seq<nat>, n: nat)
    requires r <= q && StrictlyRising(q) && AllBelow(q, n)
    ensures StrictlyRising(r) && AllBelow(r, n)
  {
  }

  lemma RisingSnoc(q: seq<nat>, n: nat)
    requires StrictlyRising(q) && AllBelow(q, n)
    ensures StrictlyRising(q + [n]) && AllBelow(q + [n], n + 1)
  {
  }

  lemma FreshNumber(sequence: seq<nat>, bufs: seq<nat>, x: nat, n: nat)
    requires x < |sequence| && x !in bufs
    ensures NumbersOf(sequence[x := n], bufs + [x]) == NumbersOf(sequence, bufs) + [n]
  {
  }

  function Way(s: Sys): seq<nat> {
    InHand(s.consumer) + s.chan.queue + OnTheWay(s.producer)
  }

  lemma NotCarried(s: Sys, x: nat)
    requires Owed(s, x) == 0
    ensures x !in Way(s)
  {
  }

  lemma ProduceFills(s: Sys)
    requires Conserved(s) && ProducerReady(s, Produce) && ProducerStep(s, Produce).producer.PFilled?
    ensures Owed(s, ProducerStep(s, Produce).producer.b) == 0
  {
    hide Owed;
    FirstFreeIsFree(s.pool.refs, 0);
  }

  lemma PipelineGrows(s: Sys, s': Sys, x: nat, n: nat)
    requires s'.consumed == s.consumed && x < |s.sequence| && s'.sequence == s.sequence[x := n]
    requires x !in Way(s) && Way(s') == Way(s) + [x]
    ensures Pipeline(s') == Pipeline(s) + [n]
  {
    FreshNumber(s.sequence, Way(s), x, n);
    assert s.consumed + (NumbersOf(s.sequence, Way(s)) + [n]) == Pipeline(s) + [n];
  }

  lemma SamePipeline(s: Sys, s': Sys)
    requires s'.consumed == s.consumed && s'.sequence == s.sequence && Way(s') == Way(s)
    ensures Pipeline(s') == Pipeline(s)
  {
  }

  lemma ProduceAddsLast(s: Sys)
    requires Conserved(s) && |s.sequence| == |s.pool.refs| && ProducerReady(s, Produce)
    ensures var s' := ProducerStep(s, Produce);
            if s'.producer.PFilled? then Pipeline(s') == Pipeline(s) + [s.next] && s'.next == s.next + 1
            else Pipeline(s') == Pipeline(s) && s'.next == s.next
  {
    hide Conserved, FirstFree, Owed, Pipeline;
    var s' := ProducerStep(s, Produce);
    if s'.producer.PFilled? {
      ProduceFills(s);
      NotCarried(s, s'.producer.b);
      PipelineGrows(s, s', s'.producer.b, s.next);
    } else {
      assert Way(s') == Way(s);
      SamePipeline(s, s');
    }
  }

  lemma ShorterWay(s: Sys, s': Sys)
    requires s'.consumed == s.consumed && s'.sequence == s.sequence && Way(s') <= Way(s)
    ensures Pipeline(s') <= Pipeline(s)
  {
    var q, q' := NumbersOf(s.sequence, Way(s)), NumbersOf(s.sequence, Way(s'));
    assert q' <= q;
  }

  /** `s'` is `s` but for the pool and the producer, who keeps or drops the frame it is sending. */
  ghost predicate MayDrop(s: Sys, s': Sys) {
    && s' == s.(pool := s'.pool, producer := s'.producer)
    && (OnTheWay(s'.producer) == OnTheWay(s.producer) || OnTheWay(s'.producer) == [])
  }

  lemma OthersMayDrop(s: Sys, a: ProducerAction)
    requires ProducerReady(s, a) && !a.Produce? && !a.Offer?
    ensures MayDrop(s, ProducerStep(s, a))
  {
    hide ReleaseBuffer, RetainBuffer;
  }

  lemma OfferMayDrop(s: Sys)
    requires ProducerReady(s, Offer)
    ensures var s' := ProducerStep(s, Offer);
            || MayDrop(s, s')
            || (s' == s.(producer := s'.producer, chan := s'.chan) && s'.chan.queue == s.chan.queue + OnTheWay(s.producer)
                && OnTheWay(s'.producer) == [])
  {
  }

  lemma ProducerShortensWay(s: Sys, a: ProducerAction)
    requires ProducerReady(s, a) && !a.Produce?
    ensures var s' := ProducerStep(s, a);
            Way(s') <= Way(s) && s'.next == s.next && s'.sequence == s.sequence && s'.consumed == s.consumed
  {
    hide ProducerStep, ProducerReady, OnTheWay, InHand;
    var (hand, q, way) := (InHand(s.consumer), s.chan.queue, OnTheWay(s.producer));
    if a.Offer? {
      OfferMayDrop(s);
    } else {
      OthersMayDrop(s, a);
    }
    assert hand + (q + way) + [] == hand + q + way && hand + q + [] <= hand + q + way;
  }

  lemma ProducerKeepsWay(s: Sys, a: ProducerAction)
    requires ProducerReady(s, a) && !a.Produce?
    ensures Pipeline(ProducerStep(s, a)) <= Pipeline(s) && ProducerStep(s, a).next == s.next
  {
    hide Way, Pipeline, ProducerStep, ProducerReady;
    ProducerShortensWay(s, a);
    ShorterWay(s, ProducerStep(s, a));
  }

  lemma FirstNumber(sequence: seq<nat>, b: nat, bufs: seq<nat>)
    ensures NumbersOf(sequence, [b] + bufs) == [NumberOf(sequence, b)] + NumbersOf(sequence, bufs)
  {
  }

  lemma FinishKeepsWay(s: Sys)
    requires ConsumerReady(s, Finish)
    ensures Pipeline(ConsumerStep(s, Finish)) == Pipeline(s)
  {
    hide ReleaseBuffer, NumbersOf;
    var s' := ConsumerStep(s, Finish);
    assert Way(s) == [s.consumer.b] + Way(s');
    FirstNumber(s.sequence, s.consumer.b, Way(s'));
  }

  lemma ConsumerKeepsWay(s: Sys, a: ConsumerAction)
    requires ConsumerReady(s, a)
    ensures Pipeline(ConsumerStep(s, a)) <= Pipeline(s) && ConsumerStep(s, a).next == s.next
  {
    hide ReleaseBuffer, NumbersOf, Pipeline, Way;
    if a.Finish? {
      FinishKeepsWay(s);
    } else {
      ReceiveKeepsWay(s, a);
      ShorterWay(s, ConsumerStep(s, a));
    }
  }

  lemma ReceiveKeepsWay(s: Sys, a: ConsumerAction)
    requires ConsumerReady(s, a) && !a.Finish?
    ensures Way(ConsumerStep(s, a)) == Way(s)
  {
    if a.Consume? && s.chan.queue != [] {
      HeadMoves(s.chan.queue, OnTheWay(s.producer));
    }
  }

  lemma HeadMoves(q: seq<nat>, p: seq<nat>)
    requires q != []
    ensures [] + q + p == [q[0]] + q[1..] + p
  {
    assert q == [q[0]] + q[1..];
  }

  lemma ReleaseKeepsWay(s: Sys)
    requires CameraReady(s, Release) && Phases(s)
    ensures var s' := CameraStep(s, Release);
            s'.consumed == s.consumed && s'.sequence == s.sequence && s'.next == s.next && Way(s') <= Way(s)
  {
  }

  lemma OthersKeepWay(s: Sys, a: CameraAction)
    requires CameraReady(s, a) && Phases(s) && !a.Release?
    ensures var s' := CameraStep(s, a);
            s'.consumed == s.consumed && s'.sequence == s.sequence && s'.next == s.next && Way(s') == Way(s)
  {
    hide ReleaseBuffer;
  }

  lemma CameraKeepsWay(s: Sys, a: CameraAction)
    requires CameraReady(s, a) && Phases(s)
    ensures Pipeline(CameraStep(s, a)) <= Pipeline(s) && CameraStep(s, a).next == s.next
  {
    hide CameraStep, CameraReady, Phases, Way, Pipeline;
    if a.Release? {
      ReleaseKeepsWay(s);
    } else {
      OthersKeepWay(s, a);
    }
    ShorterWay(s, CameraStep(s, a));
  }

  lemma LetGoKeepsWay(s: Sys, side: Side)
    requires DetachReady(s, LetGo(side)) && Phases(s)
    ensures var s' := DetachStep(s, LetGo(side));
            s'.consumed == s.consumed && s'.sequence == s.sequence && s'.next == s.next && Way(s') <= Way(s)
  {
  }

  lemma DrainKeepsWay(s: Sys, side: Side)
    requires DetachReady(s, Drain(side))
    ensures var s' := DetachStep(s, Drain(side));
            s'.consumed == s.consumed && s'.sequence == s.sequence && s'.next == s.next && Way(s') == Way(s)
  {
    hide ReleaseBuffer;
  }

  lemma JoinKeepsWay(s: Sys, a: DetachAction)
    requires DetachReady(s, a) && (a.MediaStop? || a.JoinConsumer?)
    ensures var s' := DetachStep(s, a);
            s'.consumed == s.consumed && s'.sequence == s.sequence && s'.next == s.next && Way(s') == Way(s)
  {
  }

  lemma DetachKeepsWay(s: Sys, a: DetachAction)
    requires DetachReady(s, a) && Phases(s)
    ensures Pipeline(DetachStep(s, a)) <= Pipeline(s) && DetachStep(s, a).next == s.next
  {
    hide DetachStep, DetachReady, Phases, Way, Pipeline;
    if a.LetGo? {
      LetGoKeepsWay(s, a.side);
    } else if a.Drain? {
      DrainKeepsWay(s, a.side);
    } else {
      JoinKeepsWay(s, a);
    }
    ShorterWay(s, DetachStep(s, a));
  }

  lemma StepKeepsOrder(s: Sys, a: Action)
    requires Inv(s) && Ready(s, a)
    ensures Ordered(Step(s, a))
  {
    hide Pipeline, Conserved, Phases, PoolOk, StrictlyRising, AllBelow, CameraStep, DetachStep, ProducerStep, ConsumerStep;
    StepKeepsPool(s, a);
    match a {
      case ByCamera(c) => CameraKeepsWay(s, c);
      case ByDetach(d) => DetachKeepsWay(s, d);
      case ByProducer(p) =>
        if p.Produce? {
          ProduceAddsLast(s);
          RisingSnoc(Pipeline(s), s.next);
        } else {
          ProducerKeepsWay(s, p);
        }
      case ByConsumer(z) => ConsumerKeepsWay(s, z);
    }
    if Pipeline(Step(s, a)) <= Pipeline(s) && Step(s, a).next == s.next {
      RisingPrefix(Pipeline(s), Pipeline(Step(s, a)), s.next);
    }
  }

  lemma StepKeepsInv(s: Sys, a: Action)
    requires Inv(s) && Ready(s, a)
    ensures Inv(Step(s, a))
  {
    hide Conserved, Phases, Ordered, PoolOk, Step, Ready;
    StepKeepsPool(s, a);
    StepConserves(s, a);
    StepKeepsPhases(s, a);
    StepKeepsOrder(s, a);
  }

  // ----- runs

  ghost predicate Runs(s: Sys, turns: seq<Action>)
    decreases |turns|
  {
    turns != [] ==> Ready(s, turns[0]) && Runs(Step(s, turns[0]), turns[1..])
  }

  ghost function After(s: Sys, turns: seq<Action>): Sys
    requires Runs(s, turns)
    decreases |turns|
  {
    if turns == [] then s else After(Step(s, turns[0]), turns[1..])
  }

  /** The state create_stream_resources leaves: a fresh pool and channel of the same size, and a running producer. */
  ghost predicate Created(s: Sys) {
    && s.pool.inUse == 0 && (forall b :: 0 <= b < |s.pool.refs| ==> s.pool.refs[b] == 0)
    && s.alive && |s.sequence| == |s.pool.refs| == s.chan.capacity && s.chan.capacity > 0
    && s.chan.queue == [] && !s.chan.closed && s.chan.policy.FailWhenFull? && s.chanRefs == 1
    && s.camera.Attaching? && s.producer.PTop? && s.consumer.ZNone? && !s.attached
    && s.detachC.Off? && s.detachM.Off? && !s.stopP && s.consumed == []
  }

  lemma CreatedInv(s: Sys)
    requires Created(s)
    ensures Inv(s)
  {
    SumZero(s.pool.refs, Used());
    assert Way(s) == [];
    assert Pipeline(s) == [];
  }

  lemma {:induction false} RunKeepsInv(s: Sys, turns: seq<Action>)
    requires Inv(s) && Runs(s, turns)
    ensures Inv(After(s, turns))
    decreases |turns|
  {
    hide Inv, Ready, Step;
    if turns != [] {
      StepKeepsInv(s, turns[0]);
      RunKeepsInv(Step(s, turns[0]), turns[1..]);
    }
  }

  // ----- what every stream promises

  /** Whichever side let go of the channel last: when the camera has stopped cleanly, the producer is gone, no buffer
      is queued or held, every reference has been given back, and the pool is destroyed. */
  lemma StoppedIsClean(s: Sys, turns: seq<Action>)
    requires Created(s) && Runs(s, turns) && After(s, turns).camera == Done(true)
    ensures var s' := After(s, turns);
            && s'.producer.PExited? && !s'.alive && s'.chan.closed && s'.chan.queue == [] && !s'.consumer.ZHolding?
            && forall b :: 0 <= b < |s'.pool.refs| ==> s'.pool.refs[b] == 0
  {
    CreatedInv(s);
    RunKeepsInv(s, turns);
    IdleIsQuiet(After(s, turns));
    IdleIff(After(s, turns).pool);
  }

  /** The frame numbers the consumer counts strictly increase, whatever was dropped on the way. */
  lemma ConsumedInOrder(s: Sys, turns: seq<Action>)
    requires Created(s) && Runs(s, turns)
    ensures StrictlyRising(After(s, turns).consumed)
  {
    CreatedInv(s);
    RunKeepsInv(s, turns);
    var s' := After(s, turns);
    RisingPrefix(Pipeline(s'), s'.consumed, s'.next);
  }

  lemma RisingIsDistinct(sequence: seq<nat>, bufs: seq<nat>)
    requires StrictlyRising(NumbersOf(sequence, bufs))
    ensures Distinct(bufs)
  {
    var q := NumbersOf(sequence, bufs);
    forall k, j | 0 <= j < k < |bufs|
      ensures bufs[j] != bufs[k]
    {
      assert q[j] < q[k];
    }
  }

  lemma RisingSuffix(q: seq<nat>, n: nat)
    requires StrictlyRising(q) && n <= |q|
    ensures StrictlyRising(q[n..])
  {
  }

  /** With as many slots as buffers the producer's send never finds the queue full. */
  lemma SendNeverFull(s: Sys)
    requires Inv(s) && s.producer.PRetained?
    ensures !ChannelModel.Offer(s.chan, s.producer.b).MustWait?
  {
    var way := Way(s);
    RisingSuffix(Pipeline(s), |s.consumed|);
    assert Pipeline(s)[|s.consumed|..] == NumbersOf(s.sequence, way);
    RisingIsDistinct(s.sequence, way);
    IndicesAre(|s.pool.refs|);
    forall b | b in way
      ensures b in Indices(|s.pool.refs|)
    {
      CarriedIsOwed(s, b);
    }
    DistinctFits(way, Indices(|s.pool.refs|));
  }

  lemma CarriedIsOwed(s: Sys, b: nat)
    requires Conserved(s) && b in Way(s)
    ensures Owed(s, b) > 0 && b < |s.pool.refs|
  {
    assert b in s.chan.queue ==> Listed(s.chan.queue, b) > 0;
  }

  function Indices(n: nat): set<nat> {
    if n == 0 then {} else Indices(n - 1) + {n - 1}
  }

  lemma {:induction false} IndicesAre(n: nat)
    ensures |Indices(n)| == n && forall b: nat :: b in Indices(n) <==> b < n
  {
    if n > 0 {
      IndicesAre(n - 1);
    }
  }

  // ----- the tear-down ends

  function ProducerRank(p: Producer): nat {
    match p
    case PExited => 0
    case PTop => 1
    case POwn(_, _) => 2
    case PUndo(_, _) => 3
    case PRetained(_) => 4
    case PFilled(_) => 5
    case PGo => 6
  }

  function ConsumerRank(z: Consumer): nat {
    match z
    case ZNone => 0
    case ZExited => 1
    case ZGo => 2
    case ZTop => 3
    case ZHolding(_) => 4
  }

  function DetachRank(d: Detach): nat {
    match d
    case Off => 0
    case Draining(bufs) => 1 + |bufs|
    case Letting => 2
    case Joining => 3
  }

  function CameraRank(c: Camera): nat {
    match c
    case JoiningProducer => 12
    case Publishing => 11
    case Detaching => 6
    case Releasing => 5
    case Emptying(bufs) => 2 + |bufs|
    case WaitingIdle => 1
    case _ => 0
  }

  function Measure(s: Sys): nat {
    ProducerRank(s.producer) + ConsumerRank(s.consumer) + 3 * |s.chan.queue| + CameraRank(s.camera)
    + DetachRank(s.detachC) + DetachRank(s.detachM) + 4 * One(s.attached)
  }

  /** Once the channel is closed every step of anybody brings the end closer. */
  lemma TearDownShrinks(s: Sys, a: Action)
    requires Phases(s) && s.chan.closed && Ready(s, a)
    ensures Step(s, a).chan.closed && Measure(Step(s, a)) < Measure(s)
  {
    hide ReleaseBuffer, AcquireBuffer, RetainBuffer;
    match a {
      case ByCamera(c) => hide DetachStep, ProducerStep, ConsumerStep; CameraShrinks(s, c);
      case ByDetach(d) => hide CameraStep, ProducerStep, ConsumerStep; DetachShrinks(s, d);
      case ByProducer(p) => ProducerShrinks(s, p);
      case ByConsumer(z) => ConsumerShrinks(s, z);
    }
  }

  lemma ReleaseShrinks(s: Sys)
    requires s.chan.closed && CameraReady(s, Release)
    ensures CameraStep(s, Release).chan.closed && Measure(CameraStep(s, Release)) < Measure(s)
  {
    hide ProducerRank, ConsumerRank, DetachRank;
  }

  lemma OthersShrink(s: Sys, a: CameraAction)
    requires Phases(s) && s.chan.closed && CameraReady(s, a) && !a.Release?
    ensures CameraStep(s, a).chan.closed && Measure(CameraStep(s, a)) < Measure(s)
  {
    hide ReleaseBuffer, ProducerRank, ConsumerRank;
  }

  lemma CameraShrinks(s: Sys, a: CameraAction)
    requires Phases(s) && s.chan.closed && CameraReady(s, a)
    ensures CameraStep(s, a).chan.closed && Measure(CameraStep(s, a)) < Measure(s)
  {
    hide CameraStep, Measure;
    if a.Release? {
      ReleaseShrinks(s);
    } else {
      OthersShrink(s, a);
    }
  }

  lemma DetachShrinks(s: Sys, a: DetachAction)
    requires s.chan.closed && DetachReady(s, a)
    ensures DetachStep(s, a).chan.closed && Measure(DetachStep(s, a)) < Measure(s)
  {
    hide ReleaseBuffer, DropChannel, SetDetach, DetachOf;
    match a
    case MediaStop =>
    case JoinConsumer(side) => JoinShrinks(s, side);
    case LetGo(side) => LetGoShrinks(s, side);
    case Drain(side) => DrainShrinks(s, side);
  }

  lemma JoinShrinks(s: Sys, side: Side)
    requires DetachReady(s, JoinConsumer(side))
    ensures var s' := DetachStep(s, JoinConsumer(side));
            s'.chan == s.chan && Measure(s') < Measure(s)
  {
  }

  lemma LastLetsGo(s: Sys, side: Side)
    requires DetachReady(s, LetGo(side)) && s.chanRefs == 1
    ensures var s' := DetachStep(s, LetGo(side));
            s'.chan.closed == s.chan.closed && Measure(s') < Measure(s)
  {
    hide ProducerRank, ConsumerRank, CameraRank, One;
  }

  lemma OneLetsGo(s: Sys, side: Side)
    requires DetachReady(s, LetGo(side)) && s.chanRefs > 1
    ensures var s' := DetachStep(s, LetGo(side));
            s'.chan.closed == s.chan.closed && Measure(s') < Measure(s)
  {
    hide ProducerRank, ConsumerRank, CameraRank, One;
  }

  lemma LetGoShrinks(s: Sys, side: Side)
    requires DetachReady(s, LetGo(side))
    ensures var s' := DetachStep(s, LetGo(side));
            s'.chan.closed == s.chan.closed && Measure(s') < Measure(s)
  {
    hide DetachStep, Measure;
    if s.chanRefs == 1 {
      LastLetsGo(s, side);
    } else {
      OneLetsGo(s, side);
    }
  }

  lemma DrainShrinks(s: Sys, side: Side)
    requires DetachReady(s, Drain(side))
    ensures var s' := DetachStep(s, Drain(side));
            s'.chan == s.chan && Measure(s') < Measure(s)
  {
    hide ReleaseBuffer;
  }

  lemma ProducerShrinks(s: Sys, a: ProducerAction)
    requires s.chan.closed && s.stopP && ProducerReady(s, a)
    ensures ProducerStep(s, a).chan.closed && Measure(ProducerStep(s, a)) < Measure(s)
  {
    hide ReleaseBuffer, AcquireBuffer, RetainBuffer;
  }

  lemma ConsumerShrinks(s: Sys, a: ConsumerAction)
    requires s.chan.closed && ConsumerReady(s, a)
    ensures ConsumerStep(s, a).chan.closed && Measure(ConsumerStep(s, a)) < Measure(s)
  {
    hide ReleaseBuffer;
  }

  /** A tear-down makes at most as many steps as its measure says. */
  lemma {:induction false} TearDownEnds(s: Sys, turns: seq<Action>)
    requires Inv(s) && s.chan.closed && Runs(s, turns)
    ensures |turns| <= Measure(s)
    decreases |turns|
  {
    hide Ready, Step, Measure;
    if turns != [] {
      TearDownShrinks(s, turns[0]);
      StepKeepsInv(s, turns[0]);
      hide Inv;
      TearDownEnds(Step(s, turns[0]), turns[1..]);
    }
  }

  /** It never gets stuck before the camera is done, and needs no time-out to get there. */
  lemma TearDownNeverStuck(s: Sys)
    requires Inv(s) && s.chan.closed && !s.camera.Done?
    ensures exists a :: Ready(s, a) && a != ByCamera(TimeOut)
  {
    if !s.producer.PExited? {
      ProducerCanMove(s);
    } else if s.consumer.ZTop? {
      assert Ready(s, ByConsumer(LookZ));
    } else if s.consumer.ZGo? {
      assert Ready(s, ByConsumer(Consume));
    } else if s.consumer.ZHolding? {
      CarriedIsOwed(s, s.consumer.b);
      assert Ready(s, ByConsumer(Finish));
    } else if !s.detachM.Off? {
      DetachCanMove(s, OfMedia);
    } else if !s.detachC.Off? {
      DetachCanMove(s, OfCamera);
    } else {
      CameraCanMove(s);
    }
  }

  lemma ProducerCanMove(s: Sys)
    requires Inv(s) && !s.producer.PExited?
    ensures exists p :: Ready(s, ByProducer(p))
  {
    if !s.producer.PTop? && !s.producer.PGo? {
      assert Owed(s, s.producer.b) > 0;
    }
    match s.producer
    case PTop => assert Ready(s, ByProducer(LookP));
    case PGo => assert Ready(s, ByProducer(Produce));
    case PFilled(_) => assert Ready(s, ByProducer(Retain));
    case PRetained(_) => assert Ready(s, ByProducer(Offer));
    case PUndo(_, _) => assert Ready(s, ByProducer(Undo));
    case POwn(_, _) => assert Ready(s, ByProducer(Own));
  }

  lemma DetachCanMove(s: Sys, side: Side)
    requires Inv(s) && !DetachOf(s, side).Off? && (s.consumer.ZNone? || s.consumer.ZExited?)
    ensures exists d :: Ready(s, ByDetach(d))
  {
    var d := DetachOf(s, side);
    if d.Joining? {
      assert Ready(s, ByDetach(JoinConsumer(side)));
    } else if d.Letting? {
      assert Ready(s, ByDetach(LetGo(side)));
    } else {
      if d.bufs != [] {
        assert Listed(d.bufs, d.bufs[0]) > 0 && Owed(s, d.bufs[0]) > 0;
      }
      assert Ready(s, ByDetach(Drain(side)));
    }
  }

  lemma CameraCanMove(s: Sys)
    requires Inv(s) && s.chan.closed && !s.camera.Done? && s.producer.PExited?
    requires !s.consumer.ZHolding? && !s.consumer.ZTop? && !s.consumer.ZGo?
    requires s.detachM.Off? && s.detachC.Off?
    ensures exists c :: Ready(s, ByCamera(c)) && c != TimeOut
  {
    match s.camera
    case JoiningProducer => assert Ready(s, ByCamera(JoinProducer));
    case Publishing => assert Ready(s, ByCamera(Publish));
    case Detaching => assert Ready(s, ByCamera(Detached));
    case Releasing => assert Ready(s, ByCamera(Release));
    case Emptying(bufs) =>
      if bufs != [] {
        assert Listed(bufs, bufs[0]) > 0 && Owed(s, bufs[0]) > 0;
      }
      assert Ready(s, ByCamera(Empty));
    case WaitingIdle =>
      AllGivenBack(s);
      assert Ready(s, ByCamera(Idle));
    case _ =>
  }

  lemma AllGivenBack(s: Sys)
    requires Inv(s) && s.camera.WaitingIdle? && s.producer.PExited? && !s.consumer.ZHolding? && s.detachM.Off? && s.detachC.Off?
    ensures s.pool.inUse == 0
  {
    assert s.chanRefs == 0;
    forall b | 0 <= b < |s.pool.refs|
      ensures s.pool.refs[b] == 0
    {
      assert s.pool.refs[b] == Owed(s, b);
    }
    IdleIff(s.pool);
  }

  // ----- how a stop can end

  /** The wait for an idle pool can time out only while a stop of the media server is still letting go of the channel. */
  lemma TimeOutNeedsMediaStop(s: Sys)
    requires Inv(s) && CameraReady(s, TimeOut)
    ensures !s.detachM.Off?
  {
    if s.detachM.Off? {
      AllGivenBack(s);
    }
  }

  ghost predicate Without(turns: seq<Action>, a: Action) {
    forall k :: 0 <= k < |turns| ==> turns[k] != a
  }

  lemma WithoutTail(turns: seq<Action>, a: Action)
    requires turns != []
    ensures Without(turns, a) <==> turns[0] != a && Without(turns[1..], a)
  {
    forall k | 0 <= k < |turns|
      ensures turns[k] == if k == 0 then turns[0] else turns[1..][k - 1]
    {
    }
    if turns[0] != a && Without(turns[1..], a) {
      forall k | 0 <= k < |turns|
        ensures turns[k] != a
      {
        assert k > 0 ==> turns[k] == turns[1..][k - 1];
      }
    }
  }

  /** No stop of the media server has taken the channel, and the camera has not given up. */
  predicate Undisturbed(s: Sys) {
    s.detachM.Off? && s.camera != Done(false)
  }

  lemma CameraUndisturbed(s: Sys, a: CameraAction)
    requires Undisturbed(s) && CameraReady(s, a) && a != TimeOut
    ensures Undisturbed(CameraStep(s, a))
  {
    hide ReleaseBuffer;
  }

  lemma StaysUndisturbed(s: Sys, a: Action)
    requires Inv(s) && Undisturbed(s) && Ready(s, a) && a != ByDetach(MediaStop)
    ensures Undisturbed(Step(s, a)) && a != ByCamera(TimeOut)
  {
    hide Inv, CameraStep, DetachStep, ProducerStep, ConsumerStep, CameraReady, DetachReady, ProducerReady, ConsumerReady;
    match a
    case ByProducer(p) => ProducerLeavesOthers(s, p);
    case ByConsumer(z) => ConsumerLeavesOthers(s, z);
    case ByDetach(d) => DetachLeavesOthers(s, d);
    case ByCamera(c) =>
      if c == TimeOut {
        TimeOutNeedsMediaStop(s);
      } else {
        CameraUndisturbed(s, c);
      }
  }

  lemma DetachLeavesOthers(s: Sys, d: DetachAction)
    requires DetachReady(s, d)
    ensures DetachStep(s, d).camera == s.camera
    ensures s.detachM.Off? && d != MediaStop ==> DetachStep(s, d).detachM.Off?
  {
    hide ReleaseBuffer;
  }

  lemma ProducerLeavesOthers(s: Sys, p: ProducerAction)
    requires ProducerReady(s, p)
    ensures ProducerStep(s, p).camera == s.camera && ProducerStep(s, p).detachM == s.detachM
  {
    hide ProducerStep, ProducerReady;
    ProducerTouches(s, p);
  }

  lemma ConsumerLeavesOthers(s: Sys, z: ConsumerAction)
    requires ConsumerReady(s, z)
    ensures ConsumerStep(s, z).camera == s.camera && ConsumerStep(s, z).detachM == s.detachM
  {
  }

  /** A run in which the media server is not stopped by itself never ends in the error state. */
  lemma {:induction false} UndisturbedRun(s: Sys, turns: seq<Action>)
    requires Inv(s) && Undisturbed(s) && Runs(s, turns) && Without(turns, ByDetach(MediaStop))
    ensures Undisturbed(After(s, turns)) && Without(turns, ByCamera(TimeOut))
    decreases |turns|
  {
    hide Inv, Ready, Step, Undisturbed, Without;
    if turns != [] {
      WithoutTail(turns, ByDetach(MediaStop));
      WithoutTail(turns, ByCamera(TimeOut));
      StaysUndisturbed(s, turns[0]);
      StepKeepsInv(s, turns[0]);
      UndisturbedRun(Step(s, turns[0]), turns[1..]);
    } else {
      NothingWithout(ByCamera(TimeOut));
    }
  }

  lemma NothingWithout(a: Action)
    ensures Without([], a)
  {
  }

  lemma CameraEnds(s: Sys, a: CameraAction)
    requires CameraReady(s, a)
    ensures !s.camera.Done? && (CameraStep(s, a).camera == Done(false) <==> a == TimeOut)
  {
    hide ReleaseBuffer;
  }

  lemma EndStep(s: Sys, a: Action)
    requires Ready(s, a)
    ensures s.camera.Done? ==> Step(s, a).camera == s.camera && a != ByCamera(TimeOut)
    ensures a != ByCamera(TimeOut) && s.camera != Done(false) ==> Step(s, a).camera != Done(false)
    ensures a == ByCamera(TimeOut) ==> Step(s, a).camera == Done(false)
  {
    hide CameraStep, DetachStep, ProducerStep, ConsumerStep, CameraReady, DetachReady, ProducerReady, ConsumerReady;
    match a
    case ByProducer(p) => ProducerLeavesOthers(s, p);
    case ByConsumer(z) => ConsumerLeavesOthers(s, z);
    case ByDetach(d) => DetachLeavesOthers(s, d);
    case ByCamera(c) => CameraEnds(s, c);
  }

  /** The camera ends in error exactly when its wait timed out. */
  lemma {:induction false} ErrorIffTimeOut(s: Sys, turns: seq<Action>)
    requires Runs(s, turns)
    ensures After(s, turns).camera == Done(false) <==> s.camera == Done(false) || !Without(turns, ByCamera(TimeOut))
    decreases |turns|
  {
    hide Ready, Step, Without;
    if turns != [] {
      WithoutTail(turns, ByCamera(TimeOut));
      EndStep(s, turns[0]);
      ErrorIffTimeOut(Step(s, turns[0]), turns[1..]);
    } else {
      NothingWithout(ByCamera(TimeOut));
    }
  }

  /** Nobody can take another step. */
  ghost predicate Complete(s: Sys) {
    forall a :: !Ready(s, a)
  }

  lemma CompleteIsDone(s: Sys)
    requires Inv(s) && Complete(s)
    ensures s.camera.Done?
  {
    if !s.camera.Done? {
      if s.chan.closed {
        TearDownNeverStuck(s);
      } else {
        OpenNeverStuck(s);
      }
    }
  }

  lemma OpenNeverStuck(s: Sys)
    requires Inv(s) && !s.chan.closed
    ensures exists a :: Ready(s, a)
  {
    match s.camera
    case Attaching => assert Ready(s, ByCamera(NoAttach(false)));
    case Attached(_) => assert Ready(s, ByCamera(Conclude(false)));
    case Running => assert Ready(s, ByCamera(Stop));
    case Flagging => assert Ready(s, ByCamera(Flag));
    case Closing => assert Ready(s, ByCamera(Close));
    case _ =>
  }

  /** Every complete run of a stream ends its stop or rollback: STOPPED with the producer joined, all buffers back and
      the pool destroyed exactly when the wait for the pool did not time out, which is certain unless the media server
      was stopped by itself meanwhile. */
  lemma CompleteRunEnds(s: Sys, turns: seq<Action>)
    requires Created(s) && Runs(s, turns) && Complete(After(s, turns))
    ensures var s' := After(s, turns);
            && s'.camera.Done? && s'.producer.PExited? && s'.chan.closed
            && (s'.camera == Done(true) <==> Without(turns, ByCamera(TimeOut)))
            && (Without(turns, ByDetach(MediaStop)) ==> s'.camera == Done(true))
            && (s'.camera == Done(true) ==>
                  && !s'.alive && s'.chan.queue == [] && s'.consumer.ZNone? && s'.detachC.Off? && s'.detachM.Off?
                  && forall b :: 0 <= b < |s'.pool.refs| ==> s'.pool.refs[b] == 0)
  {
    hide Runs, After, Inv, Without, Complete, Ready;
    CreatedInv(s);
    CreatedUndisturbed(s);
    RunKeepsInv(s, turns);
    var s' := After(s, turns);
    CompleteIsDone(s');
    DoneIsOver(s');
    ErrorIffTimeOut(s, turns);
    if Without(turns, ByDetach(MediaStop)) {
      UndisturbedRun(s, turns);
    }
    if s'.camera == Done(true) {
      StoppedIsClean(s, turns);
      CompleteIsQuiet(s');
    }
  }

  lemma CreatedUndisturbed(s: Sys)
    requires Created(s)
    ensures Undisturbed(s)
  {
  }

  lemma DoneIsOver(s: Sys)
    requires Inv(s) && s.camera.Done?
    ensures s.producer.PExited? && s.chan.closed
  {
  }

  lemma CompleteIsQuiet(s: Sys)
    requires Inv(s) && Complete(s) && s.camera.Done?
    ensures s.consumer.ZNone? && s.detachC.Off? && s.detachM.Off?
  {
    if s.consumer.ZTop? {
      assert Ready(s, ByConsumer(LookZ));
    } else if s.consumer.ZGo? {
      assert Ready(s, ByConsumer(Consume));
    } else if s.consumer.ZHolding? {
      CarriedIsOwed(s, s.consumer.b);
      assert Ready(s, ByConsumer(Finish));
    } else if !s.detachM.Off? {
      DetachCanMove(s, OfMedia);
    }
  }
}
