/** Why the threads of a stream end, and what its start and its send answer. */
module StreamAnswers {
  import opened SysTypes
  import opened ChannelModel
  import opened StreamSteps
  import opened StreamTheorems

  // ----- who touches what

  /** What a step of the camera may change of the rest. */
  ghost predicate CameraTouches(s: Sys, a: CameraAction, s': Sys) {
    && s'.producer == s.producer
    && (if a == Attach(true) then s'.consumer == ZTop && s'.attached && !s'.stopZ
        else s'.consumer == s.consumer && (s'.attached ==> s.attached && s'.stopZ == s.stopZ))
    && (s.stopZ && a != Attach(true) ==> s'.stopZ)
    && (s.chan.closed ==> s'.chan.closed) && (s'.chan.queue == s.chan.queue || s'.chan.queue == [])
  }

  lemma ReleaseTouches(s: Sys)
    requires CameraReady(s, Release)
    ensures CameraTouches(s, Release, CameraStep(s, Release))
  {
    hide GiveBack;
  }

  lemma EmptyTouches(s: Sys)
    requires CameraReady(s, Empty)
    ensures CameraTouches(s, Empty, CameraStep(s, Empty))
  {
    hide DropChannel, ReleaseBuffer;
  }

  lemma CameraFrame(s: Sys, a: CameraAction)
    requires CameraReady(s, a)
    ensures CameraTouches(s, a, CameraStep(s, a))
  {
    hide GiveBack, DropChannel;
    if a.Release? {
      ReleaseTouches(s);
    } else if a.Empty? {
      EmptyTouches(s);
    }
  }

  /** What a step of a detaching side may change of the rest. */
  ghost predicate DetachTouches(s: Sys, s': Sys) {
    && s'.producer == s.producer && s'.camera == s.camera && (s'.consumer == s.consumer || s'.consumer == ZNone)
    && (s.stopZ ==> s'.stopZ) && (s'.attached ==> s.attached && s'.stopZ == s.stopZ)
    && s'.chan.closed == s.chan.closed && (s'.chan.queue == s.chan.queue || s'.chan.queue == [])
  }

  lemma LetGoTouches(s: Sys, side: Side)
    requires DetachReady(s, LetGo(side))
    ensures DetachTouches(s, DetachStep(s, LetGo(side)))
  {
    hide GiveBack;
  }

  lemma DrainTouches(s: Sys, side: Side)
    requires DetachReady(s, Drain(side))
    ensures DetachTouches(s, DetachStep(s, Drain(side)))
  {
    hide DropChannel, ReleaseBuffer;
  }

  lemma DetachFrame(s: Sys, a: DetachAction)
    requires DetachReady(s, a)
    ensures DetachTouches(s, DetachStep(s, a))
  {
    hide GiveBack, DropChannel;
    match a
    case LetGo(side) => LetGoTouches(s, side);
    case Drain(side) => DrainTouches(s, side);
    case _ =>
  }

  /** What a step of the producer leaves alone, and a step of the consumer. */
  ghost predicate SameEnds(s: Sys, s': Sys) {
    s'.camera == s.camera && s'.attached == s.attached && s'.stopZ == s.stopZ && s'.chan.closed == s.chan.closed
  }

  lemma ProducerFrame(s: Sys, a: ProducerAction)
    requires ProducerReady(s, a)
    ensures var s' := ProducerStep(s, a);
            SameEnds(s, s') && s'.consumer == s.consumer && (a.Offer? || s'.chan.queue == s.chan.queue)
  {
    hide ReleaseBuffer, AcquireBuffer, RetainBuffer, ProduceStep, RetainStep, OfferStep, ChannelModel.Offer;
    ProducerTouches(s, a);
    if a.Produce? {
      ProduceShape(s);
    } else if a.Retain? {
      RetainShape(s);
    }
  }

  lemma ProduceShape(s: Sys)
    ensures ProduceStep(s).chan == s.chan
  {
  }

  lemma RetainShape(s: Sys)
    requires ProducerReady(s, Retain)
    ensures RetainStep(s).chan == s.chan
  {
  }

  lemma ConsumerFrame(s: Sys, a: ConsumerAction)
    requires ConsumerReady(s, a)
    ensures SameEnds(s, ConsumerStep(s, a)) && ConsumerStep(s, a).producer == s.producer
  {
    hide ReleaseBuffer, ConsumeStep;
    ConsumeShape(s);
  }

  lemma ConsumeShape(s: Sys)
    ensures SameEnds(s, ConsumeStep(s)) && ConsumeStep(s).producer == s.producer
  {
  }

  // ----- the start

  lemma CameraConcludes(s: Sys, a: CameraAction)
    requires CameraReady(s, a)
    ensures var s' := CameraStep(s, a);
            && (s'.camera.Running? && !s.camera.Running? <==> a == Conclude(false) && s.camera == Attached(false))
            && (s'.camera == Attached(false) && !s.camera.Attached? <==> a == Attach(true) || a == NoAttach(false))
            && (s.camera.Attached? && !s'.camera.Attached? ==> s'.camera.Running? || s'.camera.Flagging?)
  {
    hide GiveBack, DropChannel;
  }

  /** A start ends in a running camera exactly if the media server did not fail to attach and nothing else failed. */
  lemma CameraRunsIff(s: Sys, a: Action)
    requires Inv(s) && Ready(s, a)
    ensures var s' := Step(s, a);
            && (s'.camera.Running? && !s.camera.Running? <==> a == ByCamera(Conclude(false)) && s.camera == Attached(false))
            && (s'.camera == Attached(false) && !s.camera.Attached? <==>
                  a == ByCamera(Attach(true)) || a == ByCamera(NoAttach(false)))
            && (s.camera.Attached? && !s'.camera.Attached? ==> s'.camera.Running? || s'.camera.Flagging?)
  {
    hide Inv, CameraStep, DetachStep, ProducerStep, ConsumerStep;
    match a
    case ByCamera(c) => CameraConcludes(s, c);
    case ByDetach(d) => DetachFrame(s, d);
    case ByProducer(p) => ProducerFrame(s, p);
    case ByConsumer(z) => ConsumerFrame(s, z);
  }

  // ----- the producer

  /** A send on the open channel is accepted and queues the buffer last; on the closed one it answers CLOSED, which the
      producer remembers while it gives its references back. */
  lemma SendIsAnswered(s: Sys)
    requires Inv(s) && Ready(s, ByProducer(Offer))
    ensures var (s', b) := (Step(s, ByProducer(Offer)), s.producer.b);
            && (!s.chan.closed ==> s'.producer == POwn(b, false) && s'.chan.queue == s.chan.queue + [b])
            && (s.chan.closed ==> s'.producer == PUndo(b, true) && s'.chan == s.chan)
  {
    SendNeverFull(s);
    hide Inv;
  }

  lemma ProducerEnds(s: Sys, a: ProducerAction)
    requires ProducerReady(s, a)
    ensures ProducerStep(s, a).producer.PExited? <==>
              (a.LookP? && s.stopP) || a.Abort? || (a.Own? && s.producer.closed)
    ensures !s.producer.PExited?
  {
    hide ReleaseBuffer, AcquireBuffer, RetainBuffer;
  }

  /** The producer ends exactly when it sees the stop request, fails to write a frame, or was answered CLOSED. */
  lemma ProducerEndsIff(s: Sys, a: Action)
    requires Inv(s) && Ready(s, a)
    ensures var s' := Step(s, a);
            s'.producer.PExited? && !s.producer.PExited? <==>
              || (a == ByProducer(LookP) && s.stopP)
              || a == ByProducer(Abort)
              || (a == ByProducer(Own) && s.producer.closed)
  {
    hide Inv, CameraStep, DetachStep, ProducerStep, ConsumerStep;
    match a
    case ByCamera(c) => CameraFrame(s, c);
    case ByDetach(d) => DetachFrame(s, d);
    case ByProducer(p) => ProducerEnds(s, p);
    case ByConsumer(z) => ConsumerFrame(s, z);
  }

  ghost predicate ClosedRemembered(s: Sys) {
    (s.producer.PUndo? || s.producer.POwn?) && s.producer.closed ==> s.chan.closed
  }

  lemma StepRemembers(s: Sys, a: Action)
    requires Inv(s) && Ready(s, a) && ClosedRemembered(s)
    ensures ClosedRemembered(Step(s, a))
  {
    hide Inv, ReleaseBuffer, AcquireBuffer, RetainBuffer, CameraStep, DetachStep, ConsumerStep;
    match a
    case ByCamera(c) => CameraFrame(s, c);
    case ByDetach(d) => DetachFrame(s, d);
    case ByProducer(p) =>
      ProducerFrame(s, p);
      if p.Offer? {
        SendIsAnswered(s);
      }
    case ByConsumer(z) => ConsumerFrame(s, z);
  }

  // ----- the consumer

  /** The consumer takes the oldest buffer if there is one, goes on waiting on an empty open channel, and ends exactly when
      it sees its stop request or finds the channel closed and empty. */
  lemma ConsumerEndsIff(s: Sys, a: Action)
    requires Inv(s) && Ready(s, a)
    ensures var s' := Step(s, a);
            && (s'.consumer.ZExited? && !s.consumer.ZExited? <==>
                  (a == ByConsumer(LookZ) && s.stopZ) || (a == ByConsumer(Consume) && s.chan.closed && s.chan.queue == []))
            && (a == ByConsumer(Consume) && s.chan.queue != [] ==>
                  s'.consumer == ZHolding(s.chan.queue[0]) && s'.chan.queue == s.chan.queue[1..])
            && (a == ByConsumer(Consume) && s.chan.queue == [] && !s.chan.closed ==> s'.consumer == ZTop)
  {
    hide Inv, ReleaseBuffer, CameraStep, DetachStep, ProducerStep;
    match a
    case ByCamera(c) => CameraFrame(s, c);
    case ByDetach(d) => DetachFrame(s, d);
    case ByProducer(p) => ProducerFrame(s, p);
    case ByConsumer(z) => ConsumerFrame(s, z);
  }

  /** A consumer that has ended was told to stop, or the channel is closed and it has taken everything; while the media
      server is attached it is not told to stop. */
  ghost predicate EndedForCause(s: Sys) {
    && (s.consumer.ZExited? ==> s.stopZ || (s.chan.closed && s.chan.queue == []))
    && (s.attached ==> !s.stopZ)
  }

  lemma StepKeepsCause(s: Sys, a: Action)
    requires Inv(s) && Ready(s, a) && EndedForCause(s)
    ensures EndedForCause(Step(s, a))
  {
    hide Conserved, PoolOk, Ordered, ReleaseBuffer, CameraStep, DetachStep, ProducerStep;
    match a
    case ByCamera(c) => CameraFrame(s, c);
    case ByDetach(d) => DetachFrame(s, d);
    case ByProducer(p) =>
      ProducerFrame(s, p);
      if p.Offer? {
        SendIsAnswered(s);
      }
    case ByConsumer(z) => ConsumerFrame(s, z);
  }

  lemma {:induction false} RunKeepsCause(s: Sys, turns: seq<Action>)
    requires Inv(s) && Runs(s, turns) && EndedForCause(s) && ClosedRemembered(s)
    ensures EndedForCause(After(s, turns)) && ClosedRemembered(After(s, turns))
    decreases |turns|
  {
    hide Inv, Ready, Step;
    if turns != [] {
      StepKeepsCause(s, turns[0]);
      StepRemembers(s, turns[0]);
      StepKeepsInv(s, turns[0]);
      RunKeepsCause(Step(s, turns[0]), turns[1..]);
    }
  }

  /** After any run, a consumer that ended without a stop request, as it must while the media server is attached, has
      counted every frame that was sent; and a producer that remembers CLOSED was answered by a closed channel. */
  lemma NothingUnconsumed(s: Sys, turns: seq<Action>)
    requires Created(s) && Runs(s, turns)
    ensures var s' := After(s, turns);
            && (s'.consumer.ZExited? && !s'.stopZ ==>
                  && s'.chan.closed && s'.chan.queue == []
                  && Pipeline(s') == s'.consumed + NumbersOf(s'.sequence, OnTheWay(s'.producer)))
            && (s'.attached ==> !s'.stopZ)
            && ((s'.producer.PUndo? || s'.producer.POwn?) && s'.producer.closed ==> s'.chan.closed)
  {
    CreatedInv(s);
    RunKeepsCause(s, turns);
    hide Runs, After;
    var s' := After(s, turns);
    if s'.consumer.ZExited? && !s'.stopZ {
      assert InHand(s'.consumer) + s'.chan.queue + OnTheWay(s'.producer) == OnTheWay(s'.producer);
    }
  }
}
