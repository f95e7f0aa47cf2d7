/** A stop of the camera that gives up: the media server, stopped by itself at the same time, holds a frame back. */
module StreamLimits {
  import opened SysTypes
  import opened ChannelModel
  import opened StreamSteps
  import opened StreamTheorems

  /** A stream just created, with two buffers. */
  function Fresh(): Sys {
    Sys(Pool([0, 0], 0), true, [0, 0], Channel(2, FailWhenFull, [], false, Stats(0, 0, 0, 0, 0, 0)), 1,
        Attaching, PTop, ZNone, false, Off, Off, false, false, 0, [])
  }

  /** The media server has attached, and the producer holds its first frame. */
  function OneFilled(): Sys {
    Fresh().(pool := Pool([1, 0], 1), chanRefs := 2, camera := Attached(false), producer := PFilled(0), consumer := ZTop,
             attached := true, next := 1)
  }

  /** The frame is in the channel, and the producer is back at the top of its loop. */
  function OneQueued(): Sys {
    OneFilled().(chan := Channel(2, FailWhenFull, [0], false, Stats(0, 0, 0, 1, 0, 1)), producer := PTop)
  }

  /** The media server has begun to detach, and the camera is about to be stopped. */
  function MediaLeaving(): Sys {
    OneQueued().(camera := Flagging, attached := false, stopZ := true, detachM := Joining)
  }

  /** The camera has closed the channel, and its producer has seen the stop flag. */
  function ProducerLeft(): Sys {
    MediaLeaving().(stopP := true, chan := OneQueued().chan.(closed := true), producer := PExited, camera := JoiningProducer)
  }

  /** The camera has let go of the channel, which the media server still holds with the frame in it. */
  function HeldBack(): Sys {
    ProducerLeft().(chanRefs := 1, camera := WaitingIdle)
  }

  /** The actions of `turns` lead from one state to the other. */
  ghost predicate Leads(s: Sys, turns: seq<Action>, s': Sys) {
    Runs(s, turns) && After(s, turns) == s'
  }

  lemma {:induction false} Join(s: Sys, first: seq<Action>, s': Sys, rest: seq<Action>, s'': Sys)
    requires Leads(s, first, s') && Leads(s', rest, s'')
    ensures Leads(s, first + rest, s'')
    decreases first
  {
    if first == [] {
      assert first + rest == rest;
    } else {
      hide Ready, Step;
      assert (first + rest)[0] == first[0] && (first + rest)[1..] == first[1..] + rest;
      Join(Step(s, first[0]), first[1..], s', rest, s'');
    }
  }

  lemma AfterOne(s: Sys, a: Action)
    requires Ready(s, a)
    ensures Leads(s, [a], Step(s, a))
  {
    hide Ready, Step;
    assert [a][1..] == [];
    assert Runs(Step(s, a), []) && After(Step(s, a), []) == Step(s, a);
  }

  lemma AfterTwo(s: Sys, a: Action, b: Action)
    requires Ready(s, a) && Ready(Step(s, a), b)
    ensures Leads(s, [a, b], Step(Step(s, a), b))
  {
    hide Ready, Step;
    AfterOne(s, a);
    AfterOne(Step(s, a), b);
    assert [a, b] == [a] + [b];
    Join(s, [a], Step(s, a), [b], Step(Step(s, a), b));
  }

  lemma AfterThree(s: Sys, a: Action, b: Action, c: Action)
    requires Ready(s, a) && Ready(Step(s, a), b) && Ready(Step(Step(s, a), b), c)
    ensures Leads(s, [a, b, c], Step(Step(Step(s, a), b), c))
  {
    hide Ready, Step;
    AfterOne(s, a);
    AfterTwo(Step(s, a), b, c);
    assert [a, b, c] == [a] + [b, c];
    Join(s, [a], Step(s, a), [b, c], Step(Step(Step(s, a), b), c));
  }

  lemma FillsOne()
    ensures Leads(Fresh(), [ByCamera(Attach(true)), ByProducer(LookP), ByProducer(Produce)], OneFilled())
  {
    hide Runs, After;
    var s2 := Step(Step(Fresh(), ByCamera(Attach(true))), ByProducer(LookP));
    FirstFreeIsFree(s2.pool.refs, 0);
    assert Step(s2, ByProducer(Produce)) == OneFilled();
    AfterThree(Fresh(), ByCamera(Attach(true)), ByProducer(LookP), ByProducer(Produce));
  }

  lemma QueuesOne()
    ensures Leads(OneFilled(), [ByProducer(Retain), ByProducer(Offer), ByProducer(Own)], OneQueued())
  {
    hide Runs, After;
    var s1 := Step(OneFilled(), ByProducer(Retain));
    assert s1 == OneFilled().(pool := Pool([2, 0], 1), producer := PRetained(0));
    assert [] + [0] == [0];
    assert Step(Step(s1, ByProducer(Offer)), ByProducer(Own)) == OneQueued();
    AfterThree(OneFilled(), ByProducer(Retain), ByProducer(Offer), ByProducer(Own));
  }

  lemma MediaLeaves()
    ensures Leads(OneQueued(), [ByCamera(Conclude(false)), ByDetach(MediaStop), ByCamera(Stop)], MediaLeaving())
  {
    hide Runs, After;
    AfterThree(OneQueued(), ByCamera(Conclude(false)), ByDetach(MediaStop), ByCamera(Stop));
  }

  lemma ProducerLeaves()
    ensures Leads(MediaLeaving(), [ByCamera(Flag), ByCamera(Close), ByProducer(LookP)], ProducerLeft())
  {
    hide Runs, After;
    AfterThree(MediaLeaving(), ByCamera(Flag), ByCamera(Close), ByProducer(LookP));
  }

  lemma CameraLetsGo()
    ensures Leads(ProducerLeft(), [ByCamera(JoinProducer), ByCamera(Publish), ByCamera(Release)], HeldBack())
  {
    hide Runs, After;
    AfterThree(ProducerLeft(), ByCamera(JoinProducer), ByCamera(Publish), ByCamera(Release));
  }

  /** The stop waits for an idle pool and gives up, since the frame in the channel is still referenced. */
  lemma GivesUp()
    ensures Ready(HeldBack(), ByCamera(TimeOut))
    ensures Leads(HeldBack(), [ByCamera(TimeOut)], Step(HeldBack(), ByCamera(TimeOut)))
    ensures Step(HeldBack(), ByCamera(TimeOut)).camera == Done(false)
  {
    hide Runs, After;
    AfterOne(HeldBack(), ByCamera(TimeOut));
  }

  lemma WholeRun() returns (turns: seq<Action>)
    ensures Leads(Fresh(), turns, Step(HeldBack(), ByCamera(TimeOut)))
  {
    hide *;
    GivesUp();
    var filled := [ByCamera(Attach(true)), ByProducer(LookP), ByProducer(Produce)];
    var queued := [ByProducer(Retain), ByProducer(Offer), ByProducer(Own)];
    var leaving := [ByCamera(Conclude(false)), ByDetach(MediaStop), ByCamera(Stop)];
    var left := [ByCamera(Flag), ByCamera(Close), ByProducer(LookP)];
    var held := [ByCamera(JoinProducer), ByCamera(Publish), ByCamera(Release)];
    var s := Step(HeldBack(), ByCamera(TimeOut));
    FillsOne();
    QueuesOne();
    MediaLeaves();
    ProducerLeaves();
    CameraLetsGo();
    Join(ProducerLeft(), held, HeldBack(), [ByCamera(TimeOut)], s);
    turns := held + [ByCamera(TimeOut)];
    Join(MediaLeaving(), left, ProducerLeft(), turns, s);
    turns := left + turns;
    Join(OneQueued(), leaving, MediaLeaving(), turns, s);
    turns := leaving + turns;
    Join(OneFilled(), queued, OneQueued(), turns, s);
    turns := queued + turns;
    Join(Fresh(), filled, OneFilled(), turns, s);
    turns := filled + turns;
  }

  /** A run in which the camera's stop ends in the error state, although its producer was joined. */
  lemma StopCanFail() returns (turns: seq<Action>)
    ensures Created(Fresh()) && Runs(Fresh(), turns) && After(Fresh(), turns).camera == Done(false)
  {
    hide Runs, After, Step, HeldBack;
    turns := WholeRun();
    GivesUp();
  }
}
