/** What the channel and the pool promise in every reachable state and over every run. */
module ChannelTheorems {
  import opened SysTypes
  import opened Sums
  import opened ChannelModel
  import opened ChannelSteps
  import opened ChannelProofs

  // ----- runs

  datatype Turn = Turn(t: nat, a: Action)

  ghost predicate Runs(s: Sys, turns: seq<Turn>)
    decreases |turns|
  {
    turns != [] ==> Enabled(s, turns[0].t, turns[0].a) && Runs(Step(s, turns[0].t, turns[0].a), turns[1..])
  }

  ghost function After(s: Sys, turns: seq<Turn>): Sys
    requires Runs(s, turns)
    decreases |turns|
  {
    if turns == [] then s else After(Step(s, turns[0].t, turns[0].a), turns[1..])
  }

  /** A fresh pool, fresh channels of any capacities and policies, idle threads. */
  ghost predicate Initial(s: Sys) {
    && s.pool.inUse == 0 && |s.held| == |s.pool.refs|
    && (forall b :: 0 <= b < |s.held| ==> s.pool.refs[b] == 0 && s.held[b] == 0)
    && (forall c :: 0 <= c < |s.lanes| ==>
          var lane := s.lanes[c];
          && lane.chan.capacity > 0 && lane.chan.queue == [] && !lane.chan.closed && !lane.freed
          && lane.chan.stats == Stats(0, 0, 0, 0, 0, 0) && lane.sent == lane.removed == [])
    && (forall i :: 0 <= i < |s.threads| ==> s.threads[i].Idle?)
  }

  lemma InitialInv(s: Sys)
    requires Initial(s)
    ensures Inv(s)
  {
    SumZero(s.pool.refs, Used());
    forall b | 0 <= b < |s.pool.refs|
      ensures s.pool.refs[b] == Owed(s, b)
    {
      SumZero(s.lanes, Queued(b));
      SumZero(s.threads, Carried(b));
    }
  }

  lemma {:induction false} RunKeepsInv(s: Sys, turns: seq<Turn>)
    requires Inv(s) && Runs(s, turns)
    ensures Inv(After(s, turns))
    decreases |turns|
  {
    hide Inv, Enabled, Step;
    if turns != [] {
      StepKeepsInv(s, turns[0].t, turns[0].a);
      RunKeepsInv(Step(s, turns[0].t, turns[0].a), turns[1..]);
    }
  }

  lemma Reachable(s: Sys, turns: seq<Turn>)
    requires Initial(s) && Runs(s, turns)
    ensures Inv(After(s, turns))
  {
    InitialInv(s);
    RunKeepsInv(s, turns);
  }

  // ----- reference conservation

  /** After any run, destroy succeeds exactly when no user holds a buffer, no queue holds one and no send is under way
      with one. */
  lemma DestroyOnlyIdle(s: Sys, turns: seq<Turn>)
    requires Initial(s) && Runs(s, turns)
    ensures var s' := After(s, turns);
            && (s'.pool.inUse == 0 <==> forall b :: 0 <= b < |s'.held| ==> Owed(s', b) == 0)
            && (s'.pool.inUse == 0 ==>
                  && (forall b :: 0 <= b < |s'.held| ==> s'.held[b] == 0)
                  && (forall c :: 0 <= c < |s'.lanes| ==> s'.lanes[c].chan.queue == [])
                  && (forall i :: 0 <= i < |s'.threads| ==> !s'.threads[i].Sending? && !s'.threads[i].Releasing?))
  {
    hide Runs, After, Initial;
    Reachable(s, turns);
    IdleMeansFree(After(s, turns));
  }

  lemma IdleMeansFree(s: Sys)
    requires Inv(s)
    ensures s.pool.inUse == 0 <==> forall b :: 0 <= b < |s.held| ==> Owed(s, b) == 0
    ensures s.pool.inUse == 0 ==>
            && (forall b :: 0 <= b < |s.held| ==> s.held[b] == 0)
            && (forall c :: 0 <= c < |s.lanes| ==> s.lanes[c].chan.queue == [])
            && (forall i :: 0 <= i < |s.threads| ==> !s.threads[i].Sending? && !s.threads[i].Releasing?)
  {
    IdleIff(s.pool);
    if s.pool.inUse == 0 {
      forall b | 0 <= b < |s.held|
        ensures s.held[b] == 0 && Owed(s, b) == 0
      {
        assert s.pool.refs[b] == 0 == Owed(s, b);
      }
      forall c | 0 <= c < |s.lanes|
        ensures s.lanes[c].chan.queue == []
      {
        if s.lanes[c].chan.queue != [] {
          QueuedIsOwed(s, c);
        }
      }
      forall i | 0 <= i < |s.threads|
        ensures !s.threads[i].Sending? && !s.threads[i].Releasing?
      {
        if s.threads[i].Sending? || s.threads[i].Releasing? {
          CarriedIsOwed(s, i);
        }
      }
    }
  }

  lemma QueuedIsOwed(s: Sys, c: nat)
    requires Inv(s) && c < |s.lanes| && s.lanes[c].chan.queue != []
    ensures var b := s.lanes[c].chan.queue[0];
            b < |s.held| && Owed(s, b) > 0
  {
    var b := s.lanes[c].chan.queue[0];
    assert LaneOk(s.lanes[c], |s.held|);
    assert b in s.lanes[c].sent;
    SumBounds(s.lanes, c, Queued(b));
    assert multiset(s.lanes[c].chan.queue)[b] > 0;
  }

  lemma CarriedIsOwed(s: Sys, i: nat)
    requires Inv(s) && i < |s.threads| && (s.threads[i].Sending? || s.threads[i].Releasing?)
    ensures exists b :: 0 <= b < |s.held| && Owed(s, b) > 0
  {
    var th := s.threads[i];
    assert ThreadOk(th, s.lanes, |s.held|);
    var b := if th.Sending? then th.b else th.bufs[0];
    assert th.Releasing? ==> b in th.bufs;
    SumBounds(s.threads, i, Carried(b));
    assert Carries(th, b) > 0 && Owed(s, b) > 0;
  }

  /** An acquire answers BUSY exactly when every buffer is owed to somebody; otherwise the caller gets the first one that
      is not. */
  lemma AcquireAnswers(s: Sys, t: nat)
    requires Inv(s) && Enabled(s, t, Acquire)
    ensures var s' := Step(s, t, Acquire);
            && s'.threads[t] in {Idle(Ok), Idle(ErrBusy)} && s'.lanes == s.lanes
            && (s'.threads[t] == Idle(ErrBusy) <==> forall b :: 0 <= b < |s.held| ==> Owed(s, b) > 0)
            && (s'.threads[t] == Idle(ErrBusy) ==> s'.held == s.held)
            && (s'.threads[t] == Idle(Ok) ==>
                  exists b :: 0 <= b < |s.held| && Owed(s, b) == 0 && s'.held == s.held[b := 1]
                              && forall x :: 0 <= x < b ==> Owed(s, x) > 0)
  {
    hide Owed, PoolOk, Wakeful, LaneOk, ThreadOk;
    FirstFreeIsFree(s.pool.refs, 0);
    var b := FirstFree(s.pool.refs, 0);
    if b < |s.held| {
      assert s.pool.refs[b] == Owed(s, b);
      NothingHeld(s, b);
    }
  }

  lemma NothingHeld(s: Sys, b: nat)
    requires b < |s.held| && Owed(s, b) == 0
    ensures s.held[b] == 0
  {
  }

  /** A retain, the caller's own or the one a send starts with, is refused exactly for a buffer nobody is owed and for a
      count at its limit. */
  lemma RetainAnswers(s: Sys, t: nat, a: Action)
    requires Inv(s) && Enabled(s, t, a) && (a.UserRetain? || a.SendCall?)
    ensures a.b < |s.held|
    ensures var (s', owed) := (Step(s, t, a), Owed(s, a.b));
            && s'.lanes == s.lanes
            && (s'.threads[t] == Idle(ErrState) <==> owed == 0)
            && (s'.threads[t] == Idle(ErrOverflow) <==> owed == SIZE_LIMIT)
            && (owed != 0 && owed != SIZE_LIMIT ==>
                  if a.SendCall? then s'.threads[t] == Sending(a.c, a.b, a.patience) && s'.held == s.held
                  else s'.threads[t] == Idle(Ok) && s'.held == s.held[a.b := s.held[a.b] + 1])
            && (owed == 0 || owed == SIZE_LIMIT ==> s'.held == s.held && s'.pool == s.pool)
  {
    hide Owed, PoolOk, Wakeful, LaneOk, ThreadOk;
    assert s.pool.refs[a.b] == Owed(s, a.b);
  }

  /** No release ever finds its count at zero: the guard of sys_buffer_release never takes effect. */
  lemma ReleaseNeverSaturates(s: Sys, t: nat, a: Action)
    requires Inv(s) && Enabled(s, t, a)
    ensures a.UserRelease? ==> s.pool.refs[a.b] > 0
    ensures a.ReleaseNext? ==> s.pool.refs[s.threads[t].bufs[0]] > 0
  {
    if a.UserRelease? {
      CarriedIsCounted(s, t, a.b);
    } else if a.ReleaseNext? {
      Head(s.threads[t].bufs, s.threads[t].bufs[0]);
      CarriedIsCounted(s, t, s.threads[t].bufs[0]);
    }
  }

  // ----- first in, first out

  /** The two logs only grow, and on a closed channel nothing more is sent. */
  ghost predicate Grows(lane: Lane, lane': Lane) {
    && lane.sent <= lane'.sent && lane.removed <= lane'.removed
    && (lane.chan.closed ==> lane'.chan.closed && lane'.sent == lane.sent)
  }

  lemma SendGrows(s: Sys, lane: Lane, dropped: Option<nat>, c: nat, b: nat, patience: Patience, d: nat)
    requires c < |s.lanes| && d < |s.lanes| && Grows(s.lanes[c], lane)
    ensures |SendEffect(s, lane, dropped, c, b, patience).lanes| == |s.lanes|
    ensures Grows(s.lanes[d], SendEffect(s, lane, dropped, c, b, patience).lanes[d])
  {
  }

  lemma ReceiveGrows(s: Sys, c: nat, patience: Patience, d: nat)
    requires c < |s.lanes| && d < |s.lanes|
    ensures |ReceiveEffect(s, c, patience).lanes| == |s.lanes|
    ensures Grows(s.lanes[d], ReceiveEffect(s, c, patience).lanes[d])
  {
  }

  lemma LogsGrow(s: Sys, t: nat, a: Action, c: nat)
    requires Shape(s) && Enabled(s, t, a) && c < |s.lanes|
    ensures |Step(s, t, a).lanes| == |s.lanes| && Grows(s.lanes[c], Step(s, t, a).lanes[c])
  {
    hide Offer, Poll, Admit, SendEffect, ReceiveEffect, SignalOk, LaneOk;
    var th := s.threads[t];
    assert ThreadOk(th, s.lanes, |s.held|);
    if a.SendEnter? {
      AdmitKeepsLane(s.lanes[th.c], |s.held|);
      var (lane, dropped) := AdmitLane(s.lanes[th.c]);
      SendGrows(s, lane, dropped, th.c, th.b, th.patience, c);
    } else if a.ReceiveCall? {
      ReceiveGrows(s, a.c, a.patience, c);
    } else if a.Resume? {
      if th.job.Send? {
        SendGrows(s, s.lanes[th.c], None, th.c, th.job.b, th.patience, c);
      } else {
        ReceiveGrows(s, th.c, th.patience, c);
      }
    }
  }

  lemma InvIsShape(s: Sys)
    requires Inv(s)
    ensures Shape(s)
  {
  }

  /** A close closes that channel, moves no buffer, and leaves nobody on it waiting unsignalled. */
  lemma CloseCloses(s: Sys, t: nat, c: nat)
    requires Inv(s) && Enabled(s, t, Close(c))
    ensures var s' := Step(s, t, Close(c));
            && |s'.lanes| == |s.lanes| && s'.pool == s.pool && s'.held == s.held && |s'.threads| == |s.threads|
            && s'.lanes[c].chan.closed && s'.lanes[c].chan.queue == s.lanes[c].chan.queue
            && (forall d :: 0 <= d < |s.lanes| && d != c ==> s'.lanes[d] == s.lanes[d])
            && (forall i :: 0 <= i < |s.threads| && i != t ==>
                  if s.threads[i].Blocked? && s.threads[i].c == c then s'.threads[i] == s.threads[i].(signalled := true)
                  else s'.threads[i] == s.threads[i])
  {
    hide Conserved, PoolOk, Wakeful, Shape;
  }

  /** The last release of a channel goes on to give back exactly what was queued, oldest first. */
  lemma FreeGivesBack(s: Sys, t: nat, c: nat)
    requires Inv(s) && Enabled(s, t, Free(c))
    ensures var s' := Step(s, t, Free(c));
            && |s'.lanes| == |s.lanes| && s'.lanes[c].freed && s'.lanes[c].removed == s'.lanes[c].sent == s.lanes[c].sent
            && (if s.lanes[c].chan.queue == [] then s'.threads[t] == Idle(Ok)
                else s'.threads[t] == Releasing(s.lanes[c].chan.queue, Ok))
  {
    hide Conserved, PoolOk, Wakeful;
    assert LaneOk(s.lanes[c], |s.held|);
  }

  /** After close no send succeeds, over the whole rest of the run. */
  lemma {:induction false} ClosedForGood(s: Sys, turns: seq<Turn>, c: nat)
    requires Inv(s) && Runs(s, turns) && c < |s.lanes| && s.lanes[c].chan.closed
    ensures var s' := After(s, turns);
            c < |s'.lanes| && s'.lanes[c].chan.closed && s'.lanes[c].sent == s.lanes[c].sent
    decreases |turns|
  {
    hide Inv, Enabled, Step;
    if turns != [] {
      StepKeepsInv(s, turns[0].t, turns[0].a);
      InvIsShape(s);
      LogsGrow(s, turns[0].t, turns[0].a, c);
      ClosedForGood(Step(s, turns[0].t, turns[0].a), turns[1..], c);
    }
  }

  /** A receive that returns CLOSED found the channel closed and everything sent already removed. */
  lemma ClosedMeansDrained(s: Sys, t: nat, a: Action)
    requires Inv(s) && Enabled(s, t, a)
    requires a.ReceiveCall? || (a.Resume? && s.threads[t].job.Receive?)
    ensures var c := if a.ReceiveCall? then a.c else s.threads[t].c;
            Step(s, t, a).threads[t] == Idle(ErrClosed) <==>
              s.lanes[c].chan.closed && s.lanes[c].removed == s.lanes[c].sent
  {
    var c := if a.ReceiveCall? then a.c else s.threads[t].c;
    assert ThreadOk(s.threads[t], s.lanes, |s.held|) && LaneOk(s.lanes[c], |s.held|);
    assert |s.lanes[c].sent| == |s.lanes[c].removed| + |s.lanes[c].chan.queue|;
    if s.lanes[c].chan.queue == [] {
      assert s.lanes[c].removed + [] == s.lanes[c].removed;
    }
  }

  /** A drop-oldest send never waits and never reports a full queue; it fails only on a closed channel. */
  lemma DropOldestNeverFull(s: Sys, t: nat, wake: Option<nat>)
    requires Inv(s) && Enabled(s, t, SendEnter(wake))
    requires s.lanes[s.threads[t].c].chan.policy.DropOldest?
    ensures var (c, b) := (s.threads[t].c, s.threads[t].b);
            var s' := Step(s, t, SendEnter(wake));
            && !s'.threads[t].Blocked?
            && (!s.lanes[c].chan.closed ==>
                  && s'.threads[t].result == Ok && s'.lanes[c].sent == s.lanes[c].sent + [b]
                  && s'.lanes[c].removed ==
                       s.lanes[c].removed + if |s.lanes[c].chan.queue| == s.lanes[c].chan.capacity
                                            then [s.lanes[c].chan.queue[0]] else [])
            && (s.lanes[c].chan.closed ==> s'.threads[t] == Releasing([b], ErrClosed))
  {
    var c := s.threads[t].c;
    assert ThreadOk(s.threads[t], s.lanes, |s.held|) && LaneOk(s.lanes[c], |s.held|);
    DropNeverWaits(s.lanes[c].chan, s.threads[t].b);
  }

  // ----- the answers of the calls

  /** The thread is inside a send, and on which channel with which buffer and patience. */
  predicate InSend(th: Thread) {
    th.Sending? || (th.Blocked? && th.job.Send?)
  }

  function SendBuffer(th: Thread): nat
    requires InSend(th)
  {
    if th.Sending? then th.b else th.job.b
  }

  /** A send that leaves its wait loop answers OK exactly when its buffer was queued, CLOSED exactly when the channel
      is closed, and QUEUE_FULL exactly when it would have had to wait and was told not to; and it waits on only
      when the queue is full, the channel open and waiting allowed. */
  lemma SendAnswers(s: Sys, t: nat, a: Action)
    requires Inv(s) && Enabled(s, t, a) && (a.SendEnter? || a.Resume?) && InSend(s.threads[t])
    ensures var (th, th') := (s.threads[t], Step(s, t, a).threads[t]);
            var (lane, lane') := (s.lanes[th.c], Step(s, t, a).lanes[th.c]);
            var mustWait := |lane.chan.queue| == lane.chan.capacity && !lane.chan.closed && !lane.chan.policy.DropOldest?;
            && (th'.Blocked? <==> mustWait && !th.patience.Never?)
            && (th'.Blocked? ==> th' == Blocked(Send(SendBuffer(th)), th.c, th.patience, false))
            && (!th'.Blocked? ==>
                  && th'.result in {Ok, ErrClosed, ErrQueueFull}
                  && (th'.result == ErrClosed <==> lane.chan.closed)
                  && (th'.result == ErrQueueFull <==> mustWait))
            && lane'.sent == if !th'.Blocked? && th'.result == Ok then lane.sent + [SendBuffer(th)] else lane.sent
  {
    var th := s.threads[t];
    assert ThreadOk(th, s.lanes, |s.held|) && LaneOk(s.lanes[th.c], |s.held|);
    hide Conserved, PoolOk, Wakeful, Shape, LaneOk, NoneLost;
    if a.SendEnter? {
      EnterAnswers(s, t, a);
    }
  }

  lemma EnterAnswers(s: Sys, t: nat, a: Action)
    requires Shape(s) && Ready(s, t, a) && a.SendEnter?
    ensures var (lane, (lane', dropped)) := (s.lanes[s.threads[t].c], AdmitLane(s.lanes[s.threads[t].c]));
            && lane'.sent == lane.sent && lane'.chan.closed == lane.chan.closed && lane'.chan.policy == lane.chan.policy
            && lane'.chan.capacity == lane.chan.capacity
            && (|lane'.chan.queue| == lane.chan.capacity && !lane.chan.closed <==>
                  |lane.chan.queue| == lane.chan.capacity && !lane.chan.closed && !lane.chan.policy.DropOldest?)
  {
    assert ThreadOk(s.threads[t], s.lanes, |s.held|) && LaneOk(s.lanes[s.threads[t].c], |s.held|);
    AdmitKeepsLane(s.lanes[s.threads[t].c], |s.held|);
  }

  /** A call that still has references to give back keeps its answer while it does, and gives back each exactly once. */
  lemma GivingBackKeepsAnswer(s: Sys, t: nat)
    requires Inv(s) && Enabled(s, t, ReleaseNext)
    ensures var (th, th') := (s.threads[t], Step(s, t, ReleaseNext).threads[t]);
            && (|th.bufs| == 1 ==> th' == Idle(th.result))
            && (|th.bufs| > 1 ==> th' == Releasing(th.bufs[1..], th.result))
            && Step(s, t, ReleaseNext).lanes == s.lanes && Step(s, t, ReleaseNext).held == s.held
  {
    hide Conserved, PoolOk, Wakeful, Shape;
  }

  /** A wait that fails ends its call with that error, moves no buffer, and is counted as a time-out on the receiving
      side always and on the sending side only when it was one. */
  lemma FailedWaitAnswers(s: Sys, t: nat, error: SysErr)
    requires Inv(s) && Enabled(s, t, WaitFails(error))
    ensures var (th, s') := (s.threads[t], Step(s, t, WaitFails(error)));
            var (lane, lane') := (s.lanes[th.c], s'.lanes[th.c]);
            && !s'.threads[t].Blocked? && s'.threads[t].result == error != Ok
            && lane'.sent == lane.sent && lane'.removed == lane.removed && lane'.chan.queue == lane.chan.queue
            && lane'.chan.stats.timeouts == lane.chan.stats.timeouts + if th.job.Receive? || error == ErrTimeout then 1 else 0
  {
    assert ThreadOk(s.threads[t], s.lanes, |s.held|);
  }

  /** What a receive does in its locked section. */
  ghost predicate Received(s: Sys, e: Effect, c: nat, patience: Patience)
    requires c < |s.lanes| && c < |e.lanes|
  {
    var (lane, lane', empty) := (s.lanes[c], e.lanes[c], s.lanes[c].chan.queue == []);
    && (e.next.Blocked? <==> empty && !lane.chan.closed && !patience.Never?)
    && (!e.next.Blocked? ==>
          && (e.next == Idle(Ok) <==> !empty)
          && (e.next == Idle(ErrTimeout) <==> empty && !lane.chan.closed)
          && (e.next == Idle(ErrClosed) <==> empty && lane.chan.closed))
    && lane'.removed == lane.removed + (if empty then [] else [lane.chan.queue[0]])
    && (!empty ==> lane.chan.queue[0] < |s.held|
                   && e.held == s.held[lane.chan.queue[0] := s.held[lane.chan.queue[0]] + 1])
    && lane'.chan.stats.timeouts == lane.chan.stats.timeouts + if e.next == Idle(ErrTimeout) then 1 else 0
  }

  lemma LockedReceive(s: Sys, c: nat, patience: Patience)
    requires c < |s.lanes| && LaneOk(s.lanes[c], |s.held|)
    ensures Received(s, ReceiveEffect(s, c, patience), c, patience)
  {
    if s.lanes[c].chan.queue != [] {
      assert s.lanes[c].chan.queue[0] in s.lanes[c].sent;
    }
  }

  /** A receive answers OK exactly when it took the oldest buffer, whose reference is then the caller's; it waits on
      only on an empty open channel, and an answer TIMEOUT without a wait is counted. */
  lemma ReceiveAnswers(s: Sys, t: nat, a: Action)
    requires Inv(s) && Enabled(s, t, a)
    requires a.ReceiveCall? || (a.Resume? && s.threads[t].job.Receive?)
    ensures var (c, patience) := if a.ReceiveCall? then (a.c, a.patience) else (s.threads[t].c, s.threads[t].patience);
            var (s', lane, lane') := (Step(s, t, a), s.lanes[c], Step(s, t, a).lanes[c]);
            var (th', empty) := (s'.threads[t], lane.chan.queue == []);
            && (th'.Blocked? <==> empty && !lane.chan.closed && !patience.Never?)
            && (!th'.Blocked? ==>
                  && (th' == Idle(Ok) <==> !empty)
                  && (th' == Idle(ErrTimeout) <==> empty && !lane.chan.closed)
                  && (th' == Idle(ErrClosed) <==> empty && lane.chan.closed))
            && lane'.removed == lane.removed + (if empty then [] else [lane.chan.queue[0]])
            && (!empty ==> lane.chan.queue[0] < |s.held| && s'.held == s.held[lane.chan.queue[0] := s.held[lane.chan.queue[0]] + 1])
            && lane'.chan.stats.timeouts == lane.chan.stats.timeouts + if th' == Idle(ErrTimeout) then 1 else 0
  {
    var c := if a.ReceiveCall? then a.c else s.threads[t].c;
    assert ThreadOk(s.threads[t], s.lanes, |s.held|) && LaneOk(s.lanes[c], |s.held|);
    hide Conserved, PoolOk, Wakeful, Shape, LaneOk, NoneLost, ReceiveEffect;
    LockedReceive(s, c, if a.ReceiveCall? then a.patience else s.threads[t].patience);
  }

  // ----- what the counters count

  predicate ReceivesOn(th: Thread, a: Action, c: nat) {
    (a.ReceiveCall? && a.c == c) || (a.Resume? && th.Blocked? && th.job.Receive? && th.c == c)
  }

  predicate SendsOn(th: Thread, a: Action, c: nat) {
    (a.SendEnter? || a.Resume?) && InSend(th) && th.c == c
  }

  function One(b: bool): nat {
    if b then 1 else 0
  }

  /** The counters after a step that takes the calling thread from `th` to `th'`. */
  function Booked(chan: Channel, c: nat, th: Thread, a: Action, th': Thread, length: nat): Stats {
    var found := a.SendEnter? && SendsOn(th, a, c) && |chan.queue| == chan.capacity;
    var late := (ReceivesOn(th, a, c) && th' == Idle(ErrTimeout))
                || (a.WaitFails? && th.Blocked? && th.c == c && (th.job.Receive? || a.error == ErrTimeout));
    Stats(chan.stats.full + One(found),
          chan.stats.dropped + One(found && chan.policy.DropOldest? && !chan.closed),
          chan.stats.timeouts + One(late),
          chan.stats.sent + One(SendsOn(th, a, c) && (th' == Idle(Ok) || (th'.Releasing? && th'.result == Ok))),
          chan.stats.received + One(ReceivesOn(th, a, c) && th' == Idle(Ok)),
          if length > chan.stats.high then length else chan.stats.high)
  }

  /** The books of lane `c` after the effect of a step: its counters, and the log of what was sent. */
  ghost predicate Books(s: Sys, t: nat, a: Action, c: nat)
    requires Ready(s, t, a) && c < |s.lanes|
  {
    var e := EffectOf(s, t, a);
    && |e.lanes| == |s.lanes|
    && (var (lane, lane') := (s.lanes[c], e.lanes[c]);
        && lane'.chan.stats == Booked(lane.chan, c, s.threads[t], a, e.next, |lane'.chan.queue|)
        && |lane'.sent| + lane.chan.stats.sent == |lane.sent| + lane'.chan.stats.sent)
  }

  lemma EnterBooks(s: Sys, t: nat, a: Action)
    requires Shape(s) && Ready(s, t, a) && a.SendEnter?
    ensures s.threads[t].c < |s.lanes| && Books(s, t, a, s.threads[t].c)
  {
    assert ThreadOk(s.threads[t], s.lanes, |s.held|) && LaneOk(s.lanes[s.threads[t].c], |s.held|);
  }

  lemma ResumeBooks(s: Sys, t: nat, a: Action)
    requires Shape(s) && Ready(s, t, a) && a.Resume? && InSend(s.threads[t])
    ensures s.threads[t].c < |s.lanes| && Books(s, t, a, s.threads[t].c)
  {
    hide Admit;
    assert ThreadOk(s.threads[t], s.lanes, |s.held|) && LaneOk(s.lanes[s.threads[t].c], |s.held|);
  }

  lemma ReceiveBooks(s: Sys, t: nat, a: Action, c: nat)
    requires Shape(s) && Ready(s, t, a) && ReceivesOn(s.threads[t], a, c)
    ensures c < |s.lanes| && Books(s, t, a, c)
  {
    assert ThreadOk(s.threads[t], s.lanes, |s.held|) && LaneOk(s.lanes[c], |s.held|);
  }

  /** A step that neither sends nor receives on `c`. */
  /** A send or receive on another channel. */
  lemma ElsewhereBooks(s: Sys, t: nat, a: Action, c: nat)
    requires Ready(s, t, a) && c < |s.lanes| && !SendsOn(s.threads[t], a, c) && !ReceivesOn(s.threads[t], a, c)
    requires a.SendEnter? || a.Resume? || a.ReceiveCall?
    requires ChannelOk(s.lanes[c].chan)
    ensures Books(s, t, a, c)
  {
    hide Offer, Poll, Admit;
  }

  /** A step that neither sends nor receives. */
  lemma OthersBook(s: Sys, t: nat, a: Action, c: nat)
    requires Ready(s, t, a) && c < |s.lanes| && ChannelOk(s.lanes[c].chan) && a != Free(c)
    requires !a.SendEnter? && !a.Resume? && !a.ReceiveCall?
    ensures Books(s, t, a, c)
  {
    hide SendEffect, ReceiveEffect, AcquireBuffer, RetainBuffer, ReleaseBuffer;
  }

  /** The calling thread ends a step as its own effect says, whoever is woken. */
  lemma OwnThread(s: Sys, t: nat, a: Action)
    requires Enabled(s, t, a)
    ensures Step(s, t, a).threads[t] == EffectOf(s, t, a).next
  {
  }

  /** Each counter of a live channel moves exactly with what it is named for: a send that finds the queue full, one that
      discards for that, a wait that ran out, a send answered OK, a receive answered OK, and the longest queue. */
  lemma CountersCount(s: Sys, t: nat, a: Action, c: nat)
    requires Inv(s) && Enabled(s, t, a) && c < |s.lanes| && !s.lanes[c].freed && a != Free(c)
    ensures var s' := Step(s, t, a);
            && |s'.lanes| == |s.lanes|
            && s'.lanes[c].chan.stats
                 == Booked(s.lanes[c].chan, c, s.threads[t], a, s'.threads[t], |s'.lanes[c].chan.queue|)
            && |s'.lanes[c].sent| + s.lanes[c].chan.stats.sent == |s.lanes[c].sent| + s'.lanes[c].chan.stats.sent
  {
    hide EffectOf, Booked, Conserved, PoolOk, Wakeful;
    OwnThread(s, t, a);
    assert LaneOk(s.lanes[c], |s.held|);
    if SendsOn(s.threads[t], a, c) {
      if a.SendEnter? {
        EnterBooks(s, t, a);
      } else {
        ResumeBooks(s, t, a);
      }
    } else if ReceivesOn(s.threads[t], a, c) {
      ReceiveBooks(s, t, a, c);
    } else if a.SendEnter? || a.Resume? || a.ReceiveCall? {
      ElsewhereBooks(s, t, a, c);
    } else {
      OthersBook(s, t, a, c);
    }
  }

  lemma FreedStays(s: Sys, t: nat, a: Action, c: nat)
    requires Shape(s) && Enabled(s, t, a) && c < |s.lanes|
    ensures |Step(s, t, a).lanes| == |s.lanes|
    ensures Step(s, t, a).lanes[c].freed <==> s.lanes[c].freed || a == Free(c)
  {
    hide Offer, Poll, Admit, SignalOk, LaneOk;
  }

  lemma {:induction false} SentIsCounted(s: Sys, turns: seq<Turn>, c: nat)
    requires Inv(s) && Runs(s, turns) && c < |s.lanes|
    requires s.lanes[c].freed || s.lanes[c].chan.stats.sent == |s.lanes[c].sent|
    ensures var s' := After(s, turns);
            && c < |s'.lanes| && (s'.lanes[c].freed || s'.lanes[c].chan.stats.sent == |s'.lanes[c].sent|)
    decreases |turns|
  {
    hide Inv, Enabled, Step, Booked;
    if turns != [] {
      var (t, a) := (turns[0].t, turns[0].a);
      StepKeepsInv(s, t, a);
      InvIsShape(s);
      FreedStays(s, t, a, c);
      if !Step(s, t, a).lanes[c].freed {
        CountersCount(s, t, a, c);
      }
      SentIsCounted(Step(s, t, a), turns[1..], c);
    }
  }

  lemma {:induction false} LanesStay(s: Sys, turns: seq<Turn>)
    requires Inv(s) && Runs(s, turns)
    ensures |After(s, turns).lanes| == |s.lanes|
    decreases |turns|
  {
    hide Inv, Enabled, Step;
    if turns != [] {
      var (t, a) := (turns[0].t, turns[0].a);
      StepKeepsInv(s, t, a);
      InvIsShape(s);
      if s.lanes != [] {
        FreedStays(s, t, a, 0);
      } else {
        NoLanesStay(s, t, a);
      }
      LanesStay(Step(s, t, a), turns[1..]);
    }
  }

  lemma NoLanesStay(s: Sys, t: nat, a: Action)
    requires Shape(s) && Enabled(s, t, a) && s.lanes == []
    ensures Step(s, t, a).lanes == []
  {
    hide Offer, Poll, Admit, SignalOk, LaneOk;
  }

  lemma LaneOfInv(s: Sys, c: nat)
    requires Inv(s) && c < |s.lanes|
    ensures LaneOk(s.lanes[c], |s.held|)
  {
  }

  /** After any run, what left a channel and what is still queued is, in order, what was sent; on a live channel the
      counters are the lengths of these logs. */
  lemma FifoAndCounters(s: Sys, turns: seq<Turn>, c: nat)
    requires Initial(s) && Runs(s, turns) && c < |After(s, turns).lanes|
    ensures var lane := After(s, turns).lanes[c];
            && lane.sent == lane.removed + lane.chan.queue
            && (!lane.freed ==>
                  && lane.chan.stats.sent == |lane.sent|
                  && lane.chan.stats.received + lane.chan.stats.dropped == |lane.removed|
                  && |lane.chan.queue| <= lane.chan.stats.high <= lane.chan.capacity)
  {
    hide Runs, After, Inv;
    InitialInv(s);
    LanesStay(s, turns);
    SentIsCounted(s, turns, c);
    RunKeepsInv(s, turns);
    LaneOfInv(After(s, turns), c);
  }

  // ----- progress

  /** Nobody on channel `c` can move without somebody else: no call is about to lock it, no waiter is signalled. */
  ghost predicate Stalled(s: Sys, c: nat) {
    forall i :: 0 <= i < |s.threads| && Uses(s.threads[i], c) ==> s.threads[i].Blocked? && !s.threads[i].signalled
  }

  /** After any run, a stalled channel is open; receivers wait on it only if it is empty and senders only if it is full,
      so senders and receivers never wait for each other. */
  lemma StallIsJustified(s: Sys, turns: seq<Turn>, c: nat, i: nat)
    requires Initial(s) && Runs(s, turns)
    requires var s' := After(s, turns);
             c < |s'.lanes| && Stalled(s', c) && i < |s'.threads| && Uses(s'.threads[i], c)
    ensures var s' := After(s, turns);
            && s'.threads[i].Blocked? && !s'.lanes[c].chan.closed
            && (if s'.threads[i].job.Receive? then s'.lanes[c].chan.queue == []
                else |s'.lanes[c].chan.queue| == s'.lanes[c].chan.capacity)
            && forall j :: 0 <= j < |s'.threads| && Uses(s'.threads[j], c) ==>
                 s'.threads[j].Blocked? && SideOf(s'.threads[j].job) == SideOf(s'.threads[i].job)
  {
    hide Runs, After, Initial;
    Reachable(s, turns);
    StalledSide(After(s, turns), c, i);
  }

  lemma StalledSide(s: Sys, c: nat, i: nat)
    requires Inv(s) && c < |s.lanes| && Stalled(s, c) && i < |s.threads| && Uses(s.threads[i], c)
    ensures !s.lanes[c].chan.closed
    ensures if s.threads[i].job.Receive? then s.lanes[c].chan.queue == []
            else |s.lanes[c].chan.queue| == s.lanes[c].chan.capacity
    ensures forall j :: 0 <= j < |s.threads| && Uses(s.threads[j], c) ==>
              SideOf(s.threads[j].job) == SideOf(s.threads[i].job)
  {
    var side := SideOf(s.threads[i].job);
    StallStarves(s, c, i);
    forall j | 0 <= j < |s.threads| && Uses(s.threads[j], c)
      ensures SideOf(s.threads[j].job) == side
    {
      StallStarves(s, c, j);
    }
  }

  lemma StallStarves(s: Sys, c: nat, i: nat)
    requires Inv(s) && c < |s.lanes| && Stalled(s, c) && i < |s.threads| && Uses(s.threads[i], c)
    ensures s.threads[i].Blocked? && !s.lanes[c].chan.closed && s.lanes[c].chan.capacity > 0
    ensures Supply(SideOf(s.threads[i].job), s.lanes[c].chan) == 0
  {
    var side := SideOf(s.threads[i].job);
    assert ThreadOk(s.threads[i], s.lanes, |s.held|) && LaneOk(s.lanes[c], |s.held|);
    assert Waits(s.threads[i], side, c, false);
    SumZero(s.threads, Signals(side, c));
    assert NoneLost(s.threads, side, c, Supply(side, s.lanes[c].chan));
  }
}
