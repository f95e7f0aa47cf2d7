/** Every step of the channel system keeps the invariant: reference counts are conserved, the queue is
    first in first out, and no wake-up is lost. */
module ChannelProofs {
  import opened SysTypes
  import opened Sums
  import opened ChannelModel
  import opened ChannelSteps

  // ----- shape

  /** Lanes keep what threads rely on. */
  ghost predicate SameWalls(lanes: seq<Lane>, lanes': seq<Lane>) {
    && |lanes| == |lanes'|
    && forall c :: 0 <= c < |lanes| ==>
         lanes'[c].freed == lanes[c].freed && lanes'[c].chan.policy == lanes[c].chan.policy
         && lanes'[c].chan.closed == lanes[c].chan.closed
  }

  lemma BelowConcat(a: seq<nat>, b: seq<nat>, n: nat)
    ensures Below(a + b, n) <==> Below(a, n) && Below(b, n)
  {
    if Below(a + b, n) {
      forall x | x in a || x in b ensures x < n {
        assert x in a + b;
      }
    }
  }

  lemma AdmitKeepsLane(lane: Lane, n: nat)
    requires LaneOk(lane, n) && !lane.freed
    ensures var (lane', dropped) := AdmitLane(lane);
            && LaneOk(lane', n) && lane'.sent == lane.sent && !lane'.freed
            && lane'.chan.policy == lane.chan.policy && lane'.chan.closed == lane.chan.closed
            && Below(Dropped(dropped), n) && multiset(lane.chan.queue) == multiset(lane'.chan.queue) + multiset(Dropped(dropped))
            && (dropped.Some? ==> |lane'.chan.queue| == |lane.chan.queue| - 1 && lane.chan.policy.DropOldest? && !lane.chan.closed)
            && (dropped.None? ==> lane'.chan.queue == lane.chan.queue)
            && (|lane.chan.queue| == lane.chan.capacity && lane.chan.policy.DropOldest? && !lane.chan.closed ==> dropped.Some?)
            && lane'.chan.capacity == lane.chan.capacity
  {
    var (lane', dropped) := AdmitLane(lane);
    BelowConcat(lane.removed, lane.chan.queue, n);
    if dropped.Some? {
      assert lane.chan.queue == [lane.chan.queue[0]] + lane.chan.queue[1..];
      assert lane'.removed + lane'.chan.queue == lane.removed + lane.chan.queue;
      assert dropped.value in lane.chan.queue;
    }
  }

  lemma SendKeepsShape(s: Sys, lane: Lane, dropped: Option<nat>, c: nat, b: nat, patience: Patience)
    requires Shape(s) && c < |s.lanes| && b < |s.pool.refs| && !s.lanes[c].freed
    requires LaneOk(lane, |s.pool.refs|) && !lane.freed && Below(Dropped(dropped), |s.pool.refs|)
    requires lane.chan.policy == s.lanes[c].chan.policy && lane.chan.closed == s.lanes[c].chan.closed
    requires lane.chan.policy.DropOldest? && !lane.chan.closed ==> |lane.chan.queue| < lane.chan.capacity
    ensures var e := SendEffect(s, lane, dropped, c, b, patience);
            && SameWalls(s.lanes, e.lanes) && ThreadOk(e.next, e.lanes, |s.pool.refs|)
            && forall d :: 0 <= d < |e.lanes| ==> LaneOk(e.lanes[d], |s.pool.refs|)
  {
    BelowConcat(lane.sent, [b], |s.pool.refs|);
    BelowConcat([b], Dropped(dropped), |s.pool.refs|);
    assert lane.removed + (lane.chan.queue + [b]) == lane.removed + lane.chan.queue + [b];
  }

  lemma ReceiveKeepsShape(s: Sys, c: nat, patience: Patience)
    requires Shape(s) && c < |s.lanes| && !s.lanes[c].freed
    ensures var e := ReceiveEffect(s, c, patience);
            && SameWalls(s.lanes, e.lanes) && ThreadOk(e.next, e.lanes, |s.pool.refs|) && |e.held| == |s.held|
            && forall d :: 0 <= d < |e.lanes| ==> LaneOk(e.lanes[d], |s.pool.refs|)
  {
    var lane := s.lanes[c];
    if Poll(lane.chan).Taken? {
      assert lane.removed + [lane.chan.queue[0]] + lane.chan.queue[1..] == lane.removed + lane.chan.queue;
    }
  }

  /** The steps that leave every lane as it is, but for a counted time-out. */
  lemma RestKeepsShape(s: Sys, t: nat, a: Action)
    requires Shape(s) && Ready(s, t, a)
    requires a.Acquire? || a.UserRetain? || a.UserRelease? || a.SendCall? || a.WaitFails?
    ensures var e := EffectOf(s, t, a);
            && SameWalls(s.lanes, e.lanes) && ThreadOk(e.next, e.lanes, |s.pool.refs|)
            && |e.held| == |s.held| && |e.pool.refs| == |s.pool.refs|
            && forall d :: 0 <= d < |e.lanes| ==> LaneOk(e.lanes[d], |s.pool.refs|)
  {
    assert ThreadOk(s.threads[t], s.lanes, |s.pool.refs|);
  }

  lemma EnterKeepsShape(s: Sys, t: nat, a: Action)
    requires Shape(s) && Ready(s, t, a) && a.SendEnter?
    ensures var e := EffectOf(s, t, a);
            && SameWalls(s.lanes, e.lanes) && ThreadOk(e.next, e.lanes, |s.pool.refs|)
            && |e.held| == |s.held| && |e.pool.refs| == |s.pool.refs|
            && forall d :: 0 <= d < |e.lanes| ==> LaneOk(e.lanes[d], |s.pool.refs|)
  {
    var th, n := s.threads[t], |s.pool.refs|;
    assert ThreadOk(th, s.lanes, n);
    AdmitKeepsLane(s.lanes[th.c], n);
    var (lane, dropped) := AdmitLane(s.lanes[th.c]);
    SendKeepsShape(s, lane, dropped, th.c, th.b, th.patience);
  }

  lemma EffectKeepsShape(s: Sys, t: nat, a: Action)
    requires Shape(s) && Ready(s, t, a) && !a.Close? && !a.Free?
    ensures var e := EffectOf(s, t, a);
            && SameWalls(s.lanes, e.lanes) && ThreadOk(e.next, e.lanes, |s.pool.refs|)
            && |e.held| == |s.held| && |e.pool.refs| == |s.pool.refs|
            && forall d :: 0 <= d < |e.lanes| ==> LaneOk(e.lanes[d], |s.pool.refs|)
  {
    hide LaneOk, FailEffect, AcquireBuffer, RetainBuffer, ReleaseBuffer;
    var th, n := s.threads[t], |s.pool.refs|;
    assert ThreadOk(th, s.lanes, n);
    match a
    case SendEnter(_) =>
      EnterKeepsShape(s, t, a);
    case ReceiveCall(c, patience, _) =>
      ReceiveKeepsShape(s, c, patience);
    case Resume(_) =>
      if th.job.Send? {
        SendKeepsShape(s, s.lanes[th.c], None, th.c, th.job.b, th.patience);
      } else {
        ReceiveKeepsShape(s, th.c, th.patience);
      }
    case ReleaseNext =>
      assert th.bufs == [th.bufs[0]] + th.bufs[1..];
      BelowConcat([th.bufs[0]], th.bufs[1..], n);
    case _ => RestKeepsShape(s, t, a);
  }

  lemma FreeKeepsShape(s: Sys, t: nat, c: nat)
    requires Shape(s) && Ready(s, t, Free(c))
    ensures var e := EffectOf(s, t, Free(c));
            && ThreadOk(e.next, e.lanes, |s.pool.refs|)
            && forall d :: 0 <= d < |e.lanes| ==> LaneOk(e.lanes[d], |s.pool.refs|)
  {
    var lane := s.lanes[c];
    BelowConcat(lane.removed, lane.chan.queue, |s.pool.refs|);
  }

  lemma StepKeepsShape(s: Sys, t: nat, a: Action)
    requires Shape(s) && Enabled(s, t, a)
    ensures Shape(Step(s, t, a))
  {
    var e, s', n := EffectOf(s, t, a), Step(s, t, a), |s.pool.refs|;
    if a.Free? {
      FreeKeepsShape(s, t, a.c);
    } else if !a.Close? {
      EffectKeepsShape(s, t, a);
    }
    hide EffectOf, LaneOk, Admit, Offer, Poll;
    forall i | 0 <= i < |s'.threads|
      ensures ThreadOk(s'.threads[i], s'.lanes, n)
    {
      assert ThreadOk(s.threads[i], s.lanes, n);
    }
  }

  // ----- conservation of references

  lemma FinishCarries(bufs: seq<nat>, result: SysErr, b: nat)
    ensures Carries(Finish(bufs, result), b) == multiset(bufs)[b]
  {
  }

  lemma Concat(a: seq<nat>, c: seq<nat>, b: nat)
    ensures multiset(a + c)[b] == multiset(a)[b] + multiset(c)[b]
  {
  }

  lemma Head(q: seq<nat>, b: nat)
    requires q != []
    ensures multiset(q)[b] == (if q[0] == b then 1 else 0) + multiset(q[1..])[b]
  {
    assert q == [q[0]] + q[1..];
    Concat([q[0]], q[1..], b);
  }

  /** What an effect changes in the count of references to `b`, apart from waking threads. */
  function Change(s: Sys, t: nat, e: Effect, b: nat): int
    requires t < |s.threads| && b < |s.held| && b < |e.held|
  {
    e.held[b] - s.held[b] + Sum(e.lanes, Queued(b)) - Sum(s.lanes, Queued(b)) + Carries(e.next, b) - Carries(s.threads[t], b)
  }

  lemma QueuedChange(lanes: seq<Lane>, c: nat, lane: Lane, b: nat)
    requires c < |lanes|
    ensures Sum(lanes[c := lane], Queued(b)) + multiset(lanes[c].chan.queue)[b]
         == Sum(lanes, Queued(b)) + multiset(lane.chan.queue)[b]
  {
    SumUpdate(lanes, c, lane, Queued(b));
  }

  lemma SendBalance(s: Sys, lane: Lane, dropped: Option<nat>, c: nat, x: nat, patience: Patience, b: nat)
    requires c < |s.lanes|
    requires multiset(s.lanes[c].chan.queue)[b] == multiset(lane.chan.queue)[b] + multiset(Dropped(dropped))[b]
    requires dropped.Some? ==> |lane.chan.queue| < lane.chan.capacity
    ensures var e := SendEffect(s, lane, dropped, c, x, patience);
            Sum(e.lanes, Queued(b)) - Sum(s.lanes, Queued(b)) + Carries(e.next, b) == if x == b then 1 else 0
  {
    hide Sum, Queued, SendEffect, Carries, Dropped;
    if Offer(lane.chan, x).Accepted? {
      AcceptedBalance(s, lane, dropped, c, x, patience, b);
    } else {
      RefusedBalance(s, lane, dropped, c, x, patience, b);
    }
  }

  lemma AcceptedBalance(s: Sys, lane: Lane, dropped: Option<nat>, c: nat, x: nat, patience: Patience, b: nat)
    requires c < |s.lanes| && Offer(lane.chan, x).Accepted?
    requires multiset(s.lanes[c].chan.queue)[b] == multiset(lane.chan.queue)[b] + multiset(Dropped(dropped))[b]
    ensures var e := SendEffect(s, lane, dropped, c, x, patience);
            Sum(e.lanes, Queued(b)) - Sum(s.lanes, Queued(b)) + Carries(e.next, b) == if x == b then 1 else 0
  {
    hide Sum, Queued, Finish, Carries;
    QueuedChange(s.lanes, c, lane.(chan := Offer(lane.chan, x).c, sent := lane.sent + [x]), b);
    Concat(lane.chan.queue, [x], b);
    FinishCarries(Dropped(dropped), Ok, b);
  }

  lemma RefusedBalance(s: Sys, lane: Lane, dropped: Option<nat>, c: nat, x: nat, patience: Patience, b: nat)
    requires c < |s.lanes| && !Offer(lane.chan, x).Accepted?
    requires multiset(s.lanes[c].chan.queue)[b] == multiset(lane.chan.queue)[b] + multiset(Dropped(dropped))[b]
    requires dropped.Some? ==> |lane.chan.queue| < lane.chan.capacity
    ensures var e := SendEffect(s, lane, dropped, c, x, patience);
            Sum(e.lanes, Queued(b)) - Sum(s.lanes, Queued(b)) + Carries(e.next, b) == if x == b then 1 else 0
  {
    hide Sum, Queued, Finish;
    QueuedChange(s.lanes, c, lane, b);
    Concat([x], Dropped(dropped), b);
  }

  lemma ReceiveBalance(s: Sys, c: nat, patience: Patience, b: nat)
    requires Shape(s) && c < |s.lanes| && b < |s.held|
    ensures var e := ReceiveEffect(s, c, patience);
            && |e.held| == |s.held|
            && e.held[b] - s.held[b] + Sum(e.lanes, Queued(b)) - Sum(s.lanes, Queued(b)) + Carries(e.next, b) == 0
  {
    hide Sum, Queued;
    var e, q := ReceiveEffect(s, c, patience), s.lanes[c].chan.queue;
    QueuedChange(s.lanes, c, e.lanes[c], b);
    if q != [] {
      Head(q, b);
      assert LaneOk(s.lanes[c], |s.held|);
      assert q[0] in s.lanes[c].sent;
    }
  }

  lemma FailBalance(s: Sys, t: nat, error: SysErr, b: nat)
    requires Ready(s, t, WaitFails(error)) && b < |s.held|
    ensures Change(s, t, FailEffect(s, s.threads[t], error), b) == 0
  {
    hide Sum, Queued;
    var e, c := FailEffect(s, s.threads[t], error), s.threads[t].c;
    QueuedChange(s.lanes, c, e.lanes[c], b);
  }

  /** The pool side of a step: whose count moves, and by how much. */
  ghost predicate Moves(refs: seq<nat>, refs': seq<nat>, b: nat, change: int) {
    |refs| == |refs'| && b < |refs| && refs'[b] == refs[b] + change
  }

  lemma CarriedIsCounted(s: Sys, t: nat, b: nat)
    requires Conserved(s) && t < |s.threads| && b < |s.pool.refs|
    ensures s.pool.refs[b] >= Carries(s.threads[t], b) && s.pool.refs[b] >= s.held[b]
  {
    SumBounds(s.threads, t, Carried(b));
  }

  lemma PoolBalance(s: Sys, t: nat, a: Action, b: nat)
    requires Shape(s) && Conserved(s) && Ready(s, t, a) && b < |s.pool.refs|
    requires a.Acquire? || a.UserRetain? || a.UserRelease? || a.SendCall? || a.ReleaseNext?
    ensures var e := EffectOf(s, t, a);
            |e.held| == |s.held| && Moves(s.pool.refs, e.pool.refs, b, Change(s, t, e, b))
  {
    hide Sum, Queued, Conserved, LaneOk, ThreadOk;
    match a
    case Acquire =>
      FirstFreeIsFree(s.pool.refs, 0);
    case UserRelease(x) =>
      CarriedIsCounted(s, t, x);
    case ReleaseNext =>
      var th := s.threads[t];
      Head(th.bufs, b);
      Head(th.bufs, th.bufs[0]);
      CarriedIsCounted(s, t, th.bufs[0]);
      FinishCarries(th.bufs[1..], th.result, b);
    case _ =>
  }

  lemma CallBalance(s: Sys, t: nat, a: Action, b: nat)
    requires Shape(s) && Ready(s, t, a) && b < |s.pool.refs|
    requires a.SendEnter? || a.ReceiveCall? || a.Resume?
    ensures var e := EffectOf(s, t, a);
            |e.held| == |s.held| && e.pool == s.pool && Change(s, t, e, b) == 0
  {
    hide Admit, Offer, Poll, AdmitLane, LaneOk;
    var th := s.threads[t];
    assert ThreadOk(th, s.lanes, |s.pool.refs|);
    match a
    case SendEnter(_) =>
      EnterBalance(s, th.c, th.b, th.patience, b);
    case ReceiveCall(c, patience, _) =>
      ReceiveBalance(s, c, patience, b);
    case Resume(_) =>
      if th.job.Send? {
        SendBalance(s, s.lanes[th.c], None, th.c, th.job.b, th.patience, b);
      } else {
        ReceiveBalance(s, th.c, th.patience, b);
      }
  }

  lemma EnterBalance(s: Sys, c: nat, x: nat, patience: Patience, b: nat)
    requires Shape(s) && c < |s.lanes| && !s.lanes[c].freed && s.lanes[c].chan.capacity > 0
    ensures var (lane, dropped) := AdmitLane(s.lanes[c]);
            var e := SendEffect(s, lane, dropped, c, x, patience);
            && e.held == s.held && e.pool == s.pool
            && Sum(e.lanes, Queued(b)) - Sum(s.lanes, Queued(b)) + Carries(e.next, b) == if x == b then 1 else 0
  {
    assert LaneOk(s.lanes[c], |s.pool.refs|);
    AdmitKeepsLane(s.lanes[c], |s.pool.refs|);
    var (lane, dropped) := AdmitLane(s.lanes[c]);
    assert dropped.Some? ==> |lane.chan.queue| < lane.chan.capacity;
    SendBalance(s, lane, dropped, c, x, patience, b);
  }

  lemma LaneBalance(s: Sys, t: nat, a: Action, b: nat)
    requires Shape(s) && Ready(s, t, a) && b < |s.pool.refs|
    requires a.WaitFails? || a.Close? || a.Free?
    ensures var e := EffectOf(s, t, a);
            |e.held| == |s.held| && e.pool == s.pool && Change(s, t, e, b) == 0
  {
    hide Sum, Queued;
    match a
    case WaitFails(error) =>
      FailBalance(s, t, error, b);
    case Close(c) =>
      QueuedChange(s.lanes, c, EffectOf(s, t, a).lanes[c], b);
    case Free(c) =>
      QueuedChange(s.lanes, c, EffectOf(s, t, a).lanes[c], b);
      FinishCarries(s.lanes[c].chan.queue, Ok, b);
  }

  lemma WakingCarries(threads: seq<Thread>, t: nat, next: Thread, a: Action, b: nat)
    requires t < |threads|
    ensures var threads1 := threads[t := next];
            var threads2 := if a.Close? then Broadcast(threads1, a.c) else WakeUp(threads1, WakeOf(a));
            Sum(threads2, Carried(b)) == Sum(threads, Carried(b)) + Carries(next, b) - Carries(threads[t], b)
  {
    var threads1 := threads[t := next];
    SumUpdate(threads, t, next, Carried(b));
    SumSame(threads1, if a.Close? then Broadcast(threads1, a.c) else WakeUp(threads1, WakeOf(a)), Carried(b));
  }

  lemma StepConserves(s: Sys, t: nat, a: Action)
    requires Shape(s) && Conserved(s) && Enabled(s, t, a)
    ensures Conserved(Step(s, t, a))
  {
    hide EffectOf, Shape, Ready, SignalOk;
    var s', e := Step(s, t, a), EffectOf(s, t, a);
    StepKeepsLengths(s, t, a);
    forall b | 0 <= b < |s'.pool.refs|
      ensures s'.pool.refs[b] == Owed(s', b)
    {
      if a.Acquire? || a.UserRetain? || a.UserRelease? || a.SendCall? || a.ReleaseNext? {
        PoolBalance(s, t, a, b);
      } else if a.SendEnter? || a.ReceiveCall? || a.Resume? {
        CallBalance(s, t, a, b);
      } else {
        LaneBalance(s, t, a, b);
      }
      WakingCarries(s.threads, t, e.next, a, b);
    }
  }

  lemma StepKeepsLengths(s: Sys, t: nat, a: Action)
    requires Shape(s) && Enabled(s, t, a)
    ensures t < |s.threads| && |Step(s, t, a).held| == |s.held| == |s.pool.refs| == |Step(s, t, a).pool.refs|
  {
    if !a.Free? && !a.Close? {
      EffectKeepsShape(s, t, a);
    }
  }

  lemma StepKeepsPool(s: Sys, t: nat, a: Action)
    requires PoolOk(s.pool) && Enabled(s, t, a)
    ensures PoolOk(Step(s, t, a).pool)
  {
    match a
    case Acquire => AcquireKeepsPool(s.pool);
    case UserRetain(b) => RetainKeepsPool(s.pool, b);
    case UserRelease(b) => ReleaseKeepsPool(s.pool, b);
    case SendCall(_, b, _) => RetainKeepsPool(s.pool, b);
    case ReleaseNext => ReleaseKeepsPool(s.pool, s.threads[t].bufs[0]);
    case _ =>
  }

  // ----- no lost wake-up

  function One(b: bool): nat {
    if b then 1 else 0
  }

  /** How the number of signalled waiters moves when thread `t` becomes `next` and `wake` is signalled. */
  lemma SignalsMove(threads: seq<Thread>, t: nat, next: Thread, wake: Option<nat>, side: Side, c: nat)
    requires t < |threads| && !Waits(next, side, c, true)
    requires wake.Some? ==> wake.value < |threads| && wake.value != t && threads[wake.value].Blocked? && !threads[wake.value].signalled
    ensures Sum(WakeUp(threads[t := next], wake), Signals(side, c)) + One(Waits(threads[t], side, c, true))
         == Sum(threads, Signals(side, c)) + One(wake.Some? && Waits(threads[wake.value], side, c, false))
  {
    SumUpdate(threads, t, next, Signals(side, c));
    if wake.Some? {
      SumUpdate(threads[t := next], wake.value, Signalled(threads[wake.value]), Signals(side, c));
    }
  }

  /** One turn of one thread keeps a side of a channel wakeful, provided that the thread goes to wait only
      when there is nothing to take, and that whatever it adds to the supply is signalled. */
  lemma TurnKeepsWakeful(threads: seq<Thread>, t: nat, next: Thread, signal: Option<(Side, nat)>, wake: Option<nat>,
                         side: Side, c: nat, supply: int, supply': int)
    requires t < |threads| && NoneLost(threads, side, c, supply)
    requires !Waits(next, side, c, true) && (Waits(next, side, c, false) ==> supply' <= 0)
    requires SignalOk(threads, t, signal, wake)
    requires supply' <= supply - One(Waits(threads[t], side, c, true)) + One(signal == Some((side, c))) || supply' <= 0
    ensures NoneLost(WakeUp(threads[t := next], wake), side, c, supply')
  {
    SignalsMove(threads, t, next, wake, side, c);
    var threads' := WakeUp(threads[t := next], wake);
    forall i | 0 <= i < |threads'| && Waits(threads'[i], side, c, false)
      ensures supply' <= Sum(threads', Signals(side, c))
    {
      if i != t {
        assert Waits(threads[i], side, c, false);
      }
    }
  }

  /** The supply after an effect, in the form TurnKeepsWakeful needs. */
  ghost predicate Accounted(s: Sys, t: nat, e: Effect, side: Side, d: nat)
    requires t < |s.threads| && d < |s.lanes| && |e.lanes| == |s.lanes|
  {
    var supply, supply' := Supply(side, s.lanes[d].chan), Supply(side, e.lanes[d].chan);
    && !Waits(e.next, side, d, true) && (Waits(e.next, side, d, false) ==> supply' <= 0)
    && (supply' <= 0 || supply' <= supply - One(Waits(s.threads[t], side, d, true)) + One(e.signal == Some((side, d))))
  }

  lemma SendAccounted(s: Sys, t: nat, lane: Lane, dropped: Option<nat>, c: nat, b: nat, patience: Patience,
                      side: Side, d: nat)
    requires t < |s.threads| && c < |s.lanes| && d < |s.lanes| && (d != c || !lane.chan.closed)
    requires lane.chan.capacity == s.lanes[c].chan.capacity
    requires |lane.chan.queue| + |Dropped(dropped)| == |s.lanes[c].chan.queue| <= lane.chan.capacity
    requires Uses(s.threads[t], c) && (s.threads[t].Blocked? ==> s.threads[t].job.Send? && dropped.None?)
    ensures Accounted(s, t, SendEffect(s, lane, dropped, c, b, patience), side, d)
  {
  }

  lemma ReceiveAccounted(s: Sys, t: nat, c: nat, patience: Patience, side: Side, d: nat)
    requires t < |s.threads| && c < |s.lanes| && d < |s.lanes| && (d != c || !s.lanes[c].chan.closed)
    requires s.threads[t].Blocked? ==> s.threads[t].job.Receive? && s.threads[t].c == c
    ensures Accounted(s, t, ReceiveEffect(s, c, patience), side, d)
  {
  }

  lemma EffectAccounted(s: Sys, t: nat, a: Action, side: Side, d: nat)
    requires Shape(s) && Ready(s, t, a) && !a.Close? && !a.Free? && d < |s.lanes| && !s.lanes[d].chan.closed
    ensures var e := EffectOf(s, t, a);
            |e.lanes| == |s.lanes| && Accounted(s, t, e, side, d)
  {
    hide Admit, Offer, Poll, LaneOk, AdmitLane, Accounted, Sum;
    var th := s.threads[t];
    assert ThreadOk(th, s.lanes, |s.pool.refs|);
    if a.SendEnter? {
      EnterAccounted(s, t, side, d);
    } else if a.ReceiveCall? {
      ReceiveAccounted(s, t, a.c, a.patience, side, d);
    } else if a.Resume? {
      LaneBounds(s, th.c);
      if th.job.Send? {
        SendAccounted(s, t, s.lanes[th.c], None, th.c, th.job.b, th.patience, side, d);
      } else {
        ReceiveAccounted(s, t, th.c, th.patience, side, d);
      }
    } else if a.WaitFails? {
      FailAccounted(s, t, a.error, side, d);
    } else {
      StillAccounted(s, t, EffectOf(s, t, a), side, d);
    }
  }

  lemma LaneBounds(s: Sys, c: nat)
    requires Shape(s) && c < |s.lanes| && !s.lanes[c].freed
    ensures |s.lanes[c].chan.queue| <= s.lanes[c].chan.capacity
  {
    assert LaneOk(s.lanes[c], |s.pool.refs|);
  }

  lemma EnterAccounted(s: Sys, t: nat, side: Side, d: nat)
    requires Shape(s) && t < |s.threads| && s.threads[t].Sending? && d < |s.lanes| && !s.lanes[d].chan.closed
    requires s.threads[t].c < |s.lanes| && s.lanes[s.threads[t].c].chan.capacity > 0
    ensures var th := s.threads[t];
            var (lane, dropped) := AdmitLane(s.lanes[th.c]);
            Accounted(s, t, SendEffect(s, lane, dropped, th.c, th.b, th.patience), side, d)
  {
    var th := s.threads[t];
    assert ThreadOk(th, s.lanes, |s.pool.refs|) && LaneOk(s.lanes[th.c], |s.pool.refs|);
    AdmitKeepsLane(s.lanes[th.c], |s.pool.refs|);
    var (lane, dropped) := AdmitLane(s.lanes[th.c]);
    SendAccounted(s, t, lane, dropped, th.c, th.b, th.patience, side, d);
  }

  lemma FailAccounted(s: Sys, t: nat, error: SysErr, side: Side, d: nat)
    requires Ready(s, t, WaitFails(error)) && d < |s.lanes|
    ensures Accounted(s, t, FailEffect(s, s.threads[t], error), side, d)
  {
  }

  lemma StillAccounted(s: Sys, t: nat, e: Effect, side: Side, d: nat)
    requires t < |s.threads| && d < |s.lanes| && e.lanes == s.lanes && e.signal.None?
    requires !e.next.Blocked? && !s.threads[t].Blocked?
    ensures Accounted(s, t, e, side, d)
  {
  }

  lemma CloseKeepsOthers(threads: seq<Thread>, t: nat, c: nat, side: Side, d: nat, supply: int)
    requires t < |threads| && threads[t].Idle? && c != d && NoneLost(threads, side, d, supply)
    ensures NoneLost(Broadcast(threads[t := Idle(Ok)], c), side, d, supply)
  {
    var threads1 := threads[t := Idle(Ok)];
    SumUpdate(threads, t, Idle(Ok), Signals(side, d));
    SumSame(threads1, Broadcast(threads1, c), Signals(side, d));
    forall i | 0 <= i < |threads1| && Waits(Broadcast(threads1, c)[i], side, d, false)
      ensures supply <= Sum(Broadcast(threads1, c), Signals(side, d))
    {
      assert Waits(threads[i], side, d, false);
    }
  }

  /** On a closed channel nobody waits unsignalled, and nobody uses a freed one. */
  lemma NobodyWaits(s: Sys, side: Side, d: nat, supply: int)
    requires Shape(s) && d < |s.lanes| && (s.lanes[d].chan.closed || s.lanes[d].freed)
    ensures NoneLost(s.threads, side, d, supply)
  {
    forall i | 0 <= i < |s.threads|
      ensures !Waits(s.threads[i], side, d, false)
    {
      assert ThreadOk(s.threads[i], s.lanes, |s.pool.refs|);
    }
  }

  lemma FreeKeepsOthers(s: Sys, t: nat, c: nat, side: Side, d: nat)
    requires Ready(s, t, Free(c)) && d < |s.lanes| && d != c
    ensures Accounted(s, t, EffectOf(s, t, Free(c)), side, d)
  {
  }

  lemma StepKeepsWakeful(s: Sys, t: nat, a: Action)
    requires Shape(s) && Wakeful(s) && Enabled(s, t, a)
    ensures Wakeful(Step(s, t, a))
  {
    var s', e := Step(s, t, a), EffectOf(s, t, a);
    StepKeepsShape(s, t, a);
    if !a.Close? && !a.Free? {
      EffectKeepsShape(s, t, a);
    }
    forall side: Side, d | 0 <= d < |s'.lanes|
      ensures NoneLost(s'.threads, side, d, Supply(side, s'.lanes[d].chan))
    {
      KeepsOneWakeful(s, t, a, side, d);
    }
  }

  lemma KeepsOneWakeful(s: Sys, t: nat, a: Action, side: Side, d: nat)
    requires Shape(s) && Wakeful(s) && Enabled(s, t, a) && Shape(Step(s, t, a))
    requires d < |s.lanes| == |Step(s, t, a).lanes|
    requires !a.Close? && !a.Free? ==> SameWalls(s.lanes, EffectOf(s, t, a).lanes)
    ensures NoneLost(Step(s, t, a).threads, side, d, Supply(side, Step(s, t, a).lanes[d].chan))
  {
    hide Shape, ThreadOk, LaneOk, Admit, Offer, Poll, SignalOk, NoneLost, Sum;
    var s', e := Step(s, t, a), EffectOf(s, t, a);
    if s'.lanes[d].chan.closed || s'.lanes[d].freed {
      NobodyWaits(s', side, d, Supply(side, s'.lanes[d].chan));
    } else if a.Close? {
      CloseKeepsOthers(s.threads, t, a.c, side, d, Supply(side, s.lanes[d].chan));
    } else {
      if a.Free? {
        FreeKeepsOthers(s, t, a.c, side, d);
      } else {
        EffectAccounted(s, t, a, side, d);
      }
      TurnKeepsWakeful(s.threads, t, e.next, e.signal, WakeOf(a), side, d,
                       Supply(side, s.lanes[d].chan), Supply(side, s'.lanes[d].chan));
    }
  }

  // ----- the theorem

  lemma StepKeepsInv(s: Sys, t: nat, a: Action)
    requires Inv(s) && Enabled(s, t, a)
    ensures Inv(Step(s, t, a))
  {
    StepKeepsShape(s, t, a);
    StepKeepsPool(s, t, a);
    StepConserves(s, t, a);
    StepKeepsWakeful(s, t, a);
  }
}
