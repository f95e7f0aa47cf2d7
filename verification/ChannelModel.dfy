/** The buffer pool and the bounded channel as values: one function per section the program
    runs under a lock. */
module ChannelModel {
  import opened SysTypes
  import opened Sums

  const SIZE_LIMIT: nat := 0xFFFF_FFFF_FFFF_FFFF

  // ----- the pool

  datatype Pool = Pool(refs: seq<nat>, inUse: nat)

  function Used(): nat -> nat {
    (r: nat) => if r == 0 then 0 else 1
  }

  /** The counter of buffers in use is the number of buffers somebody references. */
  ghost predicate PoolOk(p: Pool) {
    p.inUse == Sum(p.refs, Used())
  }

  function FirstFree(refs: seq<nat>, i: nat): (r: nat)
    requires i <= |refs|
    ensures i <= r <= |refs|
    decreases |refs| - i
  {
    if i == |refs| || refs[i] == 0 then i else FirstFree(refs, i + 1)
  }

  lemma {:induction false} FirstFreeIsFree(refs: seq<nat>, i: nat)
    requires i <= |refs|
    ensures var r := FirstFree(refs, i);
            && (r < |refs| ==> refs[r] == 0)
            && forall k :: i <= k < r ==> refs[k] != 0
    decreases |refs| - i
  {
    if i < |refs| && refs[i] != 0 {
      FirstFreeIsFree(refs, i + 1);
    }
  }

  /** sys_buffer_acquire: the first unreferenced buffer, if there is one. */
  function AcquireBuffer(p: Pool): (Pool, Option<nat>) {
    var i := FirstFree(p.refs, 0);
    if i == |p.refs| then (p, None) else (Pool(p.refs[i := 1], p.inUse + 1), Some(i))
  }

  function RetainBuffer(p: Pool, b: nat): (r: (Pool, SysErr))
    requires b < |p.refs|
    ensures |r.0.refs| == |p.refs|
  {
    if p.refs[b] == 0 then (p, ErrState)
    else if p.refs[b] == SIZE_LIMIT then (p, ErrOverflow)
    else (p.(refs := p.refs[b := p.refs[b] + 1]), Ok)
  }

  function ReleaseBuffer(p: Pool, b: nat): (r: Pool)
    requires b < |p.refs|
    ensures |r.refs| == |p.refs|
  {
    if p.refs[b] == 0 then p
    else Pool(p.refs[b := p.refs[b] - 1], if p.refs[b] == 1 && p.inUse > 0 then p.inUse - 1 else p.inUse)
  }

  function ReleaseAll(p: Pool, bs: seq<nat>): (r: Pool)
    requires forall k :: 0 <= k < |bs| ==> bs[k] < |p.refs|
    ensures |r.refs| == |p.refs|
    decreases |bs|
  {
    if bs == [] then p else ReleaseAll(ReleaseBuffer(p, bs[0]), bs[1..])
  }

  lemma AcquireKeepsPool(p: Pool)
    requires PoolOk(p)
    ensures PoolOk(AcquireBuffer(p).0)
    ensures AcquireBuffer(p).1.None? <==> p.inUse == |p.refs|
  {
    FirstFreeIsFree(p.refs, 0);
    var i := FirstFree(p.refs, 0);
    UsedAtMost(p.refs);
    if i < |p.refs| {
      SumUpdate(p.refs, i, 1, Used());
      UsedBelow(p.refs, i);
    } else {
      UsedFull(p.refs);
    }
  }

  lemma {:induction false} UsedAtMost(refs: seq<nat>)
    ensures Sum(refs, Used()) <= |refs|
  {
    if refs != [] {
      UsedAtMost(refs[..|refs| - 1]);
    }
  }

  lemma {:induction false} UsedBelow(refs: seq<nat>, i: nat)
    requires i < |refs| && refs[i] == 0
    ensures Sum(refs, Used()) < |refs|
  {
    if i < |refs| - 1 {
      UsedBelow(refs[..|refs| - 1], i);
    } else {
      UsedAtMost(refs[..|refs| - 1]);
    }
  }

  lemma {:induction false} UsedFull(refs: seq<nat>)
    requires forall i :: 0 <= i < |refs| ==> refs[i] != 0
    ensures Sum(refs, Used()) == |refs|
  {
    if refs != [] {
      UsedFull(refs[..|refs| - 1]);
    }
  }

  lemma RetainKeepsPool(p: Pool, b: nat)
    requires PoolOk(p) && b < |p.refs|
    ensures PoolOk(RetainBuffer(p, b).0)
  {
    SumUpdate(p.refs, b, p.refs[b] + 1, Used());
  }

  lemma ReleaseKeepsPool(p: Pool, b: nat)
    requires PoolOk(p) && b < |p.refs|
    ensures PoolOk(ReleaseBuffer(p, b))
    ensures p.refs[b] == 1 ==> ReleaseBuffer(p, b).inUse == p.inUse - 1
  {
    SumBounds(p.refs, b, Used());
    if p.refs[b] != 0 {
      SumUpdate(p.refs, b, p.refs[b] - 1, Used());
    }
  }

  /** Every count is lower by the number of times its buffer is given back, and stops at zero. */
  ghost predicate LessCounts(refs: seq<nat>, refs': seq<nat>, bs: seq<nat>) {
    && |refs'| == |refs|
    && forall b :: 0 <= b < |refs| ==>
         refs'[b] == if multiset(bs)[b] <= refs[b] then refs[b] - multiset(bs)[b] else 0
  }

  /** What the last release of a channel gives back. */
  lemma {:induction false} ReleaseAllCounts(p: Pool, bs: seq<nat>)
    requires PoolOk(p) && forall k :: 0 <= k < |bs| ==> bs[k] < |p.refs|
    ensures PoolOk(ReleaseAll(p, bs))
    ensures LessCounts(p.refs, ReleaseAll(p, bs).refs, bs)
    decreases |bs|
  {
    if bs != [] {
      hide PoolOk;
      assert bs == [bs[0]] + bs[1..];
      ReleaseKeepsPool(p, bs[0]);
      ReleaseAllCounts(ReleaseBuffer(p, bs[0]), bs[1..]);
      forall b | 0 <= b < |p.refs|
        ensures multiset(bs)[b] == (if b == bs[0] then 1 else 0) + multiset(bs[1..])[b]
      {
        assert multiset(bs) == multiset{bs[0]} + multiset(bs[1..]);
      }
    }
  }

  /** sys_buffer_pool_destroy goes through exactly when no buffer is referenced. */
  lemma IdleIff(p: Pool)
    requires PoolOk(p)
    ensures p.inUse == 0 <==> forall b :: 0 <= b < |p.refs| ==> p.refs[b] == 0
  {
    forall b | 0 <= b < |p.refs| && p.inUse == 0
      ensures p.refs[b] == 0
    {
      SumBounds(p.refs, b, Used());
    }
    if forall b :: 0 <= b < |p.refs| ==> p.refs[b] == 0 {
      SumZero(p.refs, Used());
    }
  }

  // ----- the channel

  datatype Policy = FailWhenFull | DropOldest

  datatype Stats = Stats(full: nat, dropped: nat, timeouts: nat, sent: nat, received: nat, high: nat)

  datatype Channel = Channel(capacity: nat, policy: Policy, queue: seq<nat>, closed: bool, stats: Stats)

  /** The start of a send, under the lock: notes a full queue and makes room if the policy says so. */
  function Admit(c: Channel): (r: (Channel, Option<nat>))
    requires c.capacity > 0
    ensures r.0.capacity == c.capacity && r.0.policy == c.policy && r.0.closed == c.closed
  {
    if |c.queue| != c.capacity then (c, None)
    else
      var c1 := c.(stats := c.stats.(full := c.stats.full + 1));
      if c.policy.DropOldest? && !c.closed then
        (c1.(queue := c.queue[1..], stats := c1.stats.(dropped := c.stats.dropped + 1)), Some(c.queue[0]))
      else
        (c1, None)
  }

  datatype Decision = MustWait | IsClosed | Accepted(c: Channel) | Taken(b: nat, c: Channel)

  /** The wait-loop test of a send and, when it falls through, the rest of the locked section. */
  function Offer(c: Channel, b: nat): Decision {
    if |c.queue| == c.capacity && !c.closed then MustWait
    else if c.closed then IsClosed
    else
      var n := |c.queue| + 1;
      Accepted(c.(queue := c.queue + [b],
                  stats := c.stats.(sent := c.stats.sent + 1, high := if n > c.stats.high then n else c.stats.high)))
  }

  /** The wait-loop test of a receive and the rest of its locked section. */
  function Poll(c: Channel): Decision {
    if c.queue == [] && !c.closed then MustWait
    else if c.queue == [] then IsClosed
    else Taken(c.queue[0], c.(queue := c.queue[1..], stats := c.stats.(received := c.stats.received + 1)))
  }

  function CountTimeout(c: Channel): Channel {
    c.(stats := c.stats.(timeouts := c.stats.timeouts + 1))
  }

  /** The structure every channel keeps. */
  ghost predicate ChannelOk(c: Channel) {
    && c.capacity > 0
    && |c.queue| <= c.stats.high <= c.capacity
    && c.stats.sent == c.stats.received + c.stats.dropped + |c.queue|
    && c.stats.dropped <= c.stats.full
  }

  /** Under drop-oldest a send never waits, and it discards the oldest buffer exactly when the queue was full. */
  lemma DropNeverWaits(c: Channel, b: nat)
    requires ChannelOk(c) && c.policy.DropOldest?
    ensures var (c1, dropped) := Admit(c);
            && !Offer(c1, b).MustWait?
            && (dropped.Some? <==> |c.queue| == c.capacity && !c.closed)
            && (dropped.Some? ==> dropped.value == c.queue[0])
            && (!c.closed ==>
                  && Offer(c1, b).Accepted?
                  && Offer(c1, b).c.queue == (if dropped.Some? then c.queue[1..] else c.queue) + [b])
  {
  }
}
