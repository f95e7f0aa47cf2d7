/** The pool and the channel as the program keeps them: an array of reference counts with a counter of
    buffers in use, and a ring of buffer slots with a head and a count. */
module ChannelRing {
  import opened SysTypes
  import opened Sums
  import opened ChannelModel

  class BufferPool {
    const counts: array<nat>
    var inUse: nat
    ghost var model: Pool

    ghost predicate Valid()
      reads this, counts
    {
      model == Pool(counts[..], inUse) && PoolOk(model)
    }

    constructor (blockCount: nat)
      requires blockCount > 0
      ensures Valid() && fresh(counts) && model.inUse == 0
      ensures model.refs == seq(blockCount, _ => 0)
    {
      counts := new nat[blockCount](_ => 0);
      inUse := 0;
      model := Pool(seq(blockCount, _ => 0), 0);
      new;
      assert counts[..] == model.refs;
      SumZero(model.refs, Used());
    }

    /** Stores one count and keeps the view up to date. */
    method Put(b: nat, r: nat, used: nat)
      requires b < counts.Length && model == Pool(counts[..], inUse)
      requires PoolOk(Pool(counts[..][b := r], used))
      modifies this, counts
      ensures Valid() && model == Pool(old(counts[..])[b := r], used)
    {
      counts[b] := r;
      inUse := used;
      model := Pool(counts[..], used);
    }

    method Acquire() returns (r: Option<nat>)
      requires Valid()
      modifies this, counts
      ensures Valid()
      ensures (model, r) == AcquireBuffer(old(model))
    {
      FirstFreeIsFree(model.refs, 0);
      AcquireKeepsPool(model);
      for i := 0 to counts.Length
        invariant Valid() && model == old(model)
        invariant FirstFree(model.refs, 0) == FirstFree(model.refs, i)
      {
        if counts[i] == 0 {
          Put(i, 1, inUse + 1);
          return Some(i);
        }
      }
      return None;
    }

    method Retain(b: nat) returns (r: SysErr)
      requires Valid() && b < counts.Length
      modifies this, counts
      ensures Valid()
      ensures (model, r) == RetainBuffer(old(model), b)
    {
      if counts[b] == 0 {
        return ErrState;
      }
      if counts[b] == SIZE_LIMIT {
        return ErrOverflow;
      }
      RetainKeepsPool(model, b);
      Put(b, counts[b] + 1, inUse);
      return Ok;
    }

    method Release(b: nat)
      requires Valid() && b < counts.Length
      modifies this, counts
      ensures Valid() && model == ReleaseBuffer(old(model), b)
    {
      ReleaseKeepsPool(model, b);
      if counts[b] > 0 {
        Put(b, counts[b] - 1, if counts[b] == 1 && inUse > 0 then inUse - 1 else inUse);
      }
    }

    /** May the pool be destroyed? Exactly when nothing refers to any of its buffers. */
    method Idle() returns (r: bool)
      requires Valid()
      ensures r <==> forall b :: 0 <= b < counts.Length ==> counts[b] == 0
    {
      IdleIff(model);
      assert forall b :: 0 <= b < counts.Length ==> model.refs[b] == counts[b];
      r := inUse == 0;
    }
  }

  class Ring {
    const capacity: nat
    const policy: Policy
    const slots: array<Option<nat>>
    var head: nat
    var count: nat
    var closed: bool
    var stats: Stats
    ghost var model: Channel

    ghost predicate Valid()
      reads this, slots
    {
      && slots.Length == capacity > 0 && head < capacity && count <= capacity
      && model == Channel(capacity, policy, model.queue, closed, stats) && |model.queue| == count
      && forall i :: 0 <= i < count ==> slots[Slot(head, i, capacity)] == Some(model.queue[i])
    }

    constructor (capacity: nat, policy: Policy)
      requires capacity > 0
      ensures Valid() && fresh(slots)
      ensures model == Channel(capacity, policy, [], false, Stats(0, 0, 0, 0, 0, 0)) && ChannelOk(model)
    {
      this.capacity, this.policy := capacity, policy;
      slots := new Option<nat>[capacity](_ => None);
      head, count, closed, stats := 0, 0, false, Stats(0, 0, 0, 0, 0, 0);
      model := Channel(capacity, policy, [], false, Stats(0, 0, 0, 0, 0, 0));
    }

    /** Takes the oldest buffer out of the ring. */
    method Advance() returns (b: nat)
      requires Valid() && count > 0
      modifies this, slots
      ensures Valid() && closed == old(closed) && stats == old(stats) && old(model).queue != []
      ensures b == old(model).queue[0] && model == old(model).(queue := old(model).queue[1..])
    {
      ghost var first, queue := head, model.queue;
      assert Slot(head, 0, capacity) == head;
      b := slots[head].value;
      slots[head] := None;
      SlotIsMod(head, 1, capacity);
      head := (head + 1) % capacity;
      count := count - 1;
      model := model.(queue := model.queue[1..]);
      forall i | 0 <= i < count
        ensures slots[Slot(head, i, capacity)] == Some(queue[1..][i])
      {
        SlotShifts(first, i, capacity);
      }
    }

    /** The first part of a send, under the lock. */
    method Admit() returns (dropped: Option<nat>)
      requires Valid()
      modifies this, slots
      ensures Valid()
      ensures (model, dropped) == ChannelModel.Admit(old(model))
    {
      dropped := None;
      var full := count == capacity;
      if full {
        stats := stats.(full := stats.full + 1);
        model := model.(stats := stats);
      }
      if full && policy.DropOldest? && !closed {
        var b := Advance();
        dropped := Some(b);
        stats := stats.(dropped := stats.dropped + 1);
        model := model.(stats := stats);
      }
    }

    /** The wait-loop test of a send and the rest of its locked section; `ErrWouldBlock` says it has to wait. */
    method Offer(b: nat) returns (r: SysErr)
      requires Valid()
      modifies this, slots
      ensures Valid()
      ensures match ChannelModel.Offer(old(model), b)
              case MustWait => r == ErrWouldBlock && model == old(model)
              case IsClosed => r == ErrClosed && model == old(model)
              case Accepted(c) => r == Ok && model == c
              case Taken(_, _) => false
    {
      if count == capacity && !closed {
        return ErrWouldBlock;
      }
      if closed {
        return ErrClosed;
      }
      SlotIsMod(head, count, capacity);
      var index := (head + count) % capacity;
      slots[index] := Some(b);
      count := count + 1;
      stats := stats.(sent := stats.sent + 1);
      if count > stats.high {
        stats := stats.(high := count);
      }
      model := model.(queue := model.queue + [b], stats := stats);
      return Ok;
    }

    /** The wait-loop test of a receive and the rest of its locked section. */
    method Poll() returns (r: SysErr, b: nat)
      requires Valid()
      modifies this, slots
      ensures Valid()
      ensures match ChannelModel.Poll(old(model))
              case MustWait => r == ErrWouldBlock && model == old(model)
              case IsClosed => r == ErrClosed && model == old(model)
              case Taken(b', c) => r == Ok && b == b' && model == c
              case Accepted(_) => false
    {
      b := 0;
      if count == 0 && !closed {
        return ErrWouldBlock, b;
      }
      if count == 0 && closed {
        return ErrClosed, b;
      }
      b := Advance();
      stats := stats.(received := stats.received + 1);
      model := model.(stats := stats);
      return Ok, b;
    }

    method Close()
      requires Valid()
      modifies this
      ensures Valid() && model == old(model).(closed := true)
    {
      closed := true;
      model := model.(closed := true);
    }

    /** The last release of the channel gives every queued buffer back to the pool, oldest first. */
    method Drain(pool: BufferPool)
      requires Valid() && pool.Valid() && slots as object != pool.counts
      requires forall k :: 0 <= k < |model.queue| ==> model.queue[k] < pool.counts.Length
      modifies this, pool, pool.counts
      ensures Valid() && pool.Valid() && model == old(model).(queue := [])
      ensures pool.model == ReleaseAll(old(pool.model), old(model).queue)
      ensures LessCounts(old(pool.counts[..]), pool.counts[..], old(model).queue)
    {
      hide ReleaseBuffer, LessCounts, PoolOk;
      ghost var q := model.queue;
      ReleaseAllCounts(pool.model, q);
      assert q[0..] == q;
      for i := 0 to count
        invariant Valid() && pool.Valid() && unchanged(this) && model.queue == q
        invariant |pool.model.refs| == pool.counts.Length
        invariant ReleaseAll(old(pool.model), q) == ReleaseAll(pool.model, q[i..])
      {
        SlotIsMod(head, i, capacity);
        assert q[i..][0] == q[i] && q[i..][1..] == q[i + 1..];
        var index := (head + i) % capacity;
        pool.Release(slots[index].value);
      }
      count := 0;
      model := model.(queue := []);
    }
  }
}
