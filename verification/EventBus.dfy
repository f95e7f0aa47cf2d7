/** The event bus as the program keeps it: a compact table of subscription addresses, a ring of queued
    events, and the two flags. Every method is one section under the mutex and does what EventModel says. */
module EventBus {
  import opened SysTypes
  import opened EventModel

  lemma RetainOneMore(subs: seq<Sub>, targets: seq<nat>, x: nat)
    requires x < |subs| && x !in targets
    ensures Retain(subs, targets + [x]) == Retain(subs, targets)[x := subs[x].(inFlight := subs[x].inFlight + 1)]
  {
    var (more, one) := (Retain(subs, targets + [x]), subs[x].(inFlight := subs[x].inFlight + 1));
    forall k | 0 <= k < |subs|
      ensures more[k] == Retain(subs, targets)[x := one][k]
    {
      assert k in targets + [x] <==> k in targets || k == x;
    }
  }

  lemma MatchingNext(subs: seq<Sub>, table: seq<nat>, i: nat, event: nat)
    requires i < |table|
    ensures Matching(subs, table[..i + 1], event)
         == Matching(subs, table[..i], event) + if Matches(subs, table[i], event) then [table[i]] else []
  {
    assert table[..i + 1][..i] == table[..i];
  }

  lemma {:induction false} MatchingDrawsFrom(subs: seq<Sub>, table: seq<nat>, event: nat, x: nat)
    ensures x in Matching(subs, table, event) ==> x in table
  {
    if table != [] {
      assert table == table[..|table| - 1] + [table[|table| - 1]];
      MatchingDrawsFrom(subs, table[..|table| - 1], event, x);
    }
  }

  lemma MatchingNothing(subs: seq<Sub>, event: nat)
    ensures Matching(subs, [], event) == [] && Retain(subs, []) == subs
  {
  }

  lemma FreshTarget(subs: seq<Sub>, table: seq<nat>, i: nat, event: nat)
    requires Distinct(table) && i < |table|
    ensures table[i] !in Matching(subs, table[..i], event)
  {
    MatchingDrawsFrom(subs, table[..i], event, table[i]);
  }

  lemma RetainKeepsKeys(subs: seq<Sub>, targets: seq<nat>, x: nat)
    requires x < |subs|
    ensures Retain(subs, targets)[x].active == subs[x].active && Retain(subs, targets)[x].event == subs[x].event
    ensures x !in targets ==> Retain(subs, targets)[x] == subs[x]
  {
  }

  lemma {:induction false} RemoveDrawsFrom(table: seq<nat>, x: nat)
    ensures forall y :: y in Remove(table, x) ==> y in table
  {
    if table != [] {
      assert table == [table[0]] + table[1..];
      RemoveDrawsFrom(table[1..], x);
    }
  }

  lemma {:induction false} RemoveAt(table: seq<nat>, i: nat)
    requires i < |table| && table[i] !in table[..i]
    ensures Remove(table, table[i]) == table[..i] + table[i + 1..]
  {
    if i > 0 {
      assert table[0] in table[..i] && table[1..][..i - 1] == table[..i][1..];
      RemoveAt(table[1..], i - 1);
    }
  }

  /** Closing the gap at `i` removes that entry, and what is left stays within bounds. */
  lemma GapIsRemove(table: seq<nat>, i: nat, n: nat)
    requires i < |table| && table[i] !in table[..i] && forall k :: 0 <= k < |table| ==> table[k] < n
    ensures var rest := table[..i] + table[i + 1..];
            rest == Remove(table, table[i]) && forall k :: 0 <= k < |rest| ==> rest[k] < n
  {
    RemoveAt(table, i);
  }

  lemma {:induction false} RemoveAbsent(table: seq<nat>, x: nat)
    requires x !in table
    ensures Remove(table, x) == table
  {
    if table != [] {
      RemoveAbsent(table[1..], x);
    }
  }

  class Dispatcher {
    // The allocated subscription records; an address is a position.
    var records: seq<Sub>
    const subscribers: array<nat>
    var subscriberCount: nat
    const ring: array<Work>
    var head: nat
    var queueCount: nat
    var running: bool
    var accepting: bool
    ghost var model: Bus

    ghost predicate Queued()
      reads this`head, this`queueCount, this`model, ring
    {
      && ring.Length == QUEUE_CAPACITY && head < QUEUE_CAPACITY && queueCount <= QUEUE_CAPACITY
      && |model.queue| == queueCount
      && forall i :: 0 <= i < queueCount ==> ring[Slot(head, i, QUEUE_CAPACITY)] == model.queue[i]
    }

    ghost predicate Valid()
      reads this, subscribers, ring
    {
      && subscribers.Length == MAX_SUBSCRIBERS && subscriberCount <= MAX_SUBSCRIBERS
      && Queued()
      && model == Bus(records, subscribers[..subscriberCount], model.queue, running, accepting)
      && (forall k :: 0 <= k < subscriberCount ==> subscribers[k] < |records|)
    }

    constructor ()
      ensures Valid() && fresh(subscribers) && fresh(ring)
      ensures model == Bus([], [], [], false, false)
    {
      records, subscriberCount, head, queueCount, running, accepting := [], 0, 0, 0, false, false;
      subscribers := new nat[MAX_SUBSCRIBERS];
      ring := new Work[QUEUE_CAPACITY];
      model := Bus([], [], [], false, false);
    }

    method Start() returns (r: SysErr)
      requires Valid()
      modifies this
      ensures Valid() && (model, r) == EventModel.Start(old(model))
    {
      if running {
        return ErrState;
      }
      head, queueCount, running, accepting := 0, 0, true, true;
      model := model.(queue := [], running := true, accepting := true);
      return Ok;
    }

    method BeginStop() returns (joins: bool)
      requires Valid()
      modifies this
      ensures Valid() && (model, joins) == EventModel.BeginStop(old(model))
    {
      joins := running;
      accepting := false;
      running := false;
      model := model.(running := false, accepting := false);
    }

    method HasInFlightCallbacks() returns (r: bool)
      requires Valid()
      ensures r == AnyInFlight(model)
    {
      for i := 0 to subscriberCount
        invariant forall k :: 0 <= k < i ==> !InFlight(model.subs, model.table[k])
      {
        if records[subscribers[i]].inFlight != 0 {
          assert InFlight(model.subs, model.table[i]);
          return true;
        }
      }
      return false;
    }

    method FreeAll()
      requires Valid()
      modifies this
      ensures Valid() && model == Clear(old(model))
    {
      ghost var table := model.table;
      for i := 0 to subscriberCount
        invariant Valid() && subscriberCount == old(subscriberCount)
        invariant |records| == |old(records)| && model == old(model).(subs := records)
        invariant forall x :: 0 <= x < |records| ==>
                    records[x] == if x in table[..i] then old(records)[x].(active := false, freed := true) else old(records)[x]
      {
        var x := subscribers[i];
        records := records[x := records[x].(active := false, freed := true)];
        model := model.(subs := records);
        assert table[..i + 1] == table[..i] + [x];
      }
      assert table[..subscriberCount] == table;
      subscriberCount := 0;
      model := model.(table := []);
      assert model.subs == Clear(old(model)).subs;
    }

    method Subscribe(event: nat, client: nat) returns (r: SysErr, x: nat)
      requires Valid()
      modifies this, subscribers
      ensures Valid() && (model, r) == EventModel.Subscribe(old(model), event, client)
      ensures r == Ok ==> x == |old(records)|
    {
      x := 0;
      if event == 0 || client == 0 {
        return ErrInvalidParam, x;
      }
      if !accepting {
        return ErrClosed, x;
      }
      if subscriberCount >= MAX_SUBSCRIBERS {
        return ErrNoMemory, x;
      }
      for i := 0 to subscriberCount
        invariant forall k :: 0 <= k < i ==> !SameKey(model.subs, model.table[k], event, client)
      {
        if records[subscribers[i]].event == event && records[subscribers[i]].client == client {
          assert SameKey(model.subs, model.table[i], event, client);
          return ErrAlreadyExists, x;
        }
      }
      assert !Taken(model.subs, model.table, event, client);
      x := |records|;
      records := records + [Sub(event, client, true, 0, false)];
      subscribers[subscriberCount] := x;
      subscriberCount := subscriberCount + 1;
      assert subscribers[..subscriberCount] == model.table + [x];
      model := model.(subs := records, table := subscribers[..subscriberCount]);
      return Ok, x;
    }

    /** The first part of an unsubscribe: finds the record in the table and closes the gap it leaves. */
    method Detach(x: nat) returns (found: bool)
      requires Valid()
      modifies this, subscribers
      ensures Valid() && found == (x in old(model).table)
      ensures found ==> x < |old(model).subs| && model == EventModel.Detach(old(model), x)
      ensures !found ==> model == old(model)
    {
      for i := 0 to subscriberCount
        invariant x !in model.table[..i]
      {
        if subscribers[i] == x {
          DetachAt(i);
          return true;
        }
      }
      return false;
    }

    method DetachAt(i: nat)
      requires Valid() && i < subscriberCount && model.table[i] !in model.table[..i]
      modifies this, subscribers
      ensures Valid() && old(model).table[i] < |old(model).subs|
      ensures model == EventModel.Detach(old(model), old(model).table[i])
    {
      hide Queued, Remove;
      EntryAt(i);
      ghost var table := model.table;
      var x := subscribers[i];
      GapIsRemove(table, i, |records|);
      CloseGap(i);
      records := records[x := records[x].(active := false)];
      model := model.(subs := records, table := subscribers[..subscriberCount]);
      QueueStays();
      assert forall k :: 0 <= k < subscriberCount ==> subscribers[k] == subscribers[..subscriberCount][k];
    }

    /** The ring depends on the queue of the model only. */
    twostate lemma QueueStays()
      requires old(Queued()) && unchanged(`head) && unchanged(`queueCount) && unchanged(ring)
      requires model.queue == old(model).queue
      ensures Queued()
    {
    }

    method CloseGap(i: nat)
      requires subscribers.Length == MAX_SUBSCRIBERS && i < subscriberCount <= MAX_SUBSCRIBERS
      modifies this`subscriberCount, subscribers
      ensures subscriberCount == old(subscriberCount) - 1
      ensures subscribers[..subscriberCount] == old(subscribers[..i]) + old(subscribers[i + 1..subscriberCount])
    {
      for j := i + 1 to subscriberCount
        invariant subscriberCount == old(subscriberCount)
        invariant forall k :: 0 <= k < i || j <= k < subscribers.Length ==> subscribers[k] == old(subscribers[k])
        invariant forall k :: i <= k < j - 1 ==> subscribers[k] == old(subscribers[k + 1])
      {
        subscribers[j - 1] := subscribers[j];
      }
      subscriberCount := subscriberCount - 1;
      subscribers[subscriberCount] := 0;
    }

    method Dispose(x: nat)
      requires Valid() && x < |records|
      modifies this
      ensures Valid() && model == EventModel.Dispose(old(model), x)
    {
      records := records[x := records[x].(freed := true)];
      model := model.(subs := records);
    }

    method FinishCallback(x: nat) returns (broadcast: bool)
      requires Valid() && x < |records|
      modifies this
      ensures Valid() && (model, broadcast) == EventModel.FinishCallback(old(model), x)
    {
      if records[x].inFlight > 0 {
        records := records[x := records[x].(inFlight := records[x].inFlight - 1)];
      }
      assert records == old(records)[x := records[x]];
      model := model.(subs := records);
      broadcast := records[x].inFlight == 0;
    }

    /** What a table entry stands for. */
    lemma EntryAt(i: nat)
      requires Valid()
      ensures |model.table| == subscriberCount && model.subs == records
      ensures i < subscriberCount ==> i < subscribers.Length && subscribers[i] == model.table[i] < |records|
    {
    }

    method CountCallback(x: nat)
      requires Valid() && x < |records|
      modifies this`records, this`model
      ensures Valid()
      ensures model == old(model).(subs := old(records)[x := old(records)[x].(inFlight := old(records)[x].inFlight + 1)])
    {
      records := records[x := records[x].(inFlight := records[x].inFlight + 1)];
      model := model.(subs := records);
    }

    /** Retains every registered subscriber of an event. */
    method RetainMatchingSubscribers(event: nat) returns (targets: seq<nat>)
      requires Valid() && Distinct(model.table)
      modifies this`records, this`model
      ensures Valid() && targets == Matching(old(model).subs, old(model).table, event)
      ensures model == old(model).(subs := Retain(old(model).subs, targets))
    {
      hide Valid, Matching, Retain, Distinct;
      ghost var subs, table := model.subs, model.table;
      targets := [];
      MatchingNothing(subs, event);
      EntryAt(0);
      assert table[..0] == [];
      for i := 0 to subscriberCount
        invariant Valid() && targets == Matching(subs, table[..i], event)
        invariant model == old(model).(subs := Retain(subs, targets))
      {
        EntryAt(i);
        MatchingNext(subs, table, i, event);
        FreshTarget(subs, table, i, event);
        var x := subscribers[i];
        RetainKeepsKeys(subs, targets, x);
        if records[x].active && records[x].event == event {
          RetainOneMore(subs, targets, x);
          CountCallback(x);
          targets := targets + [x];
        }
      }
      assert table[..subscriberCount] == table;
    }

    method PublishSync(event: nat) returns (r: SysErr, targets: seq<nat>)
      requires Valid() && Distinct(model.table)
      modifies this
      ensures Valid() && (model, targets, r) == EventModel.PublishSync(old(model), event)
    {
      targets := [];
      if event == 0 {
        return ErrInvalidParam, targets;
      }
      if !accepting {
        return ErrClosed, targets;
      }
      targets := RetainMatchingSubscribers(event);
      return Ok, targets;
    }

    /** The queued event carries its own copy of the caller's bytes. */
    method PublishAsync(event: nat, data: array<Byte>) returns (r: SysErr)
      requires Valid() && Distinct(model.table)
      modifies this, ring
      ensures Valid() && (model, r) == EventModel.PublishAsync(old(model), event, old(data[..]))
    {
      hide Valid, Matching, Retain, Distinct;
      QueueIsCounted();
      if event == 0 || data.Length > MAX_PAYLOAD {
        return ErrInvalidParam;
      }
      var payload := data[..];
      if !accepting {
        return ErrClosed;
      }
      if queueCount >= QUEUE_CAPACITY {
        return ErrQueueFull;
      }
      var targets := RetainMatchingSubscribers(event);
      MatchingNothing(old(model).subs, event);
      if targets == [] {
        return Ok;
      }
      Enqueue(Work(event, payload, targets));
      return Ok;
    }

    method Enqueue(w: Work)
      requires Valid() && queueCount < QUEUE_CAPACITY
      modifies this`queueCount, this`model, ring
      ensures Valid() && model == old(model).(queue := old(model).queue + [w])
    {
      SlotIsMod(head, queueCount, QUEUE_CAPACITY);
      var index := (head + queueCount) % QUEUE_CAPACITY;
      ring[index] := w;
      queueCount := queueCount + 1;
      model := model.(queue := model.queue + [w]);
    }

    lemma QueueIsCounted()
      requires Valid()
      ensures queueCount == |model.queue| && accepting == model.accepting
    {
    }

    method TakeWork() returns (w: Work)
      requires Valid() && queueCount > 0
      modifies this, ring
      ensures Valid() && old(model).queue != [] && (model, w) == EventModel.TakeWork(old(model))
    {
      ghost var first, queue := head, model.queue;
      assert Slot(head, 0, QUEUE_CAPACITY) == head;
      w := ring[head];
      ring[head] := Work(0, [], []);
      SlotIsMod(head, 1, QUEUE_CAPACITY);
      head := (head + 1) % QUEUE_CAPACITY;
      queueCount := queueCount - 1;
      model := model.(queue := model.queue[1..]);
      forall i | 0 <= i < queueCount
        ensures ring[Slot(head, i, QUEUE_CAPACITY)] == queue[1..][i]
      {
        SlotShifts(first, i, QUEUE_CAPACITY);
      }
    }
  }
}
