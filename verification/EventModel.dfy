/** The event bus as a value: one function per section the program runs under the bus mutex. */
module EventModel {
  import opened SysTypes

  const MAX_SUBSCRIBERS: nat := 64
  const QUEUE_CAPACITY: nat := 64
  const MAX_PAYLOAD: nat := 65536

  type Byte = x: int | 0 <= x < 256
  type Payload = seq<Byte>

  /** A subscription record. `client` stands for callback and private data; 0 is a null callback. */
  datatype Sub = Sub(event: nat, client: nat, active: bool, inFlight: nat, freed: bool)

  /** A queued event: its own copy of the payload and the subscribers retained for it. */
  datatype Work = Work(event: nat, payload: Payload, targets: seq<nat>)

  /** `subs` holds every record ever allocated (its index is its address); `table` the registered ones. */
  datatype Bus = Bus(subs: seq<Sub>, table: seq<nat>, queue: seq<Work>, running: bool, accepting: bool)

  predicate Matches(subs: seq<Sub>, x: nat, event: nat) {
    x < |subs| && subs[x].active && subs[x].event == event
  }

  /** The registered subscribers of an event, in table order. */
  function Matching(subs: seq<Sub>, table: seq<nat>, event: nat): seq<nat> {
    if table == [] then []
    else
      var x := table[|table| - 1];
      var before := Matching(subs, table[..|table| - 1], event);
      if Matches(subs, x, event) then before + [x] else before
  }

  function Retain(subs: seq<Sub>, targets: seq<nat>): (r: seq<Sub>)
    ensures |r| == |subs|
  {
    seq(|subs|, x requires 0 <= x < |subs| =>
      if x in targets then subs[x].(inFlight := subs[x].inFlight + 1) else subs[x])
  }

  predicate SameKey(subs: seq<Sub>, x: nat, event: nat, client: nat) {
    x < |subs| && subs[x].event == event && subs[x].client == client
  }

  predicate Taken(subs: seq<Sub>, table: seq<nat>, event: nat, client: nat) {
    exists k :: 0 <= k < |table| && SameKey(subs, table[k], event, client)
  }

  function Subscribe(b: Bus, event: nat, client: nat): (Bus, SysErr) {
    if event == 0 || client == 0 then (b, ErrInvalidParam)
    else if !b.accepting then (b, ErrClosed)
    else if |b.table| >= MAX_SUBSCRIBERS then (b, ErrNoMemory)
    else if Taken(b.subs, b.table, event, client) then (b, ErrAlreadyExists)
    else (b.(subs := b.subs + [Sub(event, client, true, 0, false)], table := b.table + [|b.subs|]), Ok)
  }

  /** The table without the first entry equal to `x`, in the same order. */
  function Remove(table: seq<nat>, x: nat): (r: seq<nat>)
    ensures |r| <= |table|
  {
    if table == [] then []
    else if table[0] == x then table[1..]
    else [table[0]] + Remove(table[1..], x)
  }

  /** The first part of an unsubscribe: the record leaves the table and becomes inactive. */
  function Detach(b: Bus, x: nat): Bus
    requires x < |b.subs|
  {
    b.(table := Remove(b.table, x), subs := b.subs[x := b.subs[x].(active := false)])
  }

  function Dispose(b: Bus, x: nat): Bus
    requires x < |b.subs|
  {
    b.(subs := b.subs[x := b.subs[x].(freed := true)])
  }

  /** finish_callback; the flag tells whether it broadcasts. */
  function FinishCallback(b: Bus, x: nat): (Bus, bool)
    requires x < |b.subs|
  {
    var n := if b.subs[x].inFlight > 0 then b.subs[x].inFlight - 1 else 0;
    (b.(subs := b.subs[x := b.subs[x].(inFlight := n)]), n == 0)
  }

  function PublishSync(b: Bus, event: nat): (Bus, seq<nat>, SysErr) {
    if event == 0 then (b, [], ErrInvalidParam)
    else if !b.accepting then (b, [], ErrClosed)
    else
      var targets := Matching(b.subs, b.table, event);
      (b.(subs := Retain(b.subs, targets)), targets, Ok)
  }

  function PublishAsync(b: Bus, event: nat, payload: Payload): (Bus, SysErr) {
    if event == 0 || |payload| > MAX_PAYLOAD then (b, ErrInvalidParam)
    else if !b.accepting then (b, ErrClosed)
    else if |b.queue| >= QUEUE_CAPACITY then (b, ErrQueueFull)
    else
      var targets := Matching(b.subs, b.table, event);
      if targets == [] then (b, Ok)
      else (b.(subs := Retain(b.subs, targets), queue := b.queue + [Work(event, payload, targets)]), Ok)
  }

  function TakeWork(b: Bus): (Bus, Work)
    requires b.queue != []
  {
    (b.(queue := b.queue[1..]), b.queue[0])
  }

  function Start(b: Bus): (Bus, SysErr) {
    if b.running then (b, ErrState) else (b.(queue := [], running := true, accepting := true), Ok)
  }

  /** The first part of a stop; the flag tells whether there is a worker to join. */
  function BeginStop(b: Bus): (Bus, bool) {
    (b.(running := false, accepting := false), b.running)
  }

  predicate InFlight(subs: seq<Sub>, x: nat) {
    x < |subs| && subs[x].inFlight != 0
  }

  /** has_in_flight_callbacks */
  predicate AnyInFlight(b: Bus) {
    exists k :: 0 <= k < |b.table| && InFlight(b.subs, b.table[k])
  }

  /** The last part of a stop: every registered subscription is freed. */
  function Clear(b: Bus): (r: Bus)
    ensures |r.subs| == |b.subs|
  {
    b.(subs := seq(|b.subs|, x requires 0 <= x < |b.subs| =>
                 if x in b.table then b.subs[x].(active := false, freed := true) else b.subs[x]),
       table := [])
  }

  // ----- facts about the table

  lemma {:induction false} RemoveIs(table: seq<nat>, x: nat)
    requires Distinct(table)
    ensures Distinct(Remove(table, x))
    ensures forall y :: y in Remove(table, x) <==> y in table && y != x
    ensures |Remove(table, x)| == |table| - if x in table then 1 else 0
  {
    if table != [] {
      var rest := table[1..];
      assert table == [table[0]] + rest;
      DistinctTail(table);
      if table[0] != x {
        RemoveIs(rest, x);
        DistinctCons(table[0], Remove(rest, x));
      }
    }
  }

  lemma DistinctTail(s: seq<nat>)
    requires Distinct(s) && s != []
    ensures Distinct(s[1..]) && s[0] !in s[1..]
  {
    forall k | 0 <= k < |s| - 1
      ensures s[1..][k] !in s[1..][..k] && s[1..][k] != s[0]
    {
      assert s[..k + 1] == [s[0]] + s[1..][..k];
      assert s[k + 1] !in s[..k + 1];
    }
  }

  lemma DistinctCons(x: nat, s: seq<nat>)
    requires Distinct(s) && x !in s
    ensures Distinct([x] + s)
  {
    var t := [x] + s;
    forall k | 0 <= k < |t|
      ensures t[k] !in t[..k]
    {
      if k > 0 {
        assert t[..k] == [x] + s[..k - 1];
      }
    }
  }

  /** A publish retains exactly the registered subscribers of the event, each once. */
  lemma {:induction false} MatchingIs(subs: seq<Sub>, table: seq<nat>, event: nat)
    requires Distinct(table)
    ensures Distinct(Matching(subs, table, event))
    ensures forall x :: x in Matching(subs, table, event) <==> x in table && Matches(subs, x, event)
  {
    if table != [] {
      var n := |table| - 1;
      assert table == table[..n] + [table[n]];
      DistinctSplit(table[..n], table[n]);
      MatchingIs(subs, table[..n], event);
      if Matches(subs, table[n], event) {
        DistinctSnoc(Matching(subs, table[..n], event), table[n]);
      }
    }
  }

  lemma {:induction false} DistinctMultiplicity(s: seq<nat>, x: nat)
    requires Distinct(s)
    ensures multiset(s)[x] == if x in s then 1 else 0
  {
    if s != [] {
      var n := |s| - 1;
      assert s == s[..n] + [s[n]];
      DistinctSplit(s[..n], s[n]);
      DistinctMultiplicity(s[..n], x);
    }
  }
}
