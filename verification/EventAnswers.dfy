/** What each call of the event bus answers and changes, who is registered for how long, and whom a publish reaches. */
module EventAnswers {
  import opened SysTypes
  import opened Sums
  import opened EventModel
  import opened EventSteps
  import opened EventProofs
  import opened EventTheorems

  // ----- subscribe

  ghost predicate Registered(b: Bus, x: nat) {
    x in b.table && x < |b.subs|
  }

  ghost predicate HasKey(b: Bus, x: nat, event: nat, client: nat) {
    Registered(b, x) && b.subs[x].event == event && b.subs[x].client == client
  }

  /** The errors of a subscribe in the order they are looked for, and the one new record of a successful one. */
  lemma SubscribeAnswers(s: Sys, t: nat, event: nat, client: nat)
    requires Inv(s) && Ready(s, t, DoSubscribe(event, client))
    ensures var s' := Step(s, t, DoSubscribe(event, client));
            var (b, b', r) := (s.bus, s'.bus, s'.threads[t].result);
            && s'.threads == s.threads[t := s.threads[t].(result := r)]
            && (r == ErrInvalidParam <==> event == 0 || client == 0)
            && (r == ErrClosed <==> event != 0 && client != 0 && !b.accepting)
            && (r == ErrNoMemory <==> event != 0 && client != 0 && b.accepting && |b.table| == MAX_SUBSCRIBERS)
            && (r == ErrAlreadyExists <==>
                  && event != 0 && client != 0 && b.accepting && |b.table| < MAX_SUBSCRIBERS
                  && exists x :: HasKey(b, x, event, client))
            && (r == Ok <==>
                  && event != 0 && client != 0 && b.accepting && |b.table| < MAX_SUBSCRIBERS
                  && !exists x :: HasKey(b, x, event, client))
            && (r != Ok ==> b' == b)
            && (r == Ok ==>
                  && |b'.subs| == |b.subs| + 1 && b'.subs[..|b.subs|] == b.subs && b'.table == b.table + [|b.subs|]
                  && HasKey(b', |b.subs|, event, client) && b'.subs[|b.subs|].inFlight == 0
                  && b'.subs[|b.subs|].active && !b'.subs[|b.subs|].freed
                  && b'.queue == b.queue && b'.running == b.running && b'.accepting == b.accepting)
  {
    hide Counted, InOrder, UniqueKeys, WorkerAccounted, WaitsDistinct, ThreadsOk, SubOk, Distinct;
    var b := s.bus;
    assert RouseAll(s.threads[t := s.threads[t].(result := Subscribe(b, event, client).1)], false, false)
        == s.threads[t := s.threads[t].(result := Subscribe(b, event, client).1)];
    TakenIsKey(b, event, client);
  }

  lemma TakenIsKey(b: Bus, event: nat, client: nat)
    requires forall x :: x in b.table ==> x < |b.subs|
    ensures Taken(b.subs, b.table, event, client) <==> exists x :: HasKey(b, x, event, client)
  {
    if exists x :: HasKey(b, x, event, client) {
      var x :| HasKey(b, x, event, client);
      var k :| 0 <= k < |b.table| && b.table[k] == x;
      assert SameKey(b.subs, b.table[k], event, client);
    }
    if Taken(b.subs, b.table, event, client) {
      var k :| 0 <= k < |b.table| && SameKey(b.subs, b.table[k], event, client);
      assert HasKey(b, b.table[k], event, client);
    }
  }

  // ----- how long a subscription lasts

  /** The steps that can take `x` out of the table: its own unsubscribe outside callbacks, and a stop that ends. */
  ghost predicate Detaches(s: Sys, t: nat, a: Action, x: nat)
    requires Ready(s, t, a)
  {
    || (a == DoUnsubscribe(x) && !InCallback(s.threads[t]))
    || (a.StopResume? && Step(s, t, a).threads[t].mode.Free?)
  }

  lemma OwnMode(s: Sys, t: nat, a: Action)
    requires Inv(s) && Ready(s, t, a)
    ensures var (e, s') := (EffectOf(s, t, a), Step(s, t, a));
            && s'.bus == e.bus && |s'.threads| == |s.threads|
            && s'.threads[t].result == e.next.result && s'.threads[t].stack == e.next.stack
            && (s'.threads[t].mode.Free? <==> e.next.mode.Free?)
  {
    hide Counted, InOrder, UniqueKeys, WorkerAccounted, WaitsDistinct, BusOk, StackOk;
    hide Detach, Dispose, Clear, TakeWork, AnyInFlight, PublishSync, PublishAsync, Subscribe, Start, BeginStop, FinishCallback;
    assert ThreadOk(s.bus, s.threads[t], t);
  }

  /** What any step does to the registration of `x`. */
  ghost predicate RegistrationKept(s: Sys, t: nat, a: Action, x: nat)
    requires Ready(s, t, a)
  {
    var e := EffectOf(s, t, a);
    && |s.bus.subs| <= |e.bus.subs|
    && (x < |s.bus.subs| ==> e.bus.subs[x].event == s.bus.subs[x].event && e.bus.subs[x].client == s.bus.subs[x].client)
    && (x in e.bus.table <==>
          || (x in s.bus.table && !(a == DoUnsubscribe(x) && !InCallback(s.threads[t]))
              && !(a.StopResume? && e.next.mode.Free?))
          || (a.DoSubscribe? && e.next.result == Ok && x == |s.bus.subs|))
  }

  lemma UnsubscribeRegistration(s: Sys, t: nat, y: nat, x: nat)
    requires BusOk(s.bus) && Ready(s, t, DoUnsubscribe(y))
    ensures RegistrationKept(s, t, DoUnsubscribe(y), x)
  {
    RemoveIs(s.bus.table, y);
  }

  lemma PlainRegistration(s: Sys, t: nat, a: Action, x: nat)
    requires Inv(s) && Ready(s, t, a) && !a.DoUnsubscribe?
    ensures RegistrationKept(s, t, a, x)
  {
    hide Counted, InOrder, UniqueKeys, WorkerAccounted, WaitsDistinct, StackOk, Matching, Distinct, SubOk;
    assert ThreadOk(s.bus, s.threads[t], t);
  }

  lemma RegistrationStep(s: Sys, t: nat, a: Action, x: nat)
    requires Inv(s) && Ready(s, t, a)
    ensures var s' := Step(s, t, a);
            && |s.bus.subs| <= |s'.bus.subs|
            && (x < |s.bus.subs| ==>
                  s'.bus.subs[x].event == s.bus.subs[x].event && s'.bus.subs[x].client == s.bus.subs[x].client)
            && (x in s'.bus.table <==>
                  || (x in s.bus.table && !Detaches(s, t, a, x))
                  || (a.DoSubscribe? && s'.threads[t].result == Ok && x == |s.bus.subs|))
  {
    hide EffectOf, Step, Counted, InOrder, UniqueKeys, WorkerAccounted, WaitsDistinct, ThreadsOk, BusOk;
    OwnMode(s, t, a);
    if a.DoUnsubscribe? {
      UnsubscribeRegistration(s, t, a.sub, x);
    } else {
      PlainRegistration(s, t, a, x);
    }
  }

  ghost predicate NeverDetached(s: Sys, turns: seq<Turn>, x: nat)
    requires Runs(s, turns)
    decreases |turns|
  {
    turns != [] ==>
      !Detaches(s, turns[0].t, turns[0].a, x) && NeverDetached(Step(s, turns[0].t, turns[0].a), turns[1..], x)
  }

  /** Over any run a registered subscription keeps its event and its client, and stays registered until it is detached. */
  lemma {:induction false} StaysRegistered(s: Sys, turns: seq<Turn>, x: nat)
    requires Inv(s) && Runs(s, turns) && Registered(s.bus, x) && NeverDetached(s, turns, x)
    ensures var b' := After(s, turns).bus;
            HasKey(b', x, s.bus.subs[x].event, s.bus.subs[x].client)
    decreases |turns|
  {
    hide Inv, Ready, Step, Detaches;
    if turns != [] {
      RegistrationStep(s, turns[0].t, turns[0].a, x);
      StepKeepsInv(s, turns[0].t, turns[0].a);
      StaysRegistered(Step(s, turns[0].t, turns[0].a), turns[1..], x);
    }
  }

  // ----- publish

  /** The answer of a synchronous publish that calls nobody, and the frame of one that is accepted. */
  lemma SyncAnswers(s: Sys, t: nat, event: nat, payload: Payload)
    requires Inv(s) && Ready(s, t, DoPublishSync(event, payload))
    ensures var s' := Step(s, t, DoPublishSync(event, payload));
            var (th, th') := (s.threads[t], s'.threads[t]);
            && (th'.stack == th.stack <==> event == 0 || !s.bus.accepting)
            && (th'.stack == th.stack ==>
                  && s'.bus == s.bus && th' == th.(result := if event == 0 then ErrInvalidParam else ErrClosed))
            && (th'.stack != th.stack ==> |th'.stack| == |th.stack| + 1 && PublishSync(s.bus, event).2 == Ok)
  {
  }

  /** Somebody is registered for the event. */
  ghost predicate Heard(b: Bus, event: nat) {
    exists x: nat :: Registered(b, x) && b.subs[x].event == event
  }

  lemma MatchingIsHeard(b: Bus, event: nat)
    requires BusOk(b)
    ensures Matching(b.subs, b.table, event) != [] <==> Heard(b, event)
  {
    hide Matching;
    MatchingIs(b.subs, b.table, event);
    var targets := Matching(b.subs, b.table, event);
    if targets != [] {
      assert targets[0] in targets;
      assert Registered(b, targets[0]);
    }
    if Heard(b, event) {
      var x: nat :| Registered(b, x) && b.subs[x].event == event;
      assert SubOk(b.subs, b.table, x);
    }
  }

  /** The answer of an asynchronous publish, and the one event it queues if anybody is registered. */
  lemma AsyncAnswers(s: Sys, t: nat, event: nat, payload: Payload)
    requires Inv(s) && Ready(s, t, DoPublishAsync(event, payload))
    ensures var s' := Step(s, t, DoPublishAsync(event, payload));
            var (b, b', r) := (s.bus, s'.bus, s'.threads[t].result);
            && s'.threads[t].stack == s.threads[t].stack
            && (r == ErrInvalidParam <==> event == 0 || |payload| > MAX_PAYLOAD)
            && (r == ErrClosed <==> event != 0 && |payload| <= MAX_PAYLOAD && !b.accepting)
            && (r == ErrQueueFull <==>
                  event != 0 && |payload| <= MAX_PAYLOAD && b.accepting && |b.queue| == QUEUE_CAPACITY)
            && (r == Ok <==> event != 0 && |payload| <= MAX_PAYLOAD && b.accepting && |b.queue| < QUEUE_CAPACITY)
            && (if r == Ok && Heard(b, event) then
                  && |b'.queue| == |b.queue| + 1 && b'.queue[..|b.queue|] == b.queue
                  && b'.queue[|b.queue|].event == event && b'.queue[|b.queue|].payload == payload
                else b' == b)
  {
    hide Counted, InOrder, UniqueKeys, WorkerAccounted, WaitsDistinct, ThreadsOk, SubOk, Distinct, Matching, NextThreads;
    OwnMode(s, t, DoPublishAsync(event, payload));
    MatchingIsHeard(s.bus, event);
    hide Heard;
  }

  /** Whom publishes of `event` made by thread `t` now would reach, if they are accepted: `x` exactly if it is `heard`. */
  ghost predicate Reaches(s: Sys, t: nat, event: nat, payload: Payload, x: nat, heard: bool) {
    && (Ready(s, t, DoPublishSync(event, payload)) && PublishSync(s.bus, event).2 == Ok ==>
          var th' := Step(s, t, DoPublishSync(event, payload)).threads[t];
          th'.stack != [] && (x in Top(th').targets <==> heard))
    && (Ready(s, t, DoPublishAsync(event, payload)) && PublishAsync(s.bus, event, payload).1 == Ok ==>
          var d := NewlyAccepted(s, t, DoPublishAsync(event, payload));
          Delivery(event, payload, x) in d <==> heard)
  }

  lemma RegisteredIsReached(s: Sys, t: nat, event: nat, payload: Payload, x: nat)
    requires Inv(s) && Registered(s.bus, x)
    ensures Reaches(s, t, event, payload, x, s.bus.subs[x].event == event)
  {
    hide Inv, Step, NewlyAccepted, PublishSync, PublishAsync, Ready;
    if Ready(s, t, DoPublishSync(event, payload)) && PublishSync(s.bus, event).2 == Ok {
      SyncTargets(s, t, event, payload);
    }
    if Ready(s, t, DoPublishAsync(event, payload)) && PublishAsync(s.bus, event, payload).1 == Ok {
      AcceptedForRegistered(s, t, event, payload);
    }
  }

  /** After a subscribe that answered OK, over any run in which the new record is not detached: every publish of that
      event which is accepted reaches it, and no publish of another event does. */
  lemma SubscriberIsServed(s: Sys, t: nat, event: nat, client: nat, turns: seq<Turn>, i: nat, other: nat, payload: Payload)
    requires Inv(s) && Ready(s, t, DoSubscribe(event, client))
    requires Step(s, t, DoSubscribe(event, client)).threads[t].result == Ok
    requires Runs(Step(s, t, DoSubscribe(event, client)), turns)
    requires NeverDetached(Step(s, t, DoSubscribe(event, client)), turns, |s.bus.subs|)
    ensures var (s', x) := (After(Step(s, t, DoSubscribe(event, client)), turns), |s.bus.subs|);
            HasKey(s'.bus, x, event, client) && Reaches(s', i, other, payload, x, other == event)
  {
    hide Inv, Ready, Step, NeverDetached, Runs, After, Reaches;
    var s1 := Step(s, t, DoSubscribe(event, client));
    SubscribeAnswers(s, t, event, client);
    StepKeepsInv(s, t, DoSubscribe(event, client));
    StaysRegistered(s1, turns, |s.bus.subs|);
    RunKeepsInv(s1, turns);
    RegisteredIsReached(After(s1, turns), i, other, payload, |s.bus.subs|);
  }

  // ----- the order of subscription

  /** Strictly increasing: records are numbered in the order they were subscribed. */
  ghost predicate Increasing(s: seq<nat>) {
    forall i, j :: 0 <= i < j < |s| ==> s[i] < s[j]
  }

  lemma {:induction false} RemoveIncreases(table: seq<nat>, x: nat)
    requires Increasing(table)
    ensures Increasing(Remove(table, x))
    ensures forall y :: y in Remove(table, x) ==> y in table
  {
    if table != [] && table[0] != x {
      RemoveIncreases(table[1..], x);
      var r := Remove(table[1..], x);
      forall k | 0 <= k < |r|
        ensures table[0] < r[k]
      {
        assert r[k] in table[1..];
      }
    }
  }

  lemma {:induction false} MatchingIncreases(subs: seq<Sub>, table: seq<nat>, event: nat)
    requires Increasing(table)
    ensures Increasing(Matching(subs, table, event))
    ensures forall y :: y in Matching(subs, table, event) ==> y in table
  {
    if table != [] {
      var n := |table| - 1;
      MatchingIncreases(subs, table[..n], event);
      var before := Matching(subs, table[..n], event);
      forall k | 0 <= k < |before|
        ensures before[k] < table[n]
      {
        assert before[k] in table[..n];
      }
    }
  }

  lemma AppendIncreases(table: seq<nat>, x: nat)
    requires Increasing(table) && forall y :: y in table ==> y < x
    ensures Increasing(table + [x])
  {
    assert forall k :: 0 <= k < |table| ==> table[k] in table;
  }

  lemma IncreasingStep(s: Sys, t: nat, a: Action)
    requires Inv(s) && Ready(s, t, a) && Increasing(s.bus.table)
    ensures Increasing(Step(s, t, a).bus.table)
  {
    hide Counted, InOrder, UniqueKeys, WorkerAccounted, WaitsDistinct, ThreadsOk, SubOk, Distinct, NextThreads, Matching;
    if a.DoUnsubscribe? {
      RemoveIncreases(s.bus.table, a.sub);
    } else if a.DoSubscribe? {
      AppendIncreases(s.bus.table, |s.bus.subs|);
    }
  }

  lemma {:induction false} TableIncreases(s: Sys, turns: seq<Turn>)
    requires Inv(s) && Increasing(s.bus.table) && Runs(s, turns)
    ensures Increasing(After(s, turns).bus.table)
    decreases |turns|
  {
    hide Inv, Ready, Step, Increasing;
    if turns != [] {
      IncreasingStep(s, turns[0].t, turns[0].a);
      StepKeepsInv(s, turns[0].t, turns[0].a);
      TableIncreases(Step(s, turns[0].t, turns[0].a), turns[1..]);
    }
  }

  /** Over every run, subscribers of one event are called in the order in which they subscribed. */
  lemma CalledInOrderOfSubscription(s: Sys, turns: seq<Turn>, t: nat, event: nat, payload: Payload)
    requires Initial(s) && Runs(s, turns)
    ensures var s' := After(s, turns);
            && (Ready(s', t, DoPublishSync(event, payload)) && PublishSync(s'.bus, event).2 == Ok ==>
                  var th' := Step(s', t, DoPublishSync(event, payload)).threads[t];
                  th'.stack != [] && Increasing(Top(th').targets))
            && (Ready(s', t, DoPublishAsync(event, payload)) ==>
                  var d := NewlyAccepted(s', t, DoPublishAsync(event, payload));
                  forall i, j :: 0 <= i < j < |d| ==> d[i].sub < d[j].sub)
  {
    hide Runs, After, Inv, Increasing;
    InitialInv(s);
    RunKeepsInv(s, turns);
    NothingIncreases();
    TableIncreases(s, turns);
    var s' := After(s, turns);
    MatchingIncreases(s'.bus.subs, s'.bus.table, event);
    PublishIncreases(s', t, event, payload);
  }

  lemma NothingIncreases()
    ensures Increasing([])
  {
  }

  lemma PublishIncreases(s: Sys, t: nat, event: nat, payload: Payload)
    requires Increasing(Matching(s.bus.subs, s.bus.table, event))
    ensures Ready(s, t, DoPublishSync(event, payload)) && PublishSync(s.bus, event).2 == Ok ==>
              var th' := Step(s, t, DoPublishSync(event, payload)).threads[t];
              th'.stack != [] && Increasing(Top(th').targets)
    ensures Ready(s, t, DoPublishAsync(event, payload)) ==>
              var d := NewlyAccepted(s, t, DoPublishAsync(event, payload));
              forall i, j :: 0 <= i < j < |d| ==> d[i].sub < d[j].sub
  {
    hide Matching, Retain;
  }

  // ----- start, stop and unsubscribe

  /** An unsubscribe is refused inside a callback, then for an unknown record. Otherwise the record leaves the table, and
      the call answers OK at once, freeing it, exactly if none of its callbacks is in flight. */
  lemma UnsubscribeAnswers(s: Sys, t: nat, x: nat)
    requires Inv(s) && Ready(s, t, DoUnsubscribe(x))
    ensures var s' := Step(s, t, DoUnsubscribe(x));
            var (b, b', th') := (s.bus, s'.bus, s'.threads[t]);
            && th'.stack == s.threads[t].stack
            && (InCallback(s.threads[t]) ==> th'.result == ErrBusy && b' == b)
            && (!InCallback(s.threads[t]) && !Registered(b, x) ==> th'.result == ErrNotFound && b' == b)
            && (!InCallback(s.threads[t]) && Registered(b, x) ==>
                  && |b'.subs| == |b.subs| && Detached(s', x) && |b'.table| == |b.table| - 1
                  && (forall y :: y in b'.table <==> y in b.table && y != x)
                  && (forall y :: 0 <= y < |b.subs| && y != x ==> b'.subs[y] == b.subs[y])
                  && (if b.subs[x].inFlight == 0 then th'.mode.Free? && th'.result == Ok && b'.subs[x].freed
                      else th'.mode == UnsubWait(x, false) && !b'.subs[x].freed))
  {
    hide Counted, InOrder, UniqueKeys, WorkerAccounted, WaitsDistinct, StackOk;
    assert ThreadOk(s.bus, s.threads[t], t);
    RemoveIs(s.bus.table, x);
    if Registered(s.bus, x) {
      assert SubOk(s.bus.subs, s.bus.table, x);
    }
  }

  /** A waiting unsubscribe that looks again answers OK, freeing its record, exactly if nothing is in flight any more. */
  lemma UnsubscribeResumes(s: Sys, t: nat)
    requires Inv(s) && Ready(s, t, UnsubResume)
    ensures var (x, s') := (s.threads[t].mode.sub, Step(s, t, UnsubResume));
            && x < |s'.bus.subs| && s'.bus.table == s.bus.table
            && (if Outstanding(s, x) == 0 then
                  s'.threads[t].mode.Free? && s'.threads[t].result == Ok && s'.bus.subs[x].freed
                else s'.threads[t].mode == UnsubWait(x, false) && s'.bus == s.bus)
  {
    hide InOrder, UniqueKeys, WorkerAccounted, WaitsDistinct, StackOk, Outstanding;
    assert s.bus.subs[s.threads[t].mode.sub].inFlight == Outstanding(s, s.threads[t].mode.sub);
  }

  /** A start is refused exactly on a running bus; otherwise the bus runs, accepts, and has an empty queue and a worker. */
  lemma StartAnswers(s: Sys, t: nat)
    requires Inv(s) && Ready(s, t, DoStart)
    ensures var s' := Step(s, t, DoStart);
            && s'.bus.subs == s.bus.subs && s'.bus.table == s.bus.table && s'.threads[t].mode.Free?
            && (s'.threads[t].result == ErrState <==> s.bus.running)
            && (s.bus.running ==> s'.bus == s.bus)
            && (!s.bus.running ==>
                  && s'.threads[t].result == Ok && s'.bus.running && s'.bus.accepting && s'.bus.queue == []
                  && s'.threads[WORKER] == Thread(Looping, [], Ok))
  {
    hide Counted, InOrder, UniqueKeys, WorkerAccounted, WaitsDistinct, BusOk;
  }

  /** A stop ends acceptance at once; it waits for the worker exactly if the bus was running, and otherwise answers OK. */
  lemma StopAnswers(s: Sys, t: nat)
    requires Inv(s) && Ready(s, t, DoStop)
    ensures var s' := Step(s, t, DoStop);
            && !s'.bus.running && !s'.bus.accepting
            && s'.bus.subs == s.bus.subs && s'.bus.table == s.bus.table && s'.bus.queue == s.bus.queue
            && (s'.threads[t].mode.Joining? <==> s.bus.running)
            && (!s.bus.running ==> s'.threads[t].mode.Free? && s'.threads[t].result == Ok)
            && s'.threads[WORKER].mode != Sleeping(false)
  {
    hide Counted, InOrder, UniqueKeys, WorkerAccounted, WaitsDistinct, BusOk;
    assert ThreadOk(s.bus, s.threads[WORKER], WORKER) && ThreadOk(s.bus, s.threads[t], t);
  }

  lemma AcceptingStep(s: Sys, t: nat, a: Action)
    requires Inv(s) && Ready(s, t, a)
    ensures var s' := Step(s, t, a);
            && (a.DoStart? ==> s'.bus.running && (s.bus.running || s'.bus.accepting))
            && (a.DoStop? ==> !s'.bus.running && !s'.bus.accepting)
            && (!a.DoStart? && !a.DoStop? ==> s'.bus.accepting == s.bus.accepting && s'.bus.running == s.bus.running)
  {
    hide Counted, InOrder, UniqueKeys, WorkerAccounted, WaitsDistinct, ThreadsOk, BusOk, NextThreads, Matching, Remove;
  }

  ghost predicate NeverStopped(turns: seq<Turn>) {
    forall k :: 0 <= k < |turns| ==> !turns[k].a.DoStop?
  }

  /** A bus that accepts goes on accepting over any run without a stop. */
  lemma {:induction false} AcceptsUntilStopped(s: Sys, turns: seq<Turn>)
    requires Inv(s) && Runs(s, turns) && s.bus.accepting && s.bus.running && NeverStopped(turns)
    ensures After(s, turns).bus.accepting && After(s, turns).bus.running
    decreases |turns|
  {
    hide Ready, Step, Inv;
    if turns != [] {
      StepKeepsInv(s, turns[0].t, turns[0].a);
      if turns[0].a.DoStart? {
        StartAnswers(s, turns[0].t);
      }
      AcceptingStep(s, turns[0].t, turns[0].a);
      AcceptsUntilStopped(Step(s, turns[0].t, turns[0].a), turns[1..]);
    }
  }
}
