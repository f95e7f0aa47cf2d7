/** What the service registry promises in every reachable state, and where two overlapping drains go wrong. */
module ServiceTheorems {
  import opened SysTypes
  import opened Sums
  import opened ServiceModel
  import opened ServiceSteps

  datatype Turn = Turn(t: nat, a: Action)

  ghost predicate Runs(s: Sys, turns: seq<Turn>)
    decreases |turns|
  {
    turns != [] ==> Ready(s, turns[0].t, turns[0].a) && Runs(Step(s, turns[0].t, turns[0].a), turns[1..])
  }

  ghost function After(s: Sys, turns: seq<Turn>): Sys
    requires Runs(s, turns)
    decreases |turns|
  {
    if turns == [] then s else After(Step(s, turns[0].t, turns[0].a), turns[1..])
  }

  ghost predicate Initial(s: Sys) {
    && |s.slots| == SLOT_COUNT && (forall k :: 0 <= k < SLOT_COUNT ==> s.slots[k] == EMPTY)
    && forall t :: 0 <= t < |s.threads| ==> s.threads[t] == Thread(Free, [], Ok)
  }

  lemma InitialInv(s: Sys)
    requires Initial(s)
    ensures Inv(s)
  {
    forall k | 0 <= k < |s.slots|
      ensures Sum(s.threads, ThreadRefs(k)) == 0
    {
      SumZero(s.threads, ThreadRefs(k));
    }
  }

  lemma {:induction false} RunKeepsInv(s: Sys, turns: seq<Turn>)
    requires Inv(s) && Runs(s, turns)
    ensures Inv(After(s, turns))
    decreases |turns|
  {
    hide Inv, Ready, Step;
    if turns != [] {
      StepKeepsInv(s, turns[0].t, turns[0].a);
      RunKeepsInv(Step(s, turns[0].t, turns[0].a), turns[1..]);
    }
  }

  lemma Reachable(s: Sys, turns: seq<Turn>)
    requires Initial(s) && Runs(s, turns)
    ensures Inv(After(s, turns))
  {
    InitialInv(s);
    RunKeepsInv(s, turns);
  }

  /** A held reference denotes the very service it was acquired for, and its slot cannot be drained. */
  lemma HeldIsStable(s: Sys, t: nat, j: nat)
    requires Inv(s) && t < |s.threads| && j < |s.threads[t].refs|
    ensures var r := s.threads[t].refs[j];
            && r.slot < |s.slots| && s.slots[r.slot].used && s.slots[r.slot].desc == r.desc && s.slots[r.slot].refs > 0
            && Find(s.slots, r.desc.key) == Some(r.slot)
  {
    assert ThreadOk(s.slots, s.threads[t]);
    RefIsCounted(s, t, j);
    FindsTheHolder(s.slots, s.threads[t].refs[j].slot);
  }

  // ----- draining

  /** Is slot `k` blank at some point of the run? */
  ghost predicate Blanked(s: Sys, turns: seq<Turn>, k: nat)
    requires Runs(s, turns)
    decreases |turns|
  {
    || (k < |s.slots| && s.slots[k] == EMPTY)
    || (turns != [] && Blanked(Step(s, turns[0].t, turns[0].a), turns[1..], k))
  }

  /** Once an entry does not accept references any more, its count only falls, over any run, until it is cleared. */
  lemma {:induction false} DrainingOnlyFalls(s: Sys, turns: seq<Turn>, k: nat)
    requires Inv(s) && Runs(s, turns) && k < |s.slots| && s.slots[k].used && !s.slots[k].accepting
    ensures Blanked(s, turns, k) ||
            (var s' := After(s, turns);
             && k < |s'.slots| && s'.slots[k].used && s'.slots[k].desc == s.slots[k].desc
             && !s'.slots[k].accepting && s'.slots[k].refs <= s.slots[k].refs)
    decreases |turns|
  {
    hide Inv, Ready, EffectOf;
    if turns != [] {
      var s1 := Step(s, turns[0].t, turns[0].a);
      DrainingStep(s, turns[0].t, turns[0].a, k);
      StepKeepsInv(s, turns[0].t, turns[0].a);
      if s1.slots[k] != EMPTY {
        DrainingOnlyFalls(s1, turns[1..], k);
      }
    }
  }

  lemma DrainingStep(s: Sys, t: nat, a: Action, k: nat)
    requires Inv(s) && Ready(s, t, a) && k < |s.slots| && s.slots[k].used && !s.slots[k].accepting
    ensures var s' := Step(s, t, a);
            && k < |s'.slots|
            && (s'.slots[k] == EMPTY || (s'.slots[k].used && s'.slots[k].desc == s.slots[k].desc
                                         && !s'.slots[k].accepting && s'.slots[k].refs <= s.slots[k].refs))
  {
    hide EffectOf;
    StepMoves(s, t, a);
    assert Moves(s.slots[k], EffectOf(s, t, a).slots[k]);
  }

  /** A waiter that was not woken still waits for a reference somebody holds. */
  lemma WaiterHasHolder(s: Sys, t: nat)
    requires Inv(s) && t < |s.threads| && !s.threads[t].mode.Free? && !s.threads[t].mode.woken
    ensures exists i, j :: 0 <= i < |s.threads| && 0 <= j < |s.threads[i].refs|
                           && (s.threads[t].mode.UnregWait? ==> s.threads[i].refs[j].slot == s.threads[t].mode.slot)
  {
    assert ThreadOk(s.slots, s.threads[t]);
    var k: nat;
    if s.threads[t].mode.UnregWait? {
      k := s.threads[t].mode.slot;
    } else {
      k :| 0 <= k < |s.slots| && Referenced(s.slots, k);
    }
    assert Referenced(s.slots, k);
    assert Sum(s.threads, ThreadRefs(k)) > 0;
    SumWitness(s.threads, ThreadRefs(k));
    var i :| 0 <= i < |s.threads| && ThreadRefs(k)(s.threads[i]) > 0;
    SumWitness(s.threads[i].refs, At(k));
    var j :| 0 <= j < |s.threads[i].refs| && At(k)(s.threads[i].refs[j]) > 0;
  }

  /** Giving back the last reference of a slot wakes every waiter, and giving back another one wakes nobody. */
  lemma LastReleaseWakes(s: Sys, t: nat, which: nat, i: nat)
    requires Inv(s) && Ready(s, t, DoRelease(which)) && i < |s.threads| && !s.threads[i].mode.Free?
    ensures var (th, th') := (s.threads[i], Step(s, t, DoRelease(which)).threads[i]);
            && !th'.mode.Free?
            && (th'.mode.woken <==>
                  th.mode.woken || Step(s, t, DoRelease(which)).slots[s.threads[t].refs[which].slot].refs == 0)
  {
    RefIsCounted(s, t, which);
  }

  // ----- overlapping drains

  ghost predicate NoReset(threads: seq<Thread>) {
    forall i :: 0 <= i < |threads| ==> !threads[i].mode.ResetWait?
  }

  ghost predicate NoDrain(threads: seq<Thread>) {
    forall i :: 0 <= i < |threads| ==> threads[i].mode.Free?
  }

  /** The discipline: an unregister starts only on an entry that still accepts references, with no reset under
      way; a reset starts only when nothing else is being drained. */
  ghost predicate Calm(s: Sys, t: nat, a: Action) {
    && (a.DoUnregister? ==> NoReset(s.threads))
    && (a.DoUnregister? && Find(s.slots, a.key).Some? ==> s.slots[Find(s.slots, a.key).value].accepting)
    && (a.DoReset? ==> NoDrain(s.threads))
  }

  /** Each unregister still waits on the entry it found, and no two drains share a slot. */
  ghost predicate Waiting(slots: seq<Slot>, th: Thread) {
    th.mode.UnregWait? ==>
      && th.mode.slot < |slots| && slots[th.mode.slot].used && !slots[th.mode.slot].accepting
      && slots[th.mode.slot].desc == th.mode.found
  }

  ghost predicate Orderly(s: Sys) {
    && (forall i :: 0 <= i < |s.threads| ==> Waiting(s.slots, s.threads[i]))
    && (forall i, j :: 0 <= i < j < |s.threads| && s.threads[i].mode.UnregWait? && s.threads[j].mode.UnregWait? ==>
          s.threads[i].mode.slot != s.threads[j].mode.slot)
    && (forall i :: 0 <= i < |s.threads| && s.threads[i].mode.ResetWait? ==>
          forall j :: 0 <= j < |s.threads| ==> !s.threads[j].mode.UnregWait?)
  }

  ghost predicate CalmRun(s: Sys, turns: seq<Turn>)
    requires Runs(s, turns)
    decreases |turns|
  {
    turns != [] ==> Calm(s, turns[0].t, turns[0].a) && CalmRun(Step(s, turns[0].t, turns[0].a), turns[1..])
  }

  /** A slot being drained by one thread is left alone by a calm step of any other thread, except for releases. */
  lemma OtherSlotKept(s: Sys, t: nat, a: Action, i: nat)
    requires Inv(s) && Orderly(s) && Ready(s, t, a) && Calm(s, t, a)
    requires i < |s.threads| && i != t && s.threads[i].mode.UnregWait?
    ensures Waiting(EffectOf(s, t, a).slots, s.threads[i])
    ensures EffectOf(s, t, a).next.mode.UnregWait? ==> EffectOf(s, t, a).next.mode.slot != s.threads[i].mode.slot
    ensures !EffectOf(s, t, a).next.mode.ResetWait?
  {
    hide FindFrom, FreeFrom, Sum;
    assert Waiting(s.slots, s.threads[i]);
  }

  lemma OwnWait(s: Sys, t: nat, a: Action)
    requires Inv(s) && Orderly(s) && Ready(s, t, a) && Calm(s, t, a)
    ensures Waiting(EffectOf(s, t, a).slots, EffectOf(s, t, a).next)
    ensures EffectOf(s, t, a).next.mode.UnregWait? ==> NoReset(s.threads)
  {
    hide FindFrom, FreeFrom, Sum;
    assert Waiting(s.slots, s.threads[t]);
  }

  lemma StepKeepsOrderly(s: Sys, t: nat, a: Action)
    requires Inv(s) && Orderly(s) && Ready(s, t, a) && Calm(s, t, a)
    ensures Orderly(Step(s, t, a))
  {
    hide EffectOf, Inv, Calm, FindFrom;
    var s', e := Step(s, t, a), EffectOf(s, t, a);
    OwnWait(s, t, a);
    forall i | 0 <= i < |s.threads| && i != t && s.threads[i].mode.UnregWait?
      ensures Waiting(e.slots, s.threads[i]) && !e.next.mode.ResetWait?
      ensures e.next.mode.UnregWait? ==> e.next.mode.slot != s.threads[i].mode.slot
    {
      OtherSlotKept(s, t, a, i);
    }
  }

  lemma {:induction false} RunKeepsOrderly(s: Sys, turns: seq<Turn>)
    requires Inv(s) && Orderly(s) && Runs(s, turns) && CalmRun(s, turns)
    ensures Inv(After(s, turns)) && Orderly(After(s, turns))
    decreases |turns|
  {
    hide Inv, Ready, Step, Orderly, Calm;
    if turns != [] {
      StepKeepsInv(s, turns[0].t, turns[0].a);
      StepKeepsOrderly(s, turns[0].t, turns[0].a);
      RunKeepsOrderly(Step(s, turns[0].t, turns[0].a), turns[1..]);
    }
  }

  /** In a calm run, an unregister that gets through removes exactly the entry it found. */
  lemma RemovesWhatItFound(s: Sys, turns: seq<Turn>, t: nat)
    requires Initial(s) && Runs(s, turns) && CalmRun(s, turns)
    requires Ready(After(s, turns), t, UnregResume) && Step(After(s, turns), t, UnregResume).threads[t].mode.Free?
    ensures var (s1, s2) := (After(s, turns), Step(After(s, turns), t, UnregResume));
            var found := s1.threads[t].mode.found;
            && found.key in View(s1.slots) && View(s1.slots)[found.key].desc == found
            && View(s2.slots) == View(s1.slots) - {found.key}
  {
    InitialInv(s);
    RunKeepsOrderly(s, turns);
    var s1 := After(s, turns);
    hide After, Runs, CalmRun, View, FindFrom, Initial;
    assert Waiting(s1.slots, s1.threads[t]);
    var k := s1.threads[t].mode.slot;
    BlankIsDelete(s1.slots, k);
    FindsTheHolder(s1.slots, k);
    ViewAt(s1.slots, s1.slots[k].desc.key);
  }

  /** An unregister that need not wait removes the entry at once; one that must wait has closed the entry it found. */
  lemma UnregisterAtOnce(s: Sys, t: nat, key: Key)
    requires Inv(s) && Ready(s, t, DoUnregister(key))
    ensures var (s', v) := (Step(s, t, DoUnregister(key)), View(s.slots));
            var (th', v') := (s'.threads[t], View(s'.slots));
            && (key !in v ==> th'.mode.Free? && th'.result == ErrNotFound && v' == v)
            && (key in v && v[key].refs == 0 ==> th'.mode.Free? && th'.result == Ok && v' == v - {key})
            && (key in v && v[key].refs != 0 ==>
                  && th'.mode.UnregWait? && !th'.mode.woken && th'.mode.found == v[key].desc
                  && v' == v[key := v[key].(accepting := false)])
  {
    hide FindFrom, Sum, SlotsOk, View;
    ViewAt(s.slots, key);
    UnregisterCloses(s.slots, key);
    var found := Find(s.slots, key);
    if found.Some? && s.slots[found.value].refs == 0 {
      BlankClosed(s.slots, found.value);
    }
  }

  lemma BlankClosed(slots: seq<Slot>, i: nat)
    requires SlotsOk(slots) && i < |slots| && slots[i].used
    ensures View(slots[i := slots[i].(accepting := false)][i := EMPTY]) == View(slots) - {slots[i].desc.key}
  {
    hide View, SlotsOk;
    BlankIsDelete(slots, i);
    assert slots[i := slots[i].(accepting := false)][i := EMPTY] == slots[i := EMPTY];
  }

  /** Two unregisters drain one slot, its references are gone, and a free thread can register there. */
  ghost predicate Overlapping(s: Sys, t1: nat, t2: nat, t3: nat, k: nat) {
    && t1 < |s.threads| && t2 < |s.threads| && t3 < |s.threads| && t1 != t2 && t3 != t1 && t3 != t2
    && s.threads[t1].mode.UnregWait? && s.threads[t2].mode.UnregWait? && s.threads[t3].mode.Free?
    && s.threads[t1].mode.slot == s.threads[t2].mode.slot == k < |s.slots|
    && s.slots[k].refs == 0 && s.slots[k].used && forall j :: 0 <= j < k ==> s.slots[j].used
  }

  /** Whenever two drains overlap like this, the second one can go on to remove an entry of a different key
      that was registered in between. */
  lemma OverlapRemovesAnother(s: Sys, t1: nat, t2: nat, t3: nat, k: nat, d: Desc)
    requires Inv(s) && Overlapping(s, t1, t2, t3, k) && Complete(d) && d.key !in View(s.slots)
    ensures Ready(s, t1, UnregResume)
    ensures var s1 := Step(s, t1, UnregResume);
            && Ready(s1, t3, DoRegister(d))
            && var s2 := Step(s1, t3, DoRegister(d));
            && s2.threads[t3].result == Ok && d.key in View(s2.slots)
            && Ready(s2, t2, UnregResume)
            && var s3 := Step(s2, t2, UnregResume);
            && s3.threads[t2].mode.Free? && s3.threads[t2].result == Ok && d.key !in View(s3.slots)
  {
    hide View, FindFrom, FreeFrom, Sum;
    var s1 := Step(s, t1, UnregResume);
    BlankIsDelete(s.slots, k);
    RegisterInserts(s1.slots, d);
    FreeIs(s1.slots, 0);
    assert !s1.slots[k].used;
    assert FreeFrom(s1.slots, 0) == Some(k);
    var s2 := Step(s1, t3, DoRegister(d));
    ViewAt(s1.slots, d.key);
    BlankIsDelete(s2.slots, k);
  }

  lemma QuietNext(threads: seq<Thread>, t: nat, e: Effect)
    requires t < |threads| && !e.broadcast
    ensures NextThreads(threads, t, e) == threads[t := e.next]
  {
    forall i | 0 <= i < |threads|
      ensures NextThreads(threads, t, e)[i] == threads[t := e.next][i]
    {
      QuietWake(threads[t := e.next][i]);
    }
  }

  lemma QuietWake(th: Thread)
    ensures Wake(th, false) == th
  {
    match th.mode
    case Free =>
    case UnregWait(i, found, woken) =>
      assert th.(mode := UnregWait(i, found, woken)) == th;
    case ResetWait(woken) =>
      assert th.(mode := ResetWait(woken)) == th;
  }

  lemma RegisterFirst(s: Sys, d: Desc)
    requires Initial(s) && |s.threads| > 0 && Complete(d)
    ensures Ready(s, 0, DoRegister(d))
    ensures Step(s, 0, DoRegister(d)) == Sys(s.slots[0 := Slot(true, true, 0, d)], s.threads)
  {
    FindIs(s.slots, d.key, 0);
    QuietNext(s.threads, 0, EffectOf(s, 0, DoRegister(d)));
  }

  lemma AcquireFirst(s: Sys, d: Desc)
    requires |s.slots| > 0 && s.slots[0] == Slot(true, true, 0, d) && |s.threads| > 0
    requires s.threads[0] == Thread(Free, [], Ok) && Complete(d)
    ensures var a := DoAcquire(d.key, d.abi, d.opsSize);
            && Ready(s, 0, a)
            && Step(s, 0, a) == Sys(s.slots[0 := Slot(true, true, 1, d)], s.threads[0 := Thread(Free, [Ref(0, d)], Ok)])
  {
    var e := EffectOf(s, 0, DoAcquire(d.key, d.abi, d.opsSize));
    assert [] + [Ref(0, d)] == [Ref(0, d)];
    assert e.slots == s.slots[0 := Slot(true, true, 1, d)] && e.next == Thread(Free, [Ref(0, d)], Ok);
    QuietNext(s.threads, 0, e);
  }

  lemma DrainFirst(s: Sys, t: nat, accepting: bool, d: Desc)
    requires |s.slots| > 0 && s.slots[0] == Slot(true, accepting, 1, d) && t < |s.threads| && s.threads[t].mode.Free?
    ensures Ready(s, t, DoUnregister(d.key))
    ensures Step(s, t, DoUnregister(d.key)) ==
            Sys(s.slots[0 := Slot(true, false, 1, d)], s.threads[t := s.threads[t].(mode := UnregWait(0, d, false))])
  {
    QuietNext(s.threads, t, EffectOf(s, t, DoUnregister(d.key)));
  }

  lemma ReleaseFirst(s: Sys, d: Desc)
    requires |s.slots| > 0 && s.slots[0] == Slot(true, false, 1, d)
    requires |s.threads| > 0 && s.threads[0] == Thread(Free, [Ref(0, d)], Ok)
    ensures Ready(s, 0, DoRelease(0))
    ensures var s' := Step(s, 0, DoRelease(0));
            && s'.slots == s.slots[0 := Slot(true, false, 0, d)] && |s'.threads| == |s.threads|
            && s'.threads[0].mode.Free?
            && forall i :: 0 < i < |s.threads| ==> s'.threads[i] == Wake(s.threads[i], true)
  {
  }

  /** Such an overlap is reachable: one client holds a service while two threads unregister it. */
  lemma OverlapHappens(s: Sys, d: Desc) returns (turns: seq<Turn>)
    requires Initial(s) && |s.threads| >= 3 && Complete(d)
    ensures Runs(s, turns) && Overlapping(After(s, turns), 1, 2, 0, 0)
  {
    hide Ready, Step, EffectOf, NextThreads;
    var (register, acquire, drain) := (DoRegister(d), DoAcquire(d.key, d.abi, d.opsSize), DoUnregister(d.key));
    RegisterFirst(s, d);
    var s1 := Step(s, 0, register);
    AcquireFirst(s1, d);
    var s2 := Step(s1, 0, acquire);
    DrainFirst(s2, 1, true, d);
    var s3 := Step(s2, 1, drain);
    DrainFirst(s3, 2, false, d);
    var s4 := Step(s3, 2, drain);
    ReleaseFirst(s4, d);
    var end := [Turn(0, DoRelease(0))];
    Unroll(s4, end);
    Unroll(s3, [Turn(2, drain)] + end);
    Unroll(s2, [Turn(1, drain)] + ([Turn(2, drain)] + end));
    Unroll(s1, [Turn(0, acquire)] + ([Turn(1, drain)] + ([Turn(2, drain)] + end)));
    turns := [Turn(0, register)] + ([Turn(0, acquire)] + ([Turn(1, drain)] + ([Turn(2, drain)] + end)));
    Unroll(s, turns);
  }

  lemma Unroll(s: Sys, turns: seq<Turn>)
    requires turns != [] && Ready(s, turns[0].t, turns[0].a) && Runs(Step(s, turns[0].t, turns[0].a), turns[1..])
    ensures Runs(s, turns) && After(s, turns) == After(Step(s, turns[0].t, turns[0].a), turns[1..])
  {
    hide Ready, Step;
  }

  // ----- a reset over a drain

  /** A reset and an unregister of the first slot wait together, no reference is left, and a third thread is free. */
  ghost predicate ResetOverlapping(s: Sys, t1: nat, t2: nat, t3: nat) {
    && t1 < |s.threads| && t2 < |s.threads| && t3 < |s.threads| && t1 != t2 && t3 != t1 && t3 != t2
    && s.threads[t1].mode.ResetWait? && s.threads[t2].mode.UnregWait? && s.threads[t3].mode.Free?
    && s.threads[t2].mode.slot == 0 < |s.slots| && !AnyReferenced(s.slots)
  }

  lemma ClearedIsEmpty(slots: seq<Slot>)
    ensures SlotsOk(ClearAll(slots)) && View(ClearAll(slots)) == map[]
  {
    var cleared := ClearAll(slots);
    assert SlotsOk(cleared);
    hide SlotsOk;
    forall key
      ensures key !in View(cleared)
    {
      ViewAt(cleared, key);
      FindIs(cleared, key, 0);
    }
  }

  /** The reset clears the slot, a new service is registered in it, and the unregister removes that one. */
  lemma ResetOverlapRemovesAnother(s: Sys, t1: nat, t2: nat, t3: nat, d: Desc)
    requires ResetOverlapping(s, t1, t2, t3) && Complete(d)
    ensures Ready(s, t1, ResetResume)
    ensures var s1 := Step(s, t1, ResetResume);
            && Ready(s1, t3, DoRegister(d))
            && var s2 := Step(s1, t3, DoRegister(d));
            && s2.threads[t3].result == Ok && d.key in View(s2.slots)
            && Ready(s2, t2, UnregResume)
            && var s3 := Step(s2, t2, UnregResume);
            && s3.threads[t2].mode.Free? && s3.threads[t2].result == Ok && d.key !in View(s3.slots)
  {
    hide View, FindFrom, SlotsOk;
    var s1 := Step(s, t1, ResetResume);
    ClearedIsEmpty(s.slots);
    assert s1.slots == ClearAll(s.slots);
    RegisterInserts(s1.slots, d);
    assert !s1.slots[0].used && FreeFrom(s1.slots, 0) == Some(0);
    var s2 := Step(s1, t3, DoRegister(d));
    assert s2.slots == s1.slots[0 := Slot(true, true, 0, d)];
    BlankIsDelete(s2.slots, 0);
  }

  lemma ResetFirst(s: Sys, t: nat, d: Desc)
    requires |s.slots| > 0 && s.slots[0] == Slot(true, false, 1, d) && t < |s.threads| && s.threads[t].mode.Free?
    requires forall k :: 0 < k < |s.slots| ==> s.slots[k] == EMPTY
    ensures Ready(s, t, DoReset)
    ensures Step(s, t, DoReset) == Sys(s.slots, s.threads[t := s.threads[t].(mode := ResetWait(false))])
  {
    assert CloseAll(s.slots) == s.slots;
    assert Referenced(s.slots, 0);
    QuietNext(s.threads, t, EffectOf(s, t, DoReset));
  }

  /** That overlap is reachable too: one client holds a service while it is unregistered and the registry is reset. */
  lemma ResetOverlapHappens(s: Sys, d: Desc) returns (turns: seq<Turn>)
    requires Initial(s) && |s.threads| >= 3 && Complete(d)
    ensures Runs(s, turns) && ResetOverlapping(After(s, turns), 1, 2, 0)
  {
    hide Ready, Step, EffectOf, NextThreads;
    var (register, acquire, drain) := (DoRegister(d), DoAcquire(d.key, d.abi, d.opsSize), DoUnregister(d.key));
    RegisterFirst(s, d);
    var s1 := Step(s, 0, register);
    AcquireFirst(s1, d);
    var s2 := Step(s1, 0, acquire);
    DrainFirst(s2, 2, true, d);
    var s3 := Step(s2, 2, drain);
    ResetFirst(s3, 1, d);
    var s4 := Step(s3, 1, DoReset);
    ReleaseFirst(s4, d);
    var end := [Turn(0, DoRelease(0))];
    Unroll(s4, end);
    Unroll(s3, [Turn(1, DoReset)] + end);
    Unroll(s2, [Turn(2, drain)] + ([Turn(1, DoReset)] + end));
    Unroll(s1, [Turn(0, acquire)] + ([Turn(2, drain)] + ([Turn(1, DoReset)] + end)));
    turns := [Turn(0, register)] + ([Turn(0, acquire)] + ([Turn(2, drain)] + ([Turn(1, DoReset)] + end)));
    Unroll(s, turns);
  }
}
