/** Concurrent register, acquire, release, unregister and reset as a step system. */
module ServiceSteps {
  import opened SysTypes
  import opened Sums
  import opened ServiceModel

  /** A reference a client holds: the slot, and the descriptor it saw when it acquired it. */
  datatype Ref = Ref(slot: nat, desc: Desc)

  /** A thread inside unregister waits for the slot it found; `found` is the descriptor it found there. */
  datatype Mode = Free | UnregWait(slot: nat, found: Desc, woken: bool) | ResetWait(woken: bool)

  datatype Thread = Thread(mode: Mode, refs: seq<Ref>, result: SysErr)

  datatype Sys = Sys(slots: seq<Slot>, threads: seq<Thread>)

  datatype Action =
    | DoRegister(desc: Desc)
    | DoAcquire(key: Key, abi: nat, minimum: nat)
    | DoRelease(which: nat)
    | DoUnregister(key: Key)
    | UnregResume
    | DoReset
    | ResetResume

  ghost predicate Ready(s: Sys, t: nat, a: Action) {
    && t < |s.threads|
    && match a
       case DoRelease(which) =>
         s.threads[t].mode.Free? && which < |s.threads[t].refs| && s.threads[t].refs[which].slot < |s.slots|
       case UnregResume => s.threads[t].mode.UnregWait? && s.threads[t].mode.slot < |s.slots|
       case ResetResume => s.threads[t].mode.ResetWait?
       case _ => s.threads[t].mode.Free?
  }

  datatype Effect = Effect(slots: seq<Slot>, next: Thread, broadcast: bool)

  /** The wait loop of an unregister, first reached or resumed: the slot is not looked up again. */
  function UnregEffect(slots: seq<Slot>, th: Thread, i: nat, found: Desc): Effect
    requires i < |slots|
  {
    if slots[i].refs != 0 then Effect(slots, th.(mode := UnregWait(i, found, false)), false)
    else Effect(slots[i := EMPTY], th.(mode := Free, result := Ok), false)
  }

  /** The wait loop of a reset, first reached or resumed. */
  function ResetEffect(slots: seq<Slot>, th: Thread): Effect {
    if AnyReferenced(slots) then Effect(slots, th.(mode := ResetWait(false)), false)
    else Effect(ClearAll(slots), th.(mode := Free, result := Ok), false)
  }

  ghost function EffectOf(s: Sys, t: nat, a: Action): Effect
    requires Ready(s, t, a)
  {
    var th := s.threads[t];
    match a
    case DoRegister(d) =>
      var (slots, r) := Register(s.slots, d);
      Effect(slots, th.(result := r), false)
    case DoAcquire(key, abi, minimum) =>
      var (slots, r, i) := Acquire(s.slots, key, abi, minimum);
      Effect(slots, if i.Some? then th.(refs := th.refs + [Ref(i.value, slots[i.value].desc)], result := Ok) else th.(result := r), false)
    case DoRelease(which) =>
      var (slots, zero) := Release(s.slots, th.refs[which].slot);
      Effect(slots, th.(refs := th.refs[..which] + th.refs[which + 1..]), zero)
    case DoUnregister(key) =>
      var (slots, i) := BeginUnregister(s.slots, key);
      if i.None? then Effect(slots, th.(result := ErrNotFound), false)
      else UnregEffect(slots, th, i.value, s.slots[i.value].desc)
    case UnregResume => UnregEffect(s.slots, th, th.mode.slot, th.mode.found)
    case DoReset => ResetEffect(CloseAll(s.slots), th)
    case ResetResume => ResetEffect(s.slots, th)
  }

  function Wake(th: Thread, broadcast: bool): Thread {
    match th.mode
    case Free => th
    case UnregWait(i, found, woken) => th.(mode := UnregWait(i, found, woken || broadcast))
    case ResetWait(woken) => th.(mode := ResetWait(woken || broadcast))
  }

  function NextThreads(threads: seq<Thread>, t: nat, e: Effect): (r: seq<Thread>)
    requires t < |threads|
    ensures |r| == |threads|
  {
    seq(|threads|, i requires 0 <= i < |threads| => Wake(if i == t then e.next else threads[i], e.broadcast))
  }

  ghost function Step(s: Sys, t: nat, a: Action): Sys
    requires Ready(s, t, a)
  {
    var e := EffectOf(s, t, a);
    Sys(e.slots, NextThreads(s.threads, t, e))
  }

  // ----- the invariant

  function At(k: nat): Ref -> nat {
    (r: Ref) => if r.slot == k then 1 else 0
  }

  function RefsTo(th: Thread, k: nat): nat {
    Sum(th.refs, At(k))
  }

  function ThreadRefs(k: nat): Thread -> nat {
    (th: Thread) => RefsTo(th, k)
  }

  /** Each slot counts exactly the references outstanding on it. */
  ghost predicate Counted(s: Sys) {
    forall k :: 0 <= k < |s.slots| ==> s.slots[k].refs == Sum(s.threads, ThreadRefs(k))
  }

  /** A held reference still denotes the service it was acquired for. */
  ghost predicate Valid(slots: seq<Slot>, r: Ref) {
    r.slot < |slots| && slots[r.slot].used && slots[r.slot].desc == r.desc
  }

  ghost predicate ThreadOk(slots: seq<Slot>, th: Thread) {
    && (forall j :: 0 <= j < |th.refs| ==> Valid(slots, th.refs[j]))
    && match th.mode
       case Free => true
       case UnregWait(i, _, woken) => i < |slots| && (!woken ==> Referenced(slots, i))
       case ResetWait(woken) => !woken ==> AnyReferenced(slots)
  }

  ghost predicate ThreadsOk(s: Sys) {
    forall t :: 0 <= t < |s.threads| ==> ThreadOk(s.slots, s.threads[t])
  }

  ghost predicate Inv(s: Sys) {
    SlotsOk(s.slots) && Counted(s) && ThreadsOk(s)
  }

  // ----- counts

  lemma ThreadsRef(threads: seq<Thread>, t: nat, e: Effect, k: nat)
    requires t < |threads|
    ensures Sum(NextThreads(threads, t, e), ThreadRefs(k)) + RefsTo(threads[t], k)
         == Sum(threads, ThreadRefs(k)) + RefsTo(e.next, k)
  {
    hide Sum;
    SumUpdate(threads, t, e.next, ThreadRefs(k));
    var next := NextThreads(threads, t, e);
    forall i | 0 <= i < |threads|
      ensures ThreadRefs(k)(threads[t := e.next][i]) == ThreadRefs(k)(next[i])
    {
      assert next[i].refs == threads[t := e.next][i].refs;
    }
    SumSame(threads[t := e.next], next, ThreadRefs(k));
  }

  lemma {:induction false} SumCut(refs: seq<Ref>, which: nat, k: nat)
    requires which < |refs|
    ensures Sum(refs, At(k)) == Sum(refs[..which] + refs[which + 1..], At(k)) + At(k)(refs[which])
  {
    var n := |refs| - 1;
    if which < n {
      var cut := refs[..which] + refs[which + 1..];
      assert cut[..n - 1] == refs[..n][..which] + refs[..n][which + 1..] && cut[n - 1] == refs[n];
      SumCut(refs[..n], which, k);
    } else {
      assert refs[..which] + refs[which + 1..] == refs[..n];
    }
  }

  lemma RefIsCounted(s: Sys, t: nat, which: nat)
    requires Counted(s) && t < |s.threads| && which < |s.threads[t].refs| && s.threads[t].refs[which].slot < |s.slots|
    ensures s.slots[s.threads[t].refs[which].slot].refs > 0
  {
    var k := s.threads[t].refs[which].slot;
    SumBounds(s.threads[t].refs, which, At(k));
    SumBounds(s.threads, t, ThreadRefs(k));
  }

  /** The change of a slot's count is the change in the stepping thread's references. */
  ghost predicate Balanced(s: Sys, t: nat, e: Effect, k: nat)
    requires t < |s.threads| && k < |s.slots|
  {
    |e.slots| == |s.slots| && e.slots[k].refs + RefsTo(s.threads[t], k) == s.slots[k].refs + RefsTo(e.next, k)
  }

  lemma RegisterCounts(s: Sys, t: nat, d: Desc, k: nat)
    requires Inv(s) && Ready(s, t, DoRegister(d)) && k < |s.slots|
    ensures Balanced(s, t, EffectOf(s, t, DoRegister(d)), k)
  {
    assert SlotOk(s.slots[k]);
    hide Sum, Find, FreeFrom;
  }

  lemma AcquireCounts(s: Sys, t: nat, a: Action, k: nat)
    requires Ready(s, t, a) && k < |s.slots| && a.DoAcquire?
    ensures Balanced(s, t, EffectOf(s, t, a), k)
  {
    hide Sum, Find;
    var th, i := s.threads[t], Acquire(s.slots, a.key, a.abi, a.minimum).2;
    if i.Some? {
      SumSnoc(th.refs, Ref(i.value, Acquire(s.slots, a.key, a.abi, a.minimum).0[i.value].desc), At(k));
    }
  }

  lemma ReleaseCounts(s: Sys, t: nat, which: nat, k: nat)
    requires Counted(s) && Ready(s, t, DoRelease(which)) && k < |s.slots|
    ensures Balanced(s, t, EffectOf(s, t, DoRelease(which)), k)
  {
    hide Sum;
    RefIsCounted(s, t, which);
    SumCut(s.threads[t].refs, which, k);
  }

  lemma DrainCounts(s: Sys, t: nat, a: Action, k: nat)
    requires Ready(s, t, a) && k < |s.slots|
    requires a.DoUnregister? || a.UnregResume? || a.DoReset? || a.ResetResume?
    ensures Balanced(s, t, EffectOf(s, t, a), k)
  {
    hide Sum, Find;
    assert RefsTo(EffectOf(s, t, a).next, k) == RefsTo(s.threads[t], k);
    if a.DoReset? && !AnyReferenced(CloseAll(s.slots)) {
      ClearCounts(CloseAll(s.slots), k);
    } else if a.ResetResume? && !AnyReferenced(s.slots) {
      ClearCounts(s.slots, k);
    }
  }

  lemma StepKeepsCounts(s: Sys, t: nat, a: Action)
    requires Inv(s) && Ready(s, t, a)
    ensures Counted(Step(s, t, a)) && |Step(s, t, a).slots| == |s.slots|
  {
    hide EffectOf, NextThreads, Sum, Ready, SlotsOk, ThreadsOk, RefsTo;
    var s', e := Step(s, t, a), EffectOf(s, t, a);
    ReadyHasThread(s, t, a);
    forall k: nat | k < |s.slots|
      ensures Balanced(s, t, e, k) && (k < |s'.slots| ==> s'.slots[k].refs == Sum(s'.threads, ThreadRefs(k)))
    {
      match a {
        case DoRegister(d) => RegisterCounts(s, t, d, k);
        case DoAcquire(_, _, _) => AcquireCounts(s, t, a, k);
        case DoRelease(which) => ReleaseCounts(s, t, which, k);
        case _ => DrainCounts(s, t, a, k);
      }
      ThreadsRef(s.threads, t, e, k);
    }
    SameLength(s, t, a);
  }

  lemma ReadyHasThread(s: Sys, t: nat, a: Action)
    requires Ready(s, t, a)
    ensures t < |s.threads|
  {
  }

  lemma SameLength(s: Sys, t: nat, a: Action)
    requires Ready(s, t, a)
    ensures |EffectOf(s, t, a).slots| == |s.slots|
  {
  }

  lemma ClearCounts(slots: seq<Slot>, k: nat)
    requires k < |slots| && !AnyReferenced(slots)
    ensures slots[k].refs == 0
  {
    assert !Referenced(slots, k);
  }

  // ----- slots

  lemma StepKeepsSlots(s: Sys, t: nat, a: Action)
    requires SlotsOk(s.slots) && Ready(s, t, a)
    ensures SlotsOk(EffectOf(s, t, a).slots)
  {
    hide View, Find, FreeFrom;
    match a
    case DoRegister(d) => RegisterInserts(s.slots, d);
    case DoAcquire(key, abi, minimum) => AcquireUpdates(s.slots, key, abi, minimum);
    case DoRelease(which) =>
      if s.slots[s.threads[t].refs[which].slot].refs > 0 {
        ReleaseUpdates(s.slots, s.threads[t].refs[which].slot);
      }
    case DoUnregister(key) =>
      UnregisterCloses(s.slots, key);
      var (slots, i) := BeginUnregister(s.slots, key);
      if i.Some? {
        PutKeepsOk(slots, i.value, EMPTY);
      }
    case UnregResume => PutKeepsOk(s.slots, s.threads[t].mode.slot, EMPTY);
    case DoReset => CloseKeepsOk(s.slots);
    case ResetResume =>
  }

  lemma CloseKeepsOk(slots: seq<Slot>)
    requires SlotsOk(slots)
    ensures SlotsOk(CloseAll(slots))
  {
    var slots' := CloseAll(slots);
    forall j | 0 <= j < |slots'| && slots'[j].used
      ensures OnlyAt(slots', j)
    {
      assert OnlyAt(slots, j);
    }
    forall j | 0 <= j < |slots'|
      ensures SlotOk(slots'[j])
    {
      assert SlotOk(slots[j]);
    }
  }

  // ----- what one step may do to a slot

  /** A slot keeps its occupant, is blanked, or receives a new occupant while free; and references to an
      occupant that does not accept any more only fall. */
  ghost predicate Moves(slot: Slot, slot': Slot) {
    || slot' == slot
    || slot' == EMPTY
    || (!slot.used && slot'.used && slot'.refs == 0)
    || (slot.used && slot'.used && slot'.desc == slot.desc
        && (slot'.accepting ==> slot.accepting) && (!slot.accepting ==> slot'.refs <= slot.refs))
  }

  ghost predicate AllMove(slots: seq<Slot>, slots': seq<Slot>) {
    |slots| == |slots'| && forall k :: 0 <= k < |slots| ==> Moves(slots[k], slots'[k])
  }

  lemma StepMoves(s: Sys, t: nat, a: Action)
    requires SlotsOk(s.slots) && Ready(s, t, a)
    ensures AllMove(s.slots, EffectOf(s, t, a).slots)
  {
    hide FindFrom, FreeFrom;
    forall k | 0 <= k < |s.slots|
      ensures Moves(s.slots[k], EffectOf(s, t, a).slots[k])
    {
      assert SlotOk(s.slots[k]);
    }
  }

  // ----- threads

  /** A thread that does not step stays consistent: nothing it refers to is blanked, and it is woken whenever
      a count falls to zero. */
  lemma OtherStaysOk(slots: seq<Slot>, slots': seq<Slot>, th: Thread, broadcast: bool)
    requires ThreadOk(slots, th) && AllMove(slots, slots')
    requires forall k :: 0 <= k < |slots| && slots[k].refs != 0 ==> slots'[k].used && slots'[k].desc == slots[k].desc
    requires !broadcast ==> forall k :: 0 <= k < |slots| && slots[k].refs != 0 ==> slots'[k].refs != 0
    requires forall j :: 0 <= j < |th.refs| ==> slots[th.refs[j].slot].refs != 0
    ensures ThreadOk(slots', Wake(th, broadcast))
  {
    if th.mode.ResetWait? && !th.mode.woken && !broadcast {
      var k :| 0 <= k < |slots| && Referenced(slots, k);
      assert Referenced(slots', k);
    }
  }

  /** A referenced slot is neither blanked nor reoccupied, and its count reaches zero only with a broadcast. */
  lemma ReferencedStays(s: Sys, t: nat, a: Action, k: nat)
    requires Inv(s) && Ready(s, t, a) && k < |s.slots| && s.slots[k].refs != 0
    ensures var e := EffectOf(s, t, a);
            && |e.slots| == |s.slots| && e.slots[k].used && e.slots[k].desc == s.slots[k].desc
            && (!e.broadcast ==> e.slots[k].refs != 0)
  {
    hide FindFrom, FreeFrom, Sum;
    assert SlotOk(s.slots[k]);
    assert Referenced(s.slots, k);
    if a.DoReset? {
      assert Referenced(CloseAll(s.slots), k);
    }
  }

  lemma NextStaysOk(s: Sys, t: nat, a: Action)
    requires Inv(s) && Ready(s, t, a)
    ensures ThreadOk(EffectOf(s, t, a).slots, Wake(EffectOf(s, t, a).next, EffectOf(s, t, a).broadcast))
  {
    hide FindFrom, FreeFrom, Sum;
    var e, th := EffectOf(s, t, a), s.threads[t];
    assert ThreadOk(s.slots, th);
    forall j | 0 <= j < |e.next.refs|
      ensures Valid(e.slots, e.next.refs[j])
    {
      NextRefValid(s, t, a, j);
    }
  }

  lemma NextRefValid(s: Sys, t: nat, a: Action, j: nat)
    requires Inv(s) && Ready(s, t, a) && j < |EffectOf(s, t, a).next.refs|
    ensures Valid(EffectOf(s, t, a).slots, EffectOf(s, t, a).next.refs[j])
  {
    hide FindFrom, FreeFrom, Sum;
    var e, th := EffectOf(s, t, a), s.threads[t];
    assert ThreadOk(s.slots, th);
    var i := if a.DoRelease? && j >= a.which then j + 1 else j;
    if i < |th.refs| {
      assert e.next.refs[j] == th.refs[i] && Valid(s.slots, th.refs[i]);
      RefIsCounted(s, t, i);
      ReferencedStays(s, t, a, th.refs[i].slot);
    } else {
      assert SlotOk(s.slots[e.next.refs[j].slot]);
    }
  }

  lemma StepKeepsThreads(s: Sys, t: nat, a: Action)
    requires Inv(s) && Ready(s, t, a)
    ensures ThreadsOk(Step(s, t, a))
  {
    hide EffectOf, Sum, SlotsOk, AllMove, Ready;
    var s', e := Step(s, t, a), EffectOf(s, t, a);
    InvParts(s);
    StepMoves(s, t, a);
    NextStaysOk(s, t, a);
    ReadyHasThread(s, t, a);
    forall k | 0 <= k < |s.slots| && s.slots[k].refs != 0
      ensures |e.slots| == |s.slots| && e.slots[k].used && e.slots[k].desc == s.slots[k].desc
      ensures !e.broadcast ==> e.slots[k].refs != 0
    {
      ReferencedStays(s, t, a, k);
    }
    forall i | 0 <= i < |s'.threads|
      ensures ThreadOk(s'.slots, s'.threads[i])
    {
      if i != t {
        assert ThreadOk(s.slots, s.threads[i]);
        forall j | 0 <= j < |s.threads[i].refs|
          ensures s.slots[s.threads[i].refs[j].slot].refs != 0
        {
          RefIsCounted(s, i, j);
        }
        OtherStaysOk(s.slots, e.slots, s.threads[i], e.broadcast);
      }
    }
  }

  lemma InvParts(s: Sys)
    requires Inv(s)
    ensures SlotsOk(s.slots)
  {
  }

  lemma StepKeepsInv(s: Sys, t: nat, a: Action)
    requires Inv(s) && Ready(s, t, a)
    ensures Inv(Step(s, t, a))
  {
    StepKeepsSlots(s, t, a);
    StepKeepsCounts(s, t, a);
    StepKeepsThreads(s, t, a);
  }
}
