/** What each call of the service registry answers and changes, told by the map from keys to entries. */
module ServiceAnswers {
  import opened SysTypes
  import opened Sums
  import opened ServiceModel
  import opened ServiceSteps
  import opened ServiceTheorems

  // ----- when the registry is full

  function KeySeq(slots: seq<Slot>): (r: seq<Key>)
    ensures |r| == |slots| && forall i :: 0 <= i < |slots| ==> r[i] == slots[i].desc.key
  {
    seq(|slots|, i requires 0 <= i < |slots| => slots[i].desc.key)
  }

  lemma {:induction false} FewKeys(slots: seq<Slot>)
    ensures |KeysOf(slots)| <= |slots|
  {
    if slots != [] {
      var n := |slots| - 1;
      FewKeys(slots[..n]);
      var more := if slots[n].used then {slots[n].desc.key} else {};
      forall key
        ensures key in KeysOf(slots) <==> key in KeysOf(slots[..n]) + more
      {
        if key in KeysOf(slots[..n]) {
          var i :| 0 <= i < n && slots[..n][i].used && slots[..n][i].desc.key == key;
          assert slots[i].used && slots[i].desc.key == key;
        }
        if key in KeysOf(slots) {
          var i :| 0 <= i < |slots| && slots[i].used && slots[i].desc.key == key;
          if i < n {
            assert slots[..n][i].used && slots[..n][i].desc.key == key;
          }
        }
      }
      assert KeysOf(slots) == KeysOf(slots[..n]) + more;
    }
  }

  /** With a slot free, fewer keys are registered than there are slots. */
  lemma FreeMeansFewer(slots: seq<Slot>, f: nat)
    requires f < |slots| && !slots[f].used
    ensures |KeysOf(slots)| < |slots|
  {
    var others := slots[..f] + slots[f + 1..];
    FewKeys(others);
    forall key | key in KeysOf(slots)
      ensures key in KeysOf(others)
    {
      var i :| 0 <= i < |slots| && slots[i].used && slots[i].desc.key == key;
      var j := if i < f then i else i - 1;
      assert others[j] == slots[i];
    }
    SubsetSize(KeysOf(slots), KeysOf(others));
  }

  /** With all slots used, there are as many keys as slots. */
  lemma UsedMeansAll(slots: seq<Slot>)
    requires SlotsOk(slots) && forall i :: 0 <= i < |slots| ==> slots[i].used
    ensures |KeysOf(slots)| == |slots|
  {
    var keys := KeySeq(slots);
    forall k | 0 <= k < |keys|
      ensures keys[k] !in keys[..k]
    {
      assert OnlyAt(slots, k);
      forall j | 0 <= j < k
        ensures keys[..k][j] != keys[k]
      {
        assert !Holds(slots[j], slots[k].desc.key);
      }
    }
    ElemsSize(keys);
    forall key
      ensures key in KeysOf(slots) <==> key in Elems(keys)
    {
      if key in Elems(keys) {
        var i :| 0 <= i < |keys| && keys[i] == key;
        assert slots[i].used && slots[i].desc.key == key;
      }
    }
    assert KeysOf(slots) == Elems(keys);
  }

  /** No slot is free exactly when as many keys are registered as there are slots. */
  lemma FullIff(slots: seq<Slot>)
    requires SlotsOk(slots)
    ensures (forall i :: 0 <= i < |slots| ==> slots[i].used) <==> |View(slots)| == |slots|
  {
    hide View;
    forall key
      ensures key in View(slots) <==> key in KeysOf(slots)
    {
      ViewAt(slots, key);
      if key in KeysOf(slots) {
        var i :| 0 <= i < |slots| && slots[i].used && slots[i].desc.key == key;
        FindsTheHolder(slots, i);
      } else {
        FindIs(slots, key, 0);
      }
    }
    assert View(slots).Keys == KeysOf(slots);
    if i :| 0 <= i < |slots| && !slots[i].used {
      FreeMeansFewer(slots, i);
    } else {
      UsedMeansAll(slots);
    }
  }

  // ----- the calls

  /** A register: the errors in the order they are looked for, and the one new entry. */
  lemma RegisterAnswers(s: Sys, t: nat, d: Desc)
    requires Inv(s) && Ready(s, t, DoRegister(d))
    ensures var (s', v) := (Step(s, t, DoRegister(d)), View(s.slots));
            var (v', r) := (View(s'.slots), s'.threads[t].result);
            var bad := d.key.moduleId == 0 || d.key.interfaceId == 0 || d.abi == 0 || d.ops == 0 || d.opsSize == 0 || !d.named;
            && s'.threads == s.threads[t := s.threads[t].(result := r)]
            && (r == ErrInvalidParam <==> bad)
            && (r == ErrAlreadyExists <==> !bad && d.key in v)
            && (r == ErrNoMemory <==> !bad && d.key !in v && |v| == |s.slots|)
            && (r == Ok <==> !bad && d.key !in v && |v| != |s.slots|)
            && v' == if r == Ok then v[d.key := Slot(true, true, 0, d)] else v
  {
    hide View, FindFrom, FreeFrom, Sum, NextThreads, SlotsOk, Counted, ThreadsOk;
    FullIff(s.slots);
    RegisterInserts(s.slots, d);
    ViewAt(s.slots, d.key);
    FreeIs(s.slots, 0);
    var e := EffectOf(s, t, DoRegister(d));
    QuietNext(s.threads, t, e);
  }

  /** The entry is of another version, or its table is too small. */
  ghost predicate Unfit(v: map<Key, Slot>, key: Key, abi: nat, minimum: nat) {
    key in v && (v[key].desc.abi != abi || v[key].desc.opsSize < minimum)
  }

  /** An acquire: the errors in the order they are looked for, and the reference it hands out. */
  lemma AcquireAnswers(s: Sys, t: nat, key: Key, abi: nat, minimum: nat)
    requires Inv(s) && Ready(s, t, DoAcquire(key, abi, minimum))
    ensures var (s', v) := (Step(s, t, DoAcquire(key, abi, minimum)), View(s.slots));
            var (v', r, th, th') := (View(s'.slots), s'.threads[t].result, s.threads[t], s'.threads[t]);
            var bad := key.moduleId == 0 || key.interfaceId == 0 || abi == 0 || minimum == 0;
            var (lost, unfit) := (key !in v || !v[key].accepting, Unfit(v, key, abi, minimum));
            && th'.mode == th.mode
            && (r == ErrInvalidParam <==> bad)
            && (r == ErrNotFound <==> !bad && lost)
            && (r == ErrAbiMismatch <==> !bad && !lost && unfit)
            && (r == ErrOverflow <==> !bad && !lost && !unfit && v[key].refs == REF_LIMIT)
            && (r == Ok <==> !bad && !lost && !unfit && v[key].refs != REF_LIMIT)
            && (r != Ok ==> s'.slots == s.slots && th'.refs == th.refs)
            && (r == Ok ==>
                  && key in v && v' == v[key := v[key].(refs := v[key].refs + 1)]
                  && Find(s.slots, key).Some?
                  && th'.refs == th.refs + [Ref(Find(s.slots, key).value, v[key].desc)])
  {
    hide View, FindFrom, Sum, SlotsOk, Counted, ThreadsOk;
    AcquireUpdates(s.slots, key, abi, minimum);
    ViewAt(s.slots, key);
  }

  /** A release gives back the one reference it names: the count of its entry falls by one, and nothing else changes. */
  lemma ReleaseAnswers(s: Sys, t: nat, which: nat)
    requires Inv(s) && Ready(s, t, DoRelease(which))
    ensures var (s', v, r) := (Step(s, t, DoRelease(which)), View(s.slots), s.threads[t].refs[which]);
            && s'.threads[t].refs == s.threads[t].refs[..which] + s.threads[t].refs[which + 1..]
            && s'.threads[t].mode.Free?
            && r.desc.key in v && v[r.desc.key].desc == r.desc && v[r.desc.key].refs > 0
            && View(s'.slots) == v[r.desc.key := v[r.desc.key].(refs := v[r.desc.key].refs - 1)]
  {
    HeldIsStable(s, t, which);
    hide View, FindFrom, Sum, Counted, ThreadsOk;
    ReleaseUpdates(s.slots, s.threads[t].refs[which].slot);
    ViewAt(s.slots, s.threads[t].refs[which].desc.key);
  }

  /** A reset closes every entry at once. It empties the registry and answers OK exactly when no reference is held, and
      waits otherwise. */
  lemma ResetAnswers(s: Sys, t: nat)
    requires Inv(s) && Ready(s, t, DoReset)
    ensures var (s', v) := (Step(s, t, DoReset), View(s.slots));
            var (v', th') := (View(s'.slots), s'.threads[t]);
            && (!AnyReferenced(s.slots) ==> v' == map[] && th'.mode.Free? && th'.result == Ok)
            && (AnyReferenced(s.slots) ==>
                  && th'.mode == ResetWait(false)
                  && v'.Keys == v.Keys && forall key :: key in v ==> v'[key] == v[key].(accepting := false))
  {
    hide View, Sum, Counted, ThreadsOk, Find;
    var closed := CloseAll(s.slots);
    CloseKeepsOk(s.slots);
    if AnyReferenced(s.slots) {
      var k :| 0 <= k < |s.slots| && Referenced(s.slots, k);
      assert Referenced(closed, k);
      forall key
        ensures key in View(s.slots) <==> key in View(closed)
        ensures key in View(s.slots) ==> View(closed)[key] == View(s.slots)[key].(accepting := false)
      {
        ClosedAt(s.slots, key);
      }
    } else {
      forall k | 0 <= k < |closed|
        ensures !Referenced(closed, k)
      {
        assert !Referenced(s.slots, k);
      }
      ClearedIsEmpty(closed);
    }
  }

  lemma ClosedAt(slots: seq<Slot>, key: Key)
    requires SlotsOk(slots)
    ensures key in View(slots) <==> key in View(CloseAll(slots))
    ensures key in View(slots) ==> View(CloseAll(slots))[key] == View(slots)[key].(accepting := false)
  {
    hide View;
    CloseKeepsOk(slots);
    ViewAt(slots, key);
    ViewAt(CloseAll(slots), key);
    FindIs(slots, key, 0);
    FindIs(CloseAll(slots), key, 0);
    if Find(slots, key).Some? {
      var i := Find(slots, key).value;
      assert Holds(CloseAll(slots)[i], key);
      FindsTheHolder(CloseAll(slots), i);
    }
  }
}
