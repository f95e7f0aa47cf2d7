/** The service registry as a value: 64 slots, and one function per section under the registry mutex. */
module ServiceModel {
  import opened SysTypes

  const SLOT_COUNT: nat := 64
  const REF_LIMIT: nat := 0xFFFF_FFFF_FFFF_FFFF

  datatype Key = Key(moduleId: nat, interfaceId: nat)

  /** A service descriptor; `ops` 0 stands for a null table. */
  datatype Desc = Desc(key: Key, abi: nat, opsSize: nat, ops: nat, named: bool)

  datatype Slot = Slot(used: bool, accepting: bool, refs: nat, desc: Desc)

  const NO_DESC := Desc(Key(0, 0), 0, 0, 0, false)
  const EMPTY := Slot(false, false, 0, NO_DESC)

  predicate Holds(slot: Slot, key: Key) {
    slot.used && slot.desc.key == key
  }

  /** find_service: the first slot that holds the key. */
  function FindFrom(slots: seq<Slot>, key: Key, i: nat): (r: Option<nat>)
    requires i <= |slots|
    ensures r.Some? ==> i <= r.value < |slots| && Holds(slots[r.value], key)
    decreases |slots| - i
  {
    if i == |slots| then None
    else if Holds(slots[i], key) then Some(i)
    else FindFrom(slots, key, i + 1)
  }

  function Find(slots: seq<Slot>, key: Key): (r: Option<nat>)
    ensures r.Some? ==> r.value < |slots| && Holds(slots[r.value], key)
  {
    FindFrom(slots, key, 0)
  }

  function FreeFrom(slots: seq<Slot>, i: nat): (r: Option<nat>)
    requires i <= |slots|
    ensures r.Some? ==> i <= r.value < |slots| && !slots[r.value].used
    decreases |slots| - i
  {
    if i == |slots| then None else if !slots[i].used then Some(i) else FreeFrom(slots, i + 1)
  }

  predicate Complete(d: Desc) {
    d.key.moduleId != 0 && d.key.interfaceId != 0 && d.abi != 0 && d.ops != 0 && d.opsSize != 0 && d.named
  }

  function Register(slots: seq<Slot>, d: Desc): (r: (seq<Slot>, SysErr))
    ensures |r.0| == |slots|
  {
    if !Complete(d) then (slots, ErrInvalidParam)
    else if Find(slots, d.key).Some? then (slots, ErrAlreadyExists)
    else match FreeFrom(slots, 0)
         case None => (slots, ErrNoMemory)
         case Some(i) => (slots[i := Slot(true, true, 0, d)], Ok)
  }

  /** The first part of an unregister: the slot it will drain, closed for new references. */
  function BeginUnregister(slots: seq<Slot>, key: Key): (r: (seq<Slot>, Option<nat>))
    ensures |r.0| == |slots| && (r.1.Some? ==> r.1.value < |slots|)
  {
    match Find(slots, key)
    case None => (slots, None)
    case Some(i) => (slots[i := slots[i].(accepting := false)], Some(i))
  }

  function Acquire(slots: seq<Slot>, key: Key, abi: nat, minimum: nat): (r: (seq<Slot>, SysErr, Option<nat>))
    ensures |r.0| == |slots| && (r.2.Some? <==> r.1 == Ok) && (r.2.Some? ==> r.2.value < |slots|)
  {
    if key.moduleId == 0 || key.interfaceId == 0 || abi == 0 || minimum == 0 then (slots, ErrInvalidParam, None)
    else match Find(slots, key)
      case None => (slots, ErrNotFound, None)
      case Some(i) =>
        if !slots[i].accepting then (slots, ErrNotFound, None)
        else if slots[i].desc.abi != abi || slots[i].desc.opsSize < minimum then (slots, ErrAbiMismatch, None)
        else if slots[i].refs == REF_LIMIT then (slots, ErrOverflow, None)
        else (slots[i := slots[i].(refs := slots[i].refs + 1)], Ok, Some(i))
  }

  /** sys_service_release; the flag tells whether it broadcasts. */
  function Release(slots: seq<Slot>, i: nat): (r: (seq<Slot>, bool))
    requires i < |slots|
    ensures |r.0| == |slots|
  {
    if slots[i].refs == 0 then (slots, false)
    else (slots[i := slots[i].(refs := slots[i].refs - 1)], slots[i].refs == 1)
  }

  predicate Referenced(slots: seq<Slot>, i: nat) {
    i < |slots| && slots[i].refs != 0
  }

  predicate AnyReferenced(slots: seq<Slot>) {
    exists i :: 0 <= i < |slots| && Referenced(slots, i)
  }

  function CloseAll(slots: seq<Slot>): (r: seq<Slot>)
    ensures |r| == |slots|
  {
    seq(|slots|, i requires 0 <= i < |slots| => slots[i].(accepting := false))
  }

  function ClearAll(slots: seq<Slot>): (r: seq<Slot>)
    ensures |r| == |slots|
  {
    seq(|slots|, i requires 0 <= i < |slots| => EMPTY)
  }

  // ----- the slots as a map from keys

  ghost predicate SlotOk(slot: Slot) {
    (slot.used || slot == EMPTY) && slot.refs <= REF_LIMIT
  }

  ghost predicate OnlyAt(slots: seq<Slot>, i: nat) {
    i < |slots| && forall j :: 0 <= j < |slots| && j != i ==> !Holds(slots[j], slots[i].desc.key)
  }

  /** Free slots are blank and no key is held twice. */
  ghost predicate SlotsOk(slots: seq<Slot>) {
    && (forall i :: 0 <= i < |slots| ==> SlotOk(slots[i]))
    && (forall i :: 0 <= i < |slots| && slots[i].used ==> OnlyAt(slots, i))
  }

  lemma {:induction false} FindIs(slots: seq<Slot>, key: Key, i: nat)
    requires i <= |slots|
    ensures FindFrom(slots, key, i).None? <==> forall j :: i <= j < |slots| ==> !Holds(slots[j], key)
    decreases |slots| - i
  {
    if i < |slots| && !Holds(slots[i], key) {
      FindIs(slots, key, i + 1);
    }
  }

  /** A key is found exactly where it is held. */
  lemma FindsTheHolder(slots: seq<Slot>, i: nat)
    requires SlotsOk(slots) && i < |slots| && slots[i].used
    ensures Find(slots, slots[i].desc.key) == Some(i)
  {
    FindIs(slots, slots[i].desc.key, 0);
    assert OnlyAt(slots, i) && Holds(slots[i], slots[i].desc.key);
  }

  ghost function KeysOf(slots: seq<Slot>): set<Key> {
    set i | 0 <= i < |slots| && slots[i].used :: slots[i].desc.key
  }

  /** What the registry holds, by key. */
  ghost function View(slots: seq<Slot>): map<Key, Slot> {
    map key | key in KeysOf(slots) && Find(slots, key).Some? :: slots[Find(slots, key).value]
  }

  lemma ViewAt(slots: seq<Slot>, key: Key)
    requires SlotsOk(slots)
    ensures key in View(slots) <==> Find(slots, key).Some?
    ensures key in View(slots) ==> View(slots)[key] == slots[Find(slots, key).value]
  {
    FindIs(slots, key, 0);
    if Find(slots, key).Some? {
      var i := Find(slots, key).value;
      assert slots[i].desc.key in KeysOf(slots);
    }
  }

  lemma PutKeepsOk(slots: seq<Slot>, i: nat, slot: Slot)
    requires SlotsOk(slots) && i < |slots| && SlotOk(slot)
    requires slot.used ==> forall j :: 0 <= j < |slots| && j != i ==> !Holds(slots[j], slot.desc.key)
    ensures SlotsOk(slots[i := slot])
  {
    var slots' := slots[i := slot];
    forall j | 0 <= j < |slots'| && slots'[j].used
      ensures OnlyAt(slots', j)
    {
      assert j != i ==> OnlyAt(slots, j);
    }
  }

  /** Changing one slot to hold a key that no other slot holds changes the map at that key only. */
  lemma PutIsInsert(slots: seq<Slot>, i: nat, slot: Slot)
    requires SlotsOk(slots) && i < |slots| && slot.used && SlotOk(slot)
    requires !slots[i].used || slots[i].desc.key == slot.desc.key
    requires forall j :: 0 <= j < |slots| && j != i ==> !Holds(slots[j], slot.desc.key)
    ensures SlotsOk(slots[i := slot])
    ensures View(slots[i := slot]) == View(slots)[slot.desc.key := slot]
  {
    hide View, Find, OnlyAt;
    var slots' := slots[i := slot];
    PutKeepsOk(slots, i, slot);
    FindsTheHolder(slots', i);
    forall key
      ensures key in View(slots') <==> key in View(slots) || key == slot.desc.key
      ensures key in View(slots') ==> View(slots')[key] == if key == slot.desc.key then slot else View(slots)[key]
    {
      ViewAt(slots, key);
      ViewAt(slots', key);
      if key != slot.desc.key {
        OtherKeysStay(slots, i, slot, key);
      }
    }
  }

  lemma OtherKeysStay(slots: seq<Slot>, i: nat, slot: Slot, key: Key)
    requires i < |slots| && SlotsOk(slots) && SlotsOk(slots[i := slot])
    requires !Holds(slots[i], key) && !Holds(slot, key)
    ensures Find(slots[i := slot], key) == Find(slots, key)
  {
    var slots' := slots[i := slot];
    FindIs(slots, key, 0);
    FindIs(slots', key, 0);
    if Find(slots, key).Some? {
      var j := Find(slots, key).value;
      assert Holds(slots'[j], key);
      FindsTheHolder(slots', j);
    }
  }

  /** Blanking a slot deletes its key. */
  lemma BlankIsDelete(slots: seq<Slot>, i: nat)
    requires SlotsOk(slots) && i < |slots| && slots[i].used
    ensures SlotsOk(slots[i := EMPTY])
    ensures View(slots[i := EMPTY]) == View(slots) - {slots[i].desc.key}
  {
    hide View, Find, OnlyAt;
    var slots', gone := slots[i := EMPTY], slots[i].desc.key;
    PutKeepsOk(slots, i, EMPTY);
    NobodyElseHolds(slots, i);
    forall key
      ensures key in View(slots') <==> key in View(slots) && key != gone
      ensures key in View(slots') ==> View(slots')[key] == View(slots)[key]
    {
      ViewAt(slots, key);
      ViewAt(slots', key);
      if key != gone {
        OtherKeysStay(slots, i, EMPTY, key);
      }
    }
  }

  lemma NobodyElseHolds(slots: seq<Slot>, i: nat)
    requires SlotsOk(slots) && i < |slots| && slots[i].used
    ensures Find(slots[i := EMPTY], slots[i].desc.key).None?
  {
    FindIs(slots[i := EMPTY], slots[i].desc.key, 0);
    assert OnlyAt(slots, i);
  }

  // ----- the operations on the map

  /** register: inserts a fresh entry exactly when the descriptor is complete, its key is new and a slot is free. */
  lemma RegisterInserts(slots: seq<Slot>, d: Desc)
    requires SlotsOk(slots)
    ensures var (slots', r) := Register(slots, d);
            && SlotsOk(slots')
            && (r == Ok <==> Complete(d) && d.key !in View(slots) && exists i :: 0 <= i < |slots| && !slots[i].used)
            && View(slots') == if r == Ok then View(slots)[d.key := Slot(true, true, 0, d)] else View(slots)
  {
    ViewAt(slots, d.key);
    FindIs(slots, d.key, 0);
    FreeIs(slots, 0);
    if Register(slots, d).1 == Ok {
      PutIsInsert(slots, FreeFrom(slots, 0).value, Slot(true, true, 0, d));
    }
  }

  lemma {:induction false} FreeIs(slots: seq<Slot>, i: nat)
    requires i <= |slots|
    ensures FreeFrom(slots, i).None? <==> forall j :: i <= j < |slots| ==> slots[j].used
    ensures FreeFrom(slots, i).Some? ==> forall j :: i <= j < FreeFrom(slots, i).value ==> slots[j].used
    decreases |slots| - i
  {
    if i < |slots| && slots[i].used {
      FreeIs(slots, i + 1);
    }
  }

  /** acquire: takes one more reference to the entry under the key exactly when it accepts them and fits. */
  lemma AcquireUpdates(slots: seq<Slot>, key: Key, abi: nat, minimum: nat)
    requires SlotsOk(slots)
    ensures var (slots', r, i) := Acquire(slots, key, abi, minimum);
            && SlotsOk(slots')
            && (r == Ok <==>
                  && key.moduleId != 0 && key.interfaceId != 0 && abi != 0 && minimum != 0 && key in View(slots)
                  && View(slots)[key].accepting && View(slots)[key].desc.abi == abi
                  && View(slots)[key].desc.opsSize >= minimum && View(slots)[key].refs < REF_LIMIT)
            && (r != Ok ==> slots' == slots)
            && (r == Ok ==>
                  && key in View(slots)
                  && View(slots') == View(slots)[key := View(slots)[key].(refs := View(slots)[key].refs + 1)])
  {
    ViewAt(slots, key);
    var (slots', r, _) := Acquire(slots, key, abi, minimum);
    if Find(slots, key).Some? {
      var i := Find(slots, key).value;
      assert SlotOk(slots[i]) && OnlyAt(slots, i);
      if r == Ok {
        PutIsInsert(slots, i, slots'[i]);
      }
    }
  }

  /** The first part of an unregister closes the entry under the key, if there is one. */
  lemma UnregisterCloses(slots: seq<Slot>, key: Key)
    requires SlotsOk(slots)
    ensures var (slots', i) := BeginUnregister(slots, key);
            && SlotsOk(slots') && (i.Some? <==> key in View(slots))
            && (i.None? ==> slots' == slots)
            && (i.Some? ==> slots[i.value].used && slots[i.value].desc.key == key
                            && View(slots') == View(slots)[key := View(slots)[key].(accepting := false)])
  {
    ViewAt(slots, key);
    var (slots', i) := BeginUnregister(slots, key);
    if i.Some? {
      assert SlotOk(slots[i.value]) && OnlyAt(slots, i.value);
      PutIsInsert(slots, i.value, slots'[i.value]);
    }
  }

  /** release gives back one reference of the entry in the slot. */
  lemma ReleaseUpdates(slots: seq<Slot>, i: nat)
    requires SlotsOk(slots) && i < |slots| && slots[i].refs > 0
    ensures slots[i].used && SlotsOk(Release(slots, i).0)
    ensures var key := slots[i].desc.key;
            key in View(slots)
            && View(Release(slots, i).0) == View(slots)[key := View(slots)[key].(refs := View(slots)[key].refs - 1)]
  {
    assert SlotOk(slots[i]) && OnlyAt(slots, i);
    FindsTheHolder(slots, i);
    ViewAt(slots, slots[i].desc.key);
    PutIsInsert(slots, i, Release(slots, i).0[i]);
  }
}
