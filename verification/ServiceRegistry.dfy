/** The service registry as the program keeps it: a fixed array of slots, scanned and updated in place. */
module ServiceRegistry {
  import opened SysTypes
  import opened ServiceModel

  class Registry {
    const slots: array<Slot>

    ghost predicate Valid() {
      slots.Length == SLOT_COUNT
    }

    constructor ()
      ensures Valid() && fresh(slots)
      ensures forall i :: 0 <= i < SLOT_COUNT ==> slots[i] == EMPTY
    {
      slots := new Slot[SLOT_COUNT](_ => EMPTY);
    }

    method FindService(key: Key) returns (r: Option<nat>)
      requires Valid()
      ensures r == Find(slots[..], key)
    {
      for i := 0 to slots.Length
        invariant Find(slots[..], key) == FindFrom(slots[..], key, i)
      {
        if slots[i].used && slots[i].desc.key == key {
          return Some(i);
        }
      }
      return None;
    }

    method Register(d: Desc) returns (r: SysErr)
      requires Valid()
      modifies slots
      ensures (slots[..], r) == ServiceModel.Register(old(slots[..]), d)
    {
      if d.key.moduleId == 0 || d.key.interfaceId == 0 || d.abi == 0 || d.ops == 0 || d.opsSize == 0 || !d.named {
        return ErrInvalidParam;
      }
      var present := FindService(d.key);
      if present.Some? {
        return ErrAlreadyExists;
      }
      for i := 0 to slots.Length
        invariant slots[..] == old(slots[..])
        invariant FreeFrom(slots[..], 0) == FreeFrom(slots[..], i)
      {
        if !slots[i].used {
          slots[i] := Slot(true, true, 0, d);
          return Ok;
        }
      }
      return ErrNoMemory;
    }

    /** The first part of an unregister: finds the slot and closes it for new references. */
    method BeginUnregister(key: Key) returns (r: Option<nat>)
      requires Valid()
      modifies slots
      ensures (slots[..], r) == ServiceModel.BeginUnregister(old(slots[..]), key)
    {
      r := FindService(key);
      if r.Some? {
        slots[r.value] := slots[r.value].(accepting := false);
      }
    }

    method Clear(i: nat)
      requires Valid() && i < SLOT_COUNT
      modifies slots
      ensures slots[..] == old(slots[..])[i := EMPTY]
    {
      slots[i] := EMPTY;
    }

    method Acquire(key: Key, abi: nat, minimum: nat) returns (r: SysErr, at: Option<nat>)
      requires Valid()
      modifies slots
      ensures (slots[..], r, at) == ServiceModel.Acquire(old(slots[..]), key, abi, minimum)
    {
      if key.moduleId == 0 || key.interfaceId == 0 || abi == 0 || minimum == 0 {
        return ErrInvalidParam, None;
      }
      at := FindService(key);
      if at.None? || !slots[at.value].accepting {
        return ErrNotFound, None;
      }
      var slot := slots[at.value];
      if slot.desc.abi != abi || slot.desc.opsSize < minimum {
        return ErrAbiMismatch, None;
      }
      if slot.refs == REF_LIMIT {
        return ErrOverflow, None;
      }
      slots[at.value] := slot.(refs := slot.refs + 1);
      r := Ok;
    }

    method Release(i: nat) returns (broadcast: bool)
      requires Valid() && i < SLOT_COUNT
      modifies slots
      ensures (slots[..], broadcast) == ServiceModel.Release(old(slots[..]), i)
    {
      broadcast := false;
      if slots[i].refs > 0 {
        slots[i] := slots[i].(refs := slots[i].refs - 1);
        broadcast := slots[i].refs == 0;
      }
    }

    method BeginReset()
      requires Valid()
      modifies slots
      ensures slots[..] == CloseAll(old(slots[..]))
    {
      for i := 0 to slots.Length
        invariant forall k :: i <= k < slots.Length ==> slots[k] == old(slots[k])
        invariant forall k :: 0 <= k < i ==> slots[k] == old(slots[k]).(accepting := false)
      {
        slots[i] := slots[i].(accepting := false);
      }
    }

    method HasReferences() returns (r: bool)
      requires Valid()
      ensures r == AnyReferenced(slots[..])
    {
      for i := 0 to slots.Length
        invariant forall k :: 0 <= k < i ==> !Referenced(slots[..], k)
      {
        if slots[i].refs != 0 {
          assert Referenced(slots[..], i);
          return true;
        }
      }
      return false;
    }

    method ClearSlots()
      requires Valid()
      modifies slots
      ensures slots[..] == ClearAll(old(slots[..]))
    {
      for i := 0 to slots.Length
        invariant forall k :: 0 <= k < i ==> slots[k] == EMPTY
      {
        slots[i] := EMPTY;
      }
    }
  }
}
