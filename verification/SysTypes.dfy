/** Error codes shared by every subsystem, and the small sequence facts the proofs rest on. */
module SysTypes {

  /** `sys_err_t`: success and the eighteen error codes. */
  datatype SysErr =
    | Ok
    | ErrGeneric | ErrNotFound | ErrNotSupported | ErrInvalidParam | ErrNoMemory
    | ErrAlreadyExists | ErrBusy | ErrTimeout | ErrQueueFull | ErrClosed
    | ErrDependency | ErrState | ErrAbiMismatch | ErrWouldBlock | ErrCancelled
    | ErrOverflow | ErrIo | ErrPermission

  datatype Option<+T> = None | Some(value: T)

  /** No entry repeats an earlier one. */
  ghost predicate Distinct<T(!new)>(s: seq<T>) {
    forall k :: 0 <= k < |s| ==> s[k] !in s[..k]
  }

  lemma DistinctSnoc<T(!new)>(s: seq<T>, x: T)
    requires Distinct(s) && x !in s
    ensures Distinct(s + [x])
  {
    var longer := s + [x];
    forall k | 0 <= k < |longer|
      ensures longer[k] !in longer[..k]
    {
      assert longer[..k] == s[..k];
    }
  }

  lemma DistinctSplit<T(!new)>(s: seq<T>, x: T)
    requires Distinct(s + [x])
    ensures Distinct(s) && x !in s
  {
    var longer := s + [x];
    assert longer[..|s|] == s && longer[|s|] == x;
    forall k | 0 <= k < |s|
      ensures s[k] !in s[..k]
    {
      assert longer[k] == s[k] && longer[..k] == s[..k];
    }
  }

  lemma DistinctPair<T(!new)>(s: seq<T>, i: nat, j: nat)
    requires Distinct(s) && i < j < |s|
    ensures s[i] != s[j]
  {
    assert s[..j][i] == s[i];
  }

  lemma DistinctIndex<T(!new)>(s: seq<T>, i: nat, j: nat)
    requires Distinct(s) && i < |s| && j < |s|
    ensures s[i] == s[j] <==> i == j
  {
    if i < j {
      DistinctPair(s, i, j);
    } else if j < i {
      DistinctPair(s, j, i);
    }
  }

  /** A sequence without repetitions drawn from a finite set is no longer than the set. */
  lemma {:induction false} DistinctFits<T(!new)>(s: seq<T>, pool: set<T>)
    requires Distinct(s)
    requires forall x :: x in s ==> x in pool
    ensures |s| <= |pool|
  {
    if s != [] {
      var init, last := s[..|s| - 1], s[|s| - 1];
      assert s == init + [last];
      DistinctSplit(init, last);
      DistinctFits(init, pool - {last});
    }
  }

  function Elems<T>(s: seq<T>): set<T> {
    set x | x in s
  }

  lemma {:induction false} ElemsSize<T(!new)>(s: seq<T>)
    requires Distinct(s)
    ensures |Elems(s)| == |s|
  {
    if s != [] {
      var init, last := s[..|s| - 1], s[|s| - 1];
      assert s == init + [last];
      DistinctSplit(init, last);
      ElemsSize(init);
      assert Elems(s) == Elems(init) + {last};
    }
  }

  function Reverse<T>(s: seq<T>): (r: seq<T>)
    ensures |r| == |s|
  {
    if s == [] then [] else [s[|s| - 1]] + Reverse(s[..|s| - 1])
  }

  lemma {:induction false} SmallerSet<T>(a: set<T>, b: set<T>)
    requires a < b
    ensures |a| < |b|
  {
    var x :| x in b && x !in a;
    SubsetSize(a, b - {x});
  }

  lemma {:induction false} SubsetSize<T>(a: set<T>, b: set<T>)
    requires a <= b
    ensures |a| <= |b|
  {
    if a != {} {
      var x :| x in a;
      SubsetSize(a - {x}, b - {x});
    }
  }

  // ----- rings

  /** The slot `i` places behind the head. */
  function Slot(head: nat, i: nat, capacity: nat): nat {
    if head + i < capacity then head + i else head + i - capacity
  }

  lemma AtLeastTwice(q: nat, n: nat)
    requires q >= 2
    ensures q * n >= 2 * n
  {
    assert q * n == 2 * n + (q - 2) * n;
  }

  lemma SlotIsMod(head: nat, i: nat, capacity: nat)
    requires head < capacity && i <= capacity
    ensures (head + i) % capacity == Slot(head, i, capacity)
  {
    var q, r := (head + i) / capacity, (head + i) % capacity;
    assert head + i == q * capacity + r;
    if q >= 2 {
      AtLeastTwice(q, capacity);
      assert false;
    } else if q == 1 {
      assert q * capacity == capacity;
    } else {
      assert q * capacity == 0;
    }
  }

  /** Seen from the next head, every slot moves up by one place, and none of them is the old head. */
  lemma SlotShifts(head: nat, i: nat, capacity: nat)
    requires head < capacity && i + 1 < capacity
    ensures Slot(Slot(head, 1, capacity), i, capacity) == Slot(head, i + 1, capacity) != head
  {
  }
}
