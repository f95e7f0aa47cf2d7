/** validate_components accepts exactly the tables the engine can run, in any link order. */
module ComponentTable {
  import opened SysTypes
  import opened ComponentModel
  import opened ComponentLifecycle

  ghost predicate WellFormed(d: Desc) {
    d.id != 0 && d.named && d.hasInit && d.phase < PHASE_COUNT && d.policy <= OPTIONAL
  }

  ghost predicate Target(ds: seq<Desc>, x: nat, phase: nat) {
    exists d :: d in ds && d.id == x && d.phase <= phase
  }

  ghost predicate TargetsKnown(ds: seq<Desc>, d: Desc) {
    forall x :: x in d.deps ==> Target(ds, x, d.phase)
  }

  /** Well-formed descriptors, unique ids, and dependencies in the same phase or an earlier one. */
  ghost predicate TableOk(ds: seq<Desc>) {
    && Distinct(Ids(ds))
    && forall d :: d in ds ==> WellFormed(d) && TargetsKnown(ds, d)
  }

  lemma UniqueId(ds: seq<Desc>, a: Desc, b: Desc)
    requires Distinct(Ids(ds)) && a in ds && b in ds && a.id == b.id
    ensures a == b
  {
    forall i: nat, j: nat | i < j < |ds|
      ensures ds[i].id != ds[j].id
    {
      DistinctPair(Ids(ds), i, j);
    }
  }

  lemma TargetChecked(ds: seq<Desc>, x: nat, phase: nat)
    requires Distinct(Ids(ds))
    ensures Find(ds, x).Some? && ds[Find(ds, x).value].phase <= phase <==> Target(ds, x, phase)
  {
    hide Distinct, Ids;
    FindFirst(ds, x);
    if Find(ds, x).Some? && Target(ds, x, phase) {
      var d :| d in ds && d.id == x && d.phase <= phase;
      UniqueId(ds, d, ds[Find(ds, x).value]);
    }
  }

  lemma {:induction false} TargetsChecked(ds: seq<Desc>, d: Desc, j: nat)
    requires Distinct(Ids(ds)) && j <= |d.deps|
    ensures CheckDepTargets(ds, d, j) == Ok <==> forall k :: j <= k < |d.deps| ==> Target(ds, d.deps[k], d.phase)
    decreases |d.deps| - j
  {
    hide Distinct, Ids, Target, Find;
    if j < |d.deps| {
      TargetsChecked(ds, d, j + 1);
      TargetChecked(ds, d.deps[j], d.phase);
    }
  }

  lemma FoundLater(ds: seq<Desc>, i: nat)
    requires i < |ds|
    ensures Find(ds[i + 1..], ds[i].id).Some? <==> exists j :: i < j < |ds| && ds[j].id == ds[i].id
  {
    FindFirst(ds[i + 1..], ds[i].id);
    match Find(ds[i + 1..], ds[i].id)
    case None =>
      forall j | i < j < |ds|
        ensures ds[j].id != ds[i].id
      {
        assert ds[i + 1..][j - i - 1] == ds[j];
      }
    case Some(k) =>
      assert ds[i + 1 + k].id == ds[i].id;
  }

  /** From position `i` on: no later duplicate, well formed, known targets. */
  ghost predicate EntryOk(ds: seq<Desc>, i: nat)
    requires i < |ds|
  {
    && WellFormed(ds[i])
    && Find(ds[i + 1..], ds[i].id).None?
    && CheckDepTargets(ds, ds[i], 0) == Ok
  }

  lemma {:induction false} ValidatesEntries(ds: seq<Desc>, i: nat)
    requires i <= |ds|
    ensures ValidateFrom(ds, i) == Ok <==> forall k :: i <= k < |ds| ==> EntryOk(ds, k)
    decreases |ds| - i
  {
    if i < |ds| {
      ValidatesEntries(ds, i + 1);
      var here := EntryOk(ds, i);
    }
  }

  lemma EntriesMakeTable(ds: seq<Desc>)
    requires forall k :: 0 <= k < |ds| ==> EntryOk(ds, k)
    ensures TableOk(ds)
  {
    forall j | 0 <= j < |ds|
      ensures Ids(ds)[j] !in Ids(ds)[..j]
    {
      forall i | 0 <= i < j
        ensures ds[i].id != ds[j].id
      {
        assert EntryOk(ds, i);
        FoundLater(ds, i);
      }
    }
    forall d | d in ds
      ensures WellFormed(d) && TargetsKnown(ds, d)
    {
      var k :| 0 <= k < |ds| && ds[k] == d;
      assert EntryOk(ds, k);
      TargetsChecked(ds, d, 0);
    }
  }

  lemma TableMakesEntries(ds: seq<Desc>)
    requires TableOk(ds)
    ensures forall k :: 0 <= k < |ds| ==> EntryOk(ds, k)
  {
    forall k | 0 <= k < |ds|
      ensures EntryOk(ds, k)
    {
      FoundLater(ds, k);
      TargetsChecked(ds, ds[k], 0);
      forall j | k < j < |ds|
        ensures ds[j].id != ds[k].id
      {
        DistinctPair(Ids(ds), k, j);
      }
      assert WellFormed(ds[k]) && TargetsKnown(ds, ds[k]);
    }
  }

  /** Validation accepts exactly the well-formed tables. */
  lemma ValidateIff(ds: seq<Desc>)
    ensures ValidateFrom(ds, 0) == Ok <==> TableOk(ds)
  {
    hide EntryOk, TableOk;
    ValidatesEntries(ds, 0);
    if forall k :: 0 <= k < |ds| ==> EntryOk(ds, k) {
      EntriesMakeTable(ds);
    }
    if TableOk(ds) {
      TableMakesEntries(ds);
    }
  }

  // ----- which error a bad table gives

  /** Position `m` holds the first descriptor with id `x`, in `phase` or an earlier one. */
  ghost predicate FirstWith(ds: seq<Desc>, x: nat, m: nat, phase: nat) {
    m < |ds| && ds[m].id == x && ds[m].phase <= phase && forall i :: 0 <= i < m ==> ds[i].id != x
  }

  ghost predicate Leads(ds: seq<Desc>, x: nat, phase: nat) {
    exists m :: FirstWith(ds, x, m, phase)
  }

  ghost predicate TargetsFound(ds: seq<Desc>, d: Desc) {
    forall j :: 0 <= j < |d.deps| ==> Leads(ds, d.deps[j], d.phase)
  }

  /** What is wrong with the descriptor at `k`, the graver fault first. */
  ghost function Fault(ds: seq<Desc>, k: nat): SysErr
    requires k < |ds|
  {
    if !WellFormed(ds[k]) then ErrInvalidParam
    else if exists j :: k < j < |ds| && ds[j].id == ds[k].id then ErrAlreadyExists
    else if !TargetsFound(ds, ds[k]) then ErrDependency
    else Ok
  }

  lemma TargetFound(ds: seq<Desc>, x: nat, phase: nat)
    ensures Find(ds, x).Some? && ds[Find(ds, x).value].phase <= phase <==> Leads(ds, x, phase)
  {
    FindFirst(ds, x);
    if Find(ds, x).Some? {
      var m := Find(ds, x).value;
      if ds[m].phase <= phase {
        assert FirstWith(ds, x, m, phase);
      } else {
        forall k | FirstWith(ds, x, k, phase)
          ensures k == m
        {
        }
      }
    }
  }

  lemma {:induction false} TargetsFoundFrom(ds: seq<Desc>, d: Desc, j: nat)
    requires j <= |d.deps|
    ensures CheckDepTargets(ds, d, j) == Ok <==>
            forall k :: j <= k < |d.deps| ==> Leads(ds, d.deps[k], d.phase)
    ensures CheckDepTargets(ds, d, j) == Ok || CheckDepTargets(ds, d, j) == ErrDependency
    decreases |d.deps| - j
  {
    hide Find, Leads;
    if j < |d.deps| {
      TargetsFoundFrom(ds, d, j + 1);
      TargetFound(ds, d.deps[j], d.phase);
    }
  }

  lemma {:induction false} FaultFrom(ds: seq<Desc>, i: nat)
    requires i <= |ds|
    ensures var code := ValidateFrom(ds, i);
            if code == Ok then forall k :: i <= k < |ds| ==> Fault(ds, k) == Ok
            else exists k :: i <= k < |ds| && code == Fault(ds, k) && forall j :: i <= j < k ==> Fault(ds, j) == Ok
    decreases |ds| - i
  {
    hide Find, CheckDepTargets, Fault;
    if i < |ds| {
      FaultHere(ds, i);
      FaultFrom(ds, i + 1);
      var code := ValidateFrom(ds, i);
      if Fault(ds, i) == Ok && code != Ok {
        var k :| i + 1 <= k < |ds| && code == Fault(ds, k) && forall j :: i + 1 <= j < k ==> Fault(ds, j) == Ok;
      }
    }
  }

  lemma FaultHere(ds: seq<Desc>, i: nat)
    requires i < |ds|
    ensures ValidateFrom(ds, i) == if Fault(ds, i) != Ok then Fault(ds, i) else ValidateFrom(ds, i + 1)
  {
    hide Find, CheckDepTargets;
    FoundLater(ds, i);
    TargetsFoundFrom(ds, ds[i], 0);
  }

  /** The error of a refused table is the fault of the first faulty descriptor, in link order. */
  lemma ValidationAnswers(ds: seq<Desc>)
    ensures var code := ValidateFrom(ds, 0);
            if code == Ok then forall k :: 0 <= k < |ds| ==> Fault(ds, k) == Ok
            else exists k :: 0 <= k < |ds| && code == Fault(ds, k) && forall j :: 0 <= j < k ==> Fault(ds, j) == Ok
  {
    FaultFrom(ds, 0);
  }

  lemma DescMapHolds(ds: seq<Desc>)
    requires Distinct(Ids(ds))
    ensures forall d :: d in ds ==> d.id in DescMap(ds) && DescMap(ds)[d.id] == d
    ensures forall id :: id in DescMap(ds) ==> DescMap(ds)[id] in ds && DescMap(ds)[id].id == id
  {
    hide DescMap;
    DescMapSound(ds);
    forall d | d in ds
      ensures d.id in DescMap(ds) && DescMap(ds)[d.id] == d
    {
      UniqueId(ds, d, DescMap(ds)[d.id]);
    }
  }

  /** A validated table meets the engine's assumptions, and starts with everything discovered. */
  lemma ValidatedTable(ds: seq<Desc>)
    requires TableOk(ds)
    ensures ValidTable(TableOf(ds))
  {
    var t := TableOf(ds);
    DescMapHolds(ds);
    forall id | id in t.descs
      ensures id in t.order && t.descs[id].phase < PHASE_COUNT && DepsKnown(t.descs, t.descs[id])
    {
      var d := t.descs[id];
      assert d in ds && WellFormed(d) && TargetsKnown(ds, d);
      var k :| 0 <= k < |ds| && ds[k] == d;
      assert t.order[k] == id;
      forall x | x in d.deps
        ensures x in t.descs && t.descs[x].phase <= d.phase
      {
        var target :| target in ds && target.id == x && target.phase <= d.phase;
      }
    }
    forall id | id in t.order
      ensures id in t.descs
    {
      var k :| 0 <= k < |ds| && ds[k].id == id;
      assert ds[k] in ds;
    }
  }

  lemma {:induction false} FindFirst(ds: seq<Desc>, id: nat)
    ensures Find(ds, id).None? <==> forall k :: 0 <= k < |ds| ==> ds[k].id != id
    ensures Find(ds, id).Some? ==> forall k :: 0 <= k < Find(ds, id).value ==> ds[k].id != id
  {
    if ds != [] {
      FindFirst(ds[1..], id);
      assert forall k :: 1 <= k < |ds| ==> ds[k] == ds[1..][k - 1];
    }
  }

  lemma DiscoveredStage(ds: seq<Desc>)
    ensures InitStage(TableOf(ds), Discover(ds))
    ensures NoneLost(TableOf(ds), Discover(ds)) && ResolvedBelow(TableOf(ds), Discover(ds), 0)
    ensures forall id :: id in TableOf(ds).descs ==> Discover(ds).rt[id].state.Discovered?
  {
    hide DescMap;
    DescMapSound(ds);
  }

  // ----- permutations

  lemma {:induction false} CollectPermutes(a: seq<Desc>, d: Desc)
    ensures multiset(Collect(a))[d] == if d.hasInit then multiset(a)[d] else 0
  {
    if a != [] {
      CollectPermutes(a[1..], d);
      assert a == [a[0]] + a[1..];
    }
  }

  /** Collection keeps the link order. */
  lemma {:induction false} CollectKeepsOrder(a: seq<Desc>, b: seq<Desc>)
    ensures Collect(a + b) == Collect(a) + Collect(b)
  {
    if a == [] {
      assert a + b == b;
    } else {
      assert (a + b)[1..] == a[1..] + b;
      CollectKeepsOrder(a[1..], b);
    }
  }

  lemma {:induction false} IdsPermute(a: seq<Desc>)
    ensures Elems(Ids(a)) == set d | d in multiset(a) :: d.id
  {
    forall x | x in Ids(a)
      ensures exists d :: d in multiset(a) && d.id == x
    {
      var k :| 0 <= k < |a| && Ids(a)[k] == x;
      assert a[k] in multiset(a);
    }
    forall d | d in multiset(a)
      ensures d.id in Ids(a)
    {
      var k :| 0 <= k < |a| && a[k] == d;
      assert Ids(a)[k] == d.id;
    }
  }

  lemma {:induction false} DistinctBySize(s: seq<nat>)
    requires |Elems(s)| == |s|
    ensures Distinct(s)
  {
    if s != [] {
      var init, last := s[..|s| - 1], s[|s| - 1];
      assert s == init + [last];
      assert Elems(s) == Elems(init) + {last};
      ElemsAtMost(init);
      DistinctBySize(init);
      DistinctSnoc(init, last);
    }
  }

  lemma {:induction false} ElemsAtMost(s: seq<nat>)
    ensures |Elems(s)| <= |s|
  {
    if s != [] {
      var init, last := s[..|s| - 1], s[|s| - 1];
      assert s == init + [last];
      ElemsAtMost(init);
      assert Elems(s) == Elems(init) + {last};
    }
  }

  lemma DistinctPermutes(a: seq<Desc>, b: seq<Desc>)
    requires multiset(a) == multiset(b) && Distinct(Ids(a))
    ensures Distinct(Ids(b))
  {
    assert |a| == |multiset(a)| == |multiset(b)| == |b|;
    IdsPermute(a);
    IdsPermute(b);
    ElemsSize(Ids(a));
    DistinctBySize(Ids(b));
  }

  lemma TableOkPermutes(a: seq<Desc>, b: seq<Desc>)
    requires multiset(a) == multiset(b) && TableOk(a)
    ensures TableOk(b)
  {
    DistinctPermutes(a, b);
    assert forall d :: d in a <==> d in multiset(a);
    assert forall d :: d in b <==> d in multiset(b);
    forall d | d in b
      ensures TargetsKnown(b, d)
    {
      assert TargetsKnown(a, d);
      forall x | x in d.deps
        ensures Target(b, x, d.phase)
      {
        var y :| y in a && y.id == x && y.phase <= d.phase;
        assert y in b;
      }
    }
  }

  lemma DescMapPermutes(a: seq<Desc>, b: seq<Desc>)
    requires multiset(a) == multiset(b) && Distinct(Ids(a))
    ensures DescMap(a) == DescMap(b) && Discover(a) == Discover(b)
  {
    hide Distinct;
    DistinctPermutes(a, b);
    DescMapHolds(a);
    DescMapHolds(b);
    assert forall d :: d in a <==> d in multiset(a);
    assert forall d :: d in b <==> d in multiset(b);
    assert DescMap(a).Keys == DescMap(b).Keys;
    forall id | id in DescMap(a)
      ensures DescMap(a)[id] == DescMap(b)[id]
    {
      assert DescMap(a)[id] in b;
    }
    assert DescMap(a) == DescMap(b);
  }
}
