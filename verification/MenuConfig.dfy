/** Which modules are enabled: the fixpoint that switches off modules with missing dependencies, the menu
    keys, the configuration file, and the check the build makes of it. */
module MenuConfig {
  import opened SysTypes
  import opened MenuManifest

  function Configs(mods: seq<Entry>): (r: seq<string>)
    ensures |r| == |mods| && forall i :: 0 <= i < |mods| ==> r[i] == mods[i].config
  {
    seq(|mods|, i requires 0 <= i < |mods| => mods[i].config)
  }

  ghost predicate DependsOn(mods: seq<Entry>, x: string, y: string) {
    exists m :: m in mods && m.config == x && y in m.Depends()
  }

  /** Every member's dependencies are members. */
  ghost predicate Closed(mods: seq<Entry>, s: set<string>) {
    forall m :: m in mods && m.config in s ==> Satisfied(m.Depends(), s)
  }

  predicate Satisfied(deps: seq<string>, s: set<string>) {
    forall d :: d in deps ==> d in s
  }

  ghost predicate Supports(mods: seq<Entry>, start: set<string>, t: set<string>) {
    t <= start && Closed(mods, t)
  }

  /** The enabled modules that can stay enabled. */
  ghost function Normal(mods: seq<Entry>, start: set<string>): set<string> {
    set c | c in start && exists t :: Supports(mods, start, t) && c in t
  }

  /** normalize_dependencies computes the greatest closed subset of what was enabled. */
  lemma NormalIsGreatest(mods: seq<Entry>, start: set<string>)
    ensures Supports(mods, start, Normal(mods, start))
    ensures forall t :: Supports(mods, start, t) ==> t <= Normal(mods, start)
  {
    var n := Normal(mods, start);
    forall m, d | m in mods && m.config in n && d in m.Depends()
      ensures d in n
    {
      var t :| Supports(mods, start, t) && m.config in t;
      assert Satisfied(m.Depends(), t);
    }
    forall m | m in mods && m.config in n
      ensures Satisfied(m.Depends(), n)
    {
    }
  }

  lemma GreatestIsNormal(mods: seq<Entry>, start: set<string>, r: set<string>)
    requires Supports(mods, start, r)
    requires forall t :: Supports(mods, start, t) ==> t <= r
    ensures r == Normal(mods, start)
  {
    NormalIsGreatest(mods, start);
  }

  lemma NormalOfClosed(mods: seq<Entry>, s: set<string>)
    requires Closed(mods, s)
    ensures Normal(mods, s) == s
  {
    GreatestIsNormal(mods, s, s);
  }

  /** Normalising twice changes nothing more. */
  lemma NormalIdempotent(mods: seq<Entry>, s: set<string>)
    ensures Normal(mods, Normal(mods, s)) == Normal(mods, s)
  {
    NormalIsGreatest(mods, s);
    NormalOfClosed(mods, Normal(mods, s));
  }

  /** The order of the modules does not matter. */
  lemma NormalOrderFree(mods: seq<Entry>, mods': seq<Entry>, s: set<string>)
    requires forall m :: m in mods <==> m in mods'
    ensures Normal(mods, s) == Normal(mods', s)
  {
    NormalIsGreatest(mods, s);
    NormalIsGreatest(mods', s);
    assert Supports(mods', s, Normal(mods, s));
    assert Supports(mods, s, Normal(mods', s));
  }

  // ----- the fixpoint loop

  function EnabledSet(mods: seq<Entry>, on: seq<bool>): set<string>
    requires |on| == |mods|
  {
    set i | 0 <= i < |mods| && on[i] :: mods[i].config
  }

  predicate Lacks(enabled: map<string, bool>, deps: seq<string>) {
    exists d :: d in deps && !(d in enabled && enabled[d])
  }

  /** The dictionary of the loop agrees with the flags. */
  ghost predicate Agrees(mods: seq<Entry>, on: seq<bool>, enabled: map<string, bool>)
    requires |on| == |mods|
  {
    forall c :: (c in enabled && enabled[c]) <==> c in EnabledSet(mods, on)
  }

  lemma SwitchOff(mods: seq<Entry>, on: seq<bool>, i: nat)
    requires |on| == |mods| && i < |mods| && on[i] && Distinct(Configs(mods))
    ensures EnabledSet(mods, on[i := false]) == EnabledSet(mods, on) - {mods[i].config}
    ensures mods[i].config in EnabledSet(mods, on)
  {
    var on' := on[i := false];
    forall j | 0 <= j < |mods| && j != i
      ensures mods[j].config != mods[i].config
    {
      DistinctIndex(Configs(mods), i, j);
    }
    forall c | c in EnabledSet(mods, on) && c != mods[i].config
      ensures c in EnabledSet(mods, on')
    {
      var j :| 0 <= j < |mods| && on[j] && mods[j].config == c;
      assert on'[j];
    }
    forall c | c in EnabledSet(mods, on')
      ensures c in EnabledSet(mods, on) && c != mods[i].config
    {
      var j :| 0 <= j < |mods| && on'[j] && mods[j].config == c;
      assert on[j] && j != i;
    }
  }

  lemma SwitchOn(mods: seq<Entry>, on: seq<bool>, i: nat)
    requires |on| == |mods| && i < |mods|
    ensures EnabledSet(mods, on[i := true]) == EnabledSet(mods, on) + {mods[i].config}
  {
    var on' := on[i := true];
    forall c | c in EnabledSet(mods, on)
      ensures c in EnabledSet(mods, on')
    {
      var j :| 0 <= j < |mods| && on[j] && mods[j].config == c;
      assert on'[j];
    }
    assert on'[i];
  }

  /** A closed set that does not contain what `i` lacks does not contain `i`. */
  lemma {:induction false} LackingLeaves(mods: seq<Entry>, on: seq<bool>, i: nat, enabled: map<string, bool>,
                                         t: set<string>)
    requires |on| == |mods| && i < |mods| && Agrees(mods, on, enabled) && Lacks(enabled, mods[i].Depends())
    requires Closed(mods, t) && t <= EnabledSet(mods, on)
    ensures mods[i].config !in t
  {
    var d :| d in mods[i].Depends() && !(d in enabled && enabled[d]);
    assert d !in EnabledSet(mods, on);
    assert mods[i] in mods;
  }

  /** All closed subsets of `start` survive in what is still enabled. */
  ghost predicate Keeps(mods: seq<Entry>, start: set<string>, s: set<string>) {
    s <= start && forall t :: Supports(mods, start, t) ==> t <= s
  }

  method EnabledMap(mods: seq<Entry>, on: array<bool>) returns (enabled: map<string, bool>)
    requires on.Length == |mods| && Distinct(Configs(mods))
    ensures Agrees(mods, on[..], enabled)
  {
    enabled := map[];
    for i := 0 to |mods|
      invariant forall c :: (c in enabled && enabled[c]) <==> c in EnabledSet(mods[..i], on[..i])
      invariant forall c :: c in enabled ==> c in Configs(mods)[..i]
    {
      assert mods[..i + 1] == mods[..i] + [mods[i]] && on[..i + 1] == on[..i] + [on[i]];
      EnabledNext(mods[..i], on[..i], mods[i], on[i]);
      assert Configs(mods)[i] !in Configs(mods)[..i];
      AbsentConfig(mods, on[..], i);
      enabled := enabled[mods[i].config := on[i]];
    }
    assert mods[..|mods|] == mods && on[..|mods|] == on[..];
  }

  lemma EnabledNext(mods: seq<Entry>, on: seq<bool>, m: Entry, b: bool)
    requires |on| == |mods|
    ensures EnabledSet(mods + [m], on + [b]) == EnabledSet(mods, on) + if b then {m.config} else {}
  {
    var (mods', on') := (mods + [m], on + [b]);
    forall c | c in EnabledSet(mods, on)
      ensures c in EnabledSet(mods', on')
    {
      var j :| 0 <= j < |mods| && on[j] && mods[j].config == c;
      assert on'[j] && mods'[j].config == c;
    }
    if b {
      assert on'[|mods|] && mods'[|mods|] == m;
    }
  }

  lemma AbsentConfig(mods: seq<Entry>, on: seq<bool>, i: nat)
    requires |on| == |mods| && i < |mods| && Distinct(Configs(mods))
    ensures mods[i].config !in EnabledSet(mods[..i], on[..i])
  {
    forall j | 0 <= j < i
      ensures mods[j].config != mods[i].config
    {
      DistinctPair(Configs(mods), j, i);
    }
  }

  /** One pass of the loop over the modules, in place. */
  method Pass(mods: seq<Entry>, on: array<bool>, before: map<string, bool>, ghost start: set<string>)
    returns (changed: bool, enabled: map<string, bool>)
    requires on.Length == |mods| && Distinct(Configs(mods)) && Agrees(mods, on[..], before)
    requires Keeps(mods, start, EnabledSet(mods, on[..]))
    modifies on
    ensures Agrees(mods, on[..], enabled) && Keeps(mods, start, EnabledSet(mods, on[..]))
    ensures changed ==> EnabledSet(mods, on[..]) < EnabledSet(mods, old(on[..]))
    ensures !changed ==> on[..] == old(on[..]) && Closed(mods, EnabledSet(mods, on[..]))
  {
    hide EnabledSet, Keeps, Closed, Agrees, Distinct;
    ghost var first := EnabledSet(mods, on[..]);
    changed, enabled := false, before;
    for i := 0 to |mods|
      invariant Agrees(mods, on[..], enabled) && Keeps(mods, start, EnabledSet(mods, on[..]))
      invariant changed ==> EnabledSet(mods, on[..]) < first
      invariant !changed ==> on[..] == old(on[..]) && forall j :: 0 <= j < i && on[j] ==> !Lacks(enabled, mods[j].Depends())
    {
      ghost var was := on[..];
      if on[i] && Lacks(enabled, mods[i].Depends()) {
        SwitchOff(mods, on[..], i);
        DropKeeps(mods, on[..], i, enabled, start);
        on[i] := false;
        enabled := enabled[mods[i].config := false];
        changed := true;
        assert on[..] == was[i := false];
      }
    }
    if !changed {
      NothingLacking(mods, on[..], enabled);
    }
  }

  lemma {:induction false} DropKeeps(mods: seq<Entry>, on: seq<bool>, i: nat, enabled: map<string, bool>,
                                     start: set<string>)
    requires |on| == |mods| && i < |mods| && on[i] && Distinct(Configs(mods))
    requires Agrees(mods, on, enabled) && Keeps(mods, start, EnabledSet(mods, on)) && Lacks(enabled, mods[i].Depends())
    ensures Keeps(mods, start, EnabledSet(mods, on[i := false]))
    ensures Agrees(mods, on[i := false], enabled[mods[i].config := false])
  {
    SwitchOff(mods, on, i);
    forall t | Supports(mods, start, t)
      ensures t <= EnabledSet(mods, on[i := false])
    {
      LackingLeaves(mods, on, i, enabled, t);
    }
  }

  lemma {:induction false} NothingLacking(mods: seq<Entry>, on: seq<bool>, enabled: map<string, bool>)
    requires |on| == |mods| && Agrees(mods, on, enabled) && Distinct(Configs(mods))
    requires forall j :: 0 <= j < |mods| && on[j] ==> !Lacks(enabled, mods[j].Depends())
    ensures Closed(mods, EnabledSet(mods, on))
  {
    var s := EnabledSet(mods, on);
    forall m | m in mods && m.config in s
      ensures Satisfied(m.Depends(), s)
    {
      var i :| 0 <= i < |mods| && mods[i] == m;
      var j :| 0 <= j < |mods| && on[j] && mods[j].config == m.config;
      DistinctIndex(Configs(mods), i, j);
      assert !Lacks(enabled, mods[j].Depends());
    }
  }

  /** normalize_dependencies, in place on the enabled flags. */
  method Normalize(mods: seq<Entry>, on: array<bool>)
    requires on.Length == |mods| && Distinct(Configs(mods))
    modifies on
    ensures EnabledSet(mods, on[..]) == Normal(mods, EnabledSet(mods, old(on[..])))
  {
    hide EnabledSet, Closed, Agrees, Distinct, Normal;
    ghost var start := EnabledSet(mods, on[..]);
    var enabled := EnabledMap(mods, on);
    var changed := true;
    while changed
      invariant Agrees(mods, on[..], enabled) && Keeps(mods, start, EnabledSet(mods, on[..]))
      invariant !changed ==> Closed(mods, EnabledSet(mods, on[..]))
      decreases |EnabledSet(mods, on[..])|, changed
    {
      ghost var s := EnabledSet(mods, on[..]);
      changed, enabled := Pass(mods, on, enabled, start);
      if changed {
        SmallerSet(EnabledSet(mods, on[..]), s);
      }
    }
    GreatestIsNormal(mods, start, EnabledSet(mods, on[..]));
  }
}
