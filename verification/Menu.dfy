/** The menu: what each key does to the enabled modules, over any sequence of keys, and why the build
    accepts whatever the menu saves. */
module Menu {
  import opened SysTypes
  import opened MenuConfig
  import opened MenuManifest
  import opened MenuText
  import G = ModuleGraph

  datatype Key = Up | Down | Space | SaveKey | Escape | Other

  /** `asking` is the wait for a second key after Escape with unsaved changes; `files` the saved files, newest last. */
  datatype State = State(on: set<string>, selected: nat, dirty: bool, asking: bool, done: bool, files: seq<seq<string>>)

  /** The space bar: a module can be enabled only if its dependencies are; either way the rest is normalised. */
  ghost function Toggle(mods: seq<Entry>, s: set<string>, m: Entry): set<string> {
    if m.config in s then Normal(mods, s - {m.config})
    else if Satisfied(m.Depends(), s) then Normal(mods, s + {m.config})
    else s
  }

  ghost function Save(mods: seq<Entry>, st: State): State {
    var on := Normal(mods, st.on);
    st.(on := on, files := st.files + [SaveLines(mods, on)])
  }

  ghost function Press(mods: seq<Entry>, st: State, key: Key): State
    requires st.selected < |mods|
  {
    if st.done then st
    else if st.asking then
      match key
      case Escape => st.(asking := false, done := true)
      case SaveKey => Save(mods, st).(asking := false, done := true)
      case _ => st.(asking := false)
    else
      match key
      case Up => st.(selected := if st.selected == 0 then 0 else st.selected - 1)
      case Down => st.(selected := if st.selected + 1 < |mods| then st.selected + 1 else st.selected)
      case Space =>
        var m := mods[st.selected];
        if m.config !in st.on && !Satisfied(m.Depends(), st.on) then st
        else st.(on := Toggle(mods, st.on, m), dirty := true)
      case SaveKey => Save(mods, st).(dirty := false)
      case Escape => if st.dirty then st.(asking := true) else st.(done := true)
      case Other => st
  }

  ghost function PressAll(mods: seq<Entry>, st: State, keys: seq<Key>): State
    requires st.selected < |mods|
    ensures PressAll(mods, st, keys).selected < |mods|
    decreases |keys|
  {
    if keys == [] then st else PressAll(mods, Press(mods, st, keys[0]), keys[1..])
  }

  // ----- one toggle

  /** Enabling a module that may be enabled changes no other module. */
  lemma EnableTouchesOne(mods: seq<Entry>, s: set<string>, m: Entry)
    requires Distinct(Configs(mods)) && m in mods && Closed(mods, s) && m.config !in s && Satisfied(m.Depends(), s)
    ensures Toggle(mods, s, m) == s + {m.config}
  {
    var s' := s + {m.config};
    forall x | x in mods && x.config in s'
      ensures Satisfied(x.Depends(), s')
    {
      if x.config == m.config {
        SameEntry(mods, x, m);
      }
    }
    NormalOfClosed(mods, s');
  }

  lemma SameEntry(mods: seq<Entry>, x: Entry, y: Entry)
    requires Distinct(Configs(mods)) && x in mods && y in mods && x.config == y.config
    ensures x == y
  {
    var i :| 0 <= i < |mods| && mods[i] == x;
    var j :| 0 <= j < |mods| && mods[j] == y;
    DistinctIndex(Configs(mods), i, j);
  }

  /** A chain of dependencies from the first name to the last. */
  ghost predicate Chain(mods: seq<Entry>, w: seq<string>) {
    w != [] && forall i :: 0 <= i < |w| - 1 ==> DependsOn(mods, w[i], w[i + 1])
  }

  /** `x` is `c` or depends on it, directly or through others. */
  ghost predicate Needs(mods: seq<Entry>, x: string, c: string) {
    exists w :: Chain(mods, w) && w[0] == x && w[|w| - 1] == c
  }

  lemma NeedsStep(mods: seq<Entry>, x: string, y: string, c: string)
    requires DependsOn(mods, x, y) && Needs(mods, y, c)
    ensures Needs(mods, x, c)
  {
    var w :| Chain(mods, w) && w[0] == y && w[|w| - 1] == c;
    var v := [x] + w;
    forall i | 0 <= i < |v| - 1
      ensures DependsOn(mods, v[i], v[i + 1])
    {
      if i > 0 {
        assert v[i] == w[i - 1] && v[i + 1] == w[i];
      }
    }
    assert Chain(mods, v) && v[0] == x && v[|v| - 1] == c;
  }

  lemma {:induction false} ClosedFollowsChain(mods: seq<Entry>, s: set<string>, w: seq<string>)
    requires Closed(mods, s) && Chain(mods, w) && w[0] in s
    ensures w[|w| - 1] in s
  {
    if |w| > 1 {
      assert DependsOn(mods, w[0], w[1]);
      var m :| m in mods && m.config == w[0] && w[1] in m.Depends();
      assert Satisfied(m.Depends(), s);
      forall i | 0 <= i < |w[1..]| - 1
        ensures DependsOn(mods, w[1..][i], w[1..][i + 1])
      {
        assert w[1..][i] == w[i + 1] && w[1..][i + 1] == w[i + 2];
      }
      ClosedFollowsChain(mods, s, w[1..]);
    }
  }

  /** Disabling a module disables exactly it and the enabled modules that need it. */
  lemma DisableDropsDependents(mods: seq<Entry>, s: set<string>, m: Entry, x: string)
    requires Closed(mods, s) && m.config in s
    ensures x in Toggle(mods, s, m) <==> x in s && !Needs(mods, x, m.config)
  {
    var c := m.config;
    var kept := set y | y in s && !Needs(mods, y, c);
    SelfNeeds(mods, c);
    forall n | n in mods && n.config in kept
      ensures Satisfied(n.Depends(), kept)
    {
      assert Satisfied(n.Depends(), s);
      forall d | d in n.Depends()
        ensures d in kept
      {
        assert DependsOn(mods, n.config, d);
        if Needs(mods, d, c) {
          NeedsStep(mods, n.config, d, c);
        }
      }
    }
    NormalIsGreatest(mods, s - {c});
    assert Supports(mods, s - {c}, kept);
    var r := Toggle(mods, s, m);
    forall y | y in r
      ensures !Needs(mods, y, c)
    {
      if Needs(mods, y, c) {
        var w :| Chain(mods, w) && w[0] == y && w[|w| - 1] == c;
        ClosedFollowsChain(mods, r, w);
      }
    }
  }

  lemma SelfNeeds(mods: seq<Entry>, c: string)
    ensures Needs(mods, c, c)
  {
    assert Chain(mods, [c]) && [c][0] == c;
  }

  // ----- the check of the build

  datatype BuildError = UnknownDependency(config: string, dependency: string) | Requires(config: string, dependency: string)

  /** The dependency check of one enabled module in BUILD mode. */
  function BuildDeps(configs: seq<string>, config: string, deps: seq<string>, s: set<string>): Option<BuildError> {
    if deps == [] then None
    else if deps[0] !in configs then Some(UnknownDependency(config, deps[0]))
    else if deps[0] !in s then Some(Requires(config, deps[0]))
    else BuildDeps(configs, config, deps[1..], s)
  }

  function BuildCheck(configs: seq<string>, mods: seq<Entry>, s: set<string>): Option<BuildError> {
    if mods == [] then None
    else
      var first := if mods[0].config in s then BuildDeps(configs, mods[0].config, mods[0].Checked(), s) else None;
      if first.Some? then first else BuildCheck(configs, mods[1..], s)
  }

  /** No enabled module has a blank item in its dependency list. */
  predicate NoBlanks(mods: seq<Entry>, s: set<string>) {
    forall m :: m in mods && m.config in s ==> !m.HasBlank()
  }

  lemma {:induction false} BuildDepsIff(configs: seq<string>, config: string, deps: seq<string>, s: set<string>)
    requires forall c :: c in s ==> c in configs
    ensures BuildDeps(configs, config, deps, s).None? <==> Satisfied(deps, s)
    ensures "" !in configs && (forall d :: d in deps && d != "" ==> d in s) ==>
              BuildDeps(configs, config, deps, s) == if "" in deps then Some(UnknownDependency(config, "")) else None
  {
    if deps != [] {
      assert deps == [deps[0]] + deps[1..];
      BuildDepsIff(configs, config, deps[1..], s);
    }
  }

  /** One module: its build dependencies are met iff those the menu knows are met and none is blank. */
  lemma CheckedIff(m: Entry, s: set<string>)
    requires "" !in s
    ensures Satisfied(m.Checked(), s) <==> Satisfied(m.Depends(), s) && !m.HasBlank()
    ensures Satisfied(m.Depends(), s) ==> forall d :: d in m.Checked() && d != "" ==> d in s
  {
    m.DependsAreChecked();
  }

  /** The build accepts a configuration exactly when its enabled modules are closed under the dependencies the menu
      knows, and no enabled module has a blank item, which the menu ignores. */
  lemma {:induction false} BuildAcceptsIff(configs: seq<string>, mods: seq<Entry>, s: set<string>)
    requires "" !in configs && forall c :: c in s ==> c in configs
    ensures BuildCheck(configs, mods, s).None? <==> Closed(mods, s) && NoBlanks(mods, s)
  {
    hide Satisfied;
    if mods != [] {
      assert mods == [mods[0]] + mods[1..];
      CheckedIff(mods[0], s);
      BuildDepsIff(configs, mods[0].config, mods[0].Checked(), s);
      BuildAcceptsIff(configs, mods[1..], s);
      forall m | m in mods[1..]
        ensures m in mods
      {
      }
    }
  }

  /** What the build says of a closed set it refuses: some enabled module depends on the empty name. */
  lemma {:induction false} RefusalNamesBlank(configs: seq<string>, mods: seq<Entry>, s: set<string>)
    requires "" !in configs && (forall c :: c in s ==> c in configs) && Closed(mods, s)
    ensures match BuildCheck(configs, mods, s)
            case None => NoBlanks(mods, s)
            case Some(error) => error.UnknownDependency? && error.dependency == "" && error.config in s
  {
    if mods != [] {
      assert mods == [mods[0]] + mods[1..];
      CheckedIff(mods[0], s);
      BuildDepsIff(configs, mods[0].config, mods[0].Checked(), s);
      assert Closed(mods[1..], s) by {
        assert forall m :: m in mods[1..] ==> m in mods;
      }
      RefusalNamesBlank(configs, mods[1..], s);
    }
  }

  /** The graph that the menu and the build validate before anything else. */
  function GraphOf(mods: seq<Entry>): G.Graph {
    if mods == [] then map[] else GraphOf(mods[1..])[mods[0].config := mods[0].Depends()]
  }

  /** Two manifests, the second one listing `A` and a blank item. */
  function SampleModules(): seq<Entry> {
    [Entry("A", ""), Entry("B", "A,")]
  }

  lemma SampleDepends()
    ensures Entry("A", "").Depends() == [] && Entry("B", "A,").Depends() == ["A"]
    ensures Entry("B", "A,").Checked() == ["A", ""]
  {
    assert "A,"[1..] == "," && ","[1..] == "";
    assert Split("") == [""];
    assert Split(",") == [""] + Split("") == ["", ""];
    assert Split("A,") == [['A'] + ""] + [""] && ['A'] + "" == "A";
    assert ["A", ""][1..] == [""] && [""][1..] == [];
    assert Strip("A") == "A" && Strip("") == "";
    assert StripAll([""]) == [""] && NonBlank([""]) == [];
    assert StripAll(["A", ""]) == ["A", ""] && NonBlank(["A", ""]) == ["A"];
  }

  lemma SampleGraph()
    ensures GraphOf(SampleModules()) == map["A" := [], "B" := ["A"]]
  {
    SampleDepends();
    var mods := SampleModules();
    assert mods[1..] == [Entry("B", "A,")] && mods[1..][1..] == [];
    assert GraphOf(mods[1..][1..]) == map[];
    assert GraphOf(mods[1..]) == map["B" := ["A"]];
  }

  lemma {:induction false} SampleGraphValid(g: G.Graph)
    requires g == map["A" := [], "B" := ["A"]]
    ensures G.Known(g) && G.Acyclic(g)
  {
    assert "A" != "B";
    forall w: seq<string>
      ensures !G.IsCycle(g, w)
    {
      assert |w| > 1 && w[0] in g && w[1] in g[w[0]] ==> w[0] == "B" && w[1] == "A";
      assert |w| > 2 && w[1] in g && w[2] in g[w[1]] ==> w[1] == "B";
    }
  }

  /** The graph is accepted and the menu saves both modules as enabled, but the build refuses the saved file. */
  lemma BlankItemSplitsThem()
    ensures var (mods, s) := (SampleModules(), {"A", "B"});
            && G.Known(GraphOf(mods)) && G.Acyclic(GraphOf(mods))
            && Closed(mods, s) && Load(mods, {}, Some(SaveLines(mods, s))) == Loaded(s)
            && BuildCheck(Configs(mods), mods, s) == Some(UnknownDependency("B", ""))
  {
    var (mods, s) := (SampleModules(), {"A", "B"});
    SampleDepends();
    SampleGraph();
    SampleGraphValid(GraphOf(mods));
    assert Configs(mods) == ["A", "B"];
    assert Closed(mods, s);
    SaveLoadRoundTrip(mods, s, {});
    BuildDepsIff(["A", "B"], "B", ["A", ""], s);
    assert mods[1..] == [Entry("B", "A,")];
    assert Entry("A", "").Checked() == [];
  }

  // ----- whole sessions

  /** A file that holds a closed set of known modules: loading it gives that set, and the build accepts it unless
      one of the modules has a blank dependency. */
  ghost predicate GoodFile(mods: seq<Entry>, file: seq<string>) {
    exists s :: GoodFor(mods, s, file)
  }

  ghost predicate GoodFor(mods: seq<Entry>, s: set<string>, file: seq<string>) {
    && file == SaveLines(mods, s) && Closed(mods, s) && (forall c :: c in s ==> c in Configs(mods))
    && (BuildCheck(Configs(mods), mods, s).None? <==> NoBlanks(mods, s))
    && forall before :: Load(mods, before, Some(file)) == Loaded(s)
  }

  ghost predicate Sane(mods: seq<Entry>, st: State) {
    && "" !in Configs(mods)
    && st.selected < |mods| && Closed(mods, st.on)
    && (forall c :: c in st.on ==> c in Configs(mods))
    && forall f :: f in st.files ==> GoodFile(mods, f)
  }

  lemma SavedIsGood(mods: seq<Entry>, s: set<string>)
    requires "" !in Configs(mods) && Closed(mods, s) && forall c :: c in s ==> c in Configs(mods)
    ensures GoodFile(mods, SaveLines(mods, s))
  {
    BuildAcceptsIff(Configs(mods), mods, s);
    forall before: set<string>
      ensures Load(mods, before, Some(SaveLines(mods, s))) == Loaded(s)
    {
      SaveLoadRoundTrip(mods, s, before);
    }
    assert GoodFor(mods, s, SaveLines(mods, s));
  }

  lemma SaveKeepsSane(mods: seq<Entry>, st: State)
    requires Sane(mods, st)
    ensures Sane(mods, Save(mods, st)) && Save(mods, st).on == st.on
  {
    NormalOfClosed(mods, st.on);
    SavedIsGood(mods, st.on);
  }

  lemma PressKeepsSane(mods: seq<Entry>, st: State, key: Key)
    requires Sane(mods, st)
    ensures Sane(mods, Press(mods, st, key))
  {
    hide GoodFile, Closed;
    if key.SaveKey? {
      SaveKeepsSane(mods, st);
    } else if key.Space? {
      var m := mods[st.selected];
      NormalIsGreatest(mods, st.on - {m.config});
      NormalIsGreatest(mods, st.on + {m.config});
      assert Configs(mods)[st.selected] == m.config;
    }
  }

  /** After any keys the enabled modules are closed under dependencies, and every file saved on the way loads back
      to exactly what was saved and is accepted by the build iff no saved module has a blank dependency. */
  lemma {:induction false} SessionStaysSane(mods: seq<Entry>, st: State, keys: seq<Key>)
    requires Sane(mods, st)
    ensures Sane(mods, PressAll(mods, st, keys))
    decreases |keys|
  {
    if keys != [] {
      PressKeepsSane(mods, st, keys[0]);
      hide Press, Sane;
      SaneSelected(mods, Press(mods, st, keys[0]));
      SessionStaysSane(mods, Press(mods, st, keys[0]), keys[1..]);
    }
  }

  lemma SaneSelected(mods: seq<Entry>, st: State)
    requires Sane(mods, st)
    ensures st.selected < |mods|
  {
  }

  /** A session starts from whatever a load accepted, or from a missing file. */
  lemma LoadStartsSane(mods: seq<Entry>, s: set<string>, file: Option<seq<string>>)
    requires mods != [] && "" !in Configs(mods) && forall c :: c in s ==> c in Configs(mods)
    ensures var r := Load(mods, s, file);
            r.Loaded? ==> Sane(mods, State(r.on, 0, false, false, false, []))
  {
    LoadedIsClosed(mods, s, file);
    var r := Load(mods, s, file);
    if r.Loaded? {
      forall c | c in r.on
        ensures c in Configs(mods)
      {
        if c !in s {
          var values := ReadFrom(file.value, map[]).values;
          var m :| m in mods && m.config == c;
          var i :| 0 <= i < |mods| && mods[i] == m;
          assert Configs(mods)[i] == c;
        }
      }
    }
  }
}
