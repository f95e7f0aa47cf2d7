/** The module dependency graph: what makes it valid, the plain recursion of the build files that decides
    it, and the depth-first search with a visited set that decides it faster. */
module ModuleGraph {
  import opened SysTypes

  type Graph = map<string, seq<string>>

  datatype Verdict = Valid | Cycle(path: seq<string>) | Unknown(config: string, dependency: string)

  // ----- what validity means

  ghost predicate Known(g: Graph) {
    forall a :: a in g ==> forall b :: b in g[a] ==> b in g
  }

  /** Each node of the walk but the last is a module, and depends on the next one. */
  ghost predicate Walk(g: Graph, w: seq<string>) {
    forall i :: 0 <= i < |w| - 1 ==> w[i] in g && w[i + 1] in g[w[i]]
  }

  ghost predicate IsCycle(g: Graph, w: seq<string>) {
    |w| >= 2 && Walk(g, w) && w[0] == w[|w| - 1]
  }

  ghost predicate Acyclic(g: Graph) {
    forall w: seq<string> :: !IsCycle(g, w)
  }

  // ----- the plain recursion

  ghost predicate OnPath(g: Graph, path: seq<string>) {
    Distinct(path) && forall x :: x in path ==> x in g
  }

  lemma {:induction false} PathFits(g: Graph, path: seq<string>, config: string)
    requires OnPath(g, path) && config in g && config !in path
    ensures OnPath(g, path + [config]) && |path| < |g.Keys|
  {
    DistinctSnoc(path, config);
    DistinctFits(path + [config], g.Keys);
  }

  /** validate_module_dependencies: follows every dependency of every dependency, remembering only the path. */
  ghost function Check(g: Graph, config: string, path: seq<string>): Verdict
    requires config in g && OnPath(g, path)
    decreases |g.Keys| - |path|, 0, 0
  {
    if config in path then Cycle(path + [config])
    else
      PathFits(g, path, config);
      CheckDeps(g, config, g[config], path + [config])
  }

  ghost function CheckDeps(g: Graph, config: string, deps: seq<string>, path: seq<string>): Verdict
    requires OnPath(g, path)
    decreases |g.Keys| - |path|, 1, |deps|
  {
    if deps == [] then Valid
    else if deps[0] !in g then Unknown(config, deps[0])
    else
      var first := Check(g, deps[0], path);
      if first != Valid then first else CheckDeps(g, config, deps[1..], path)
  }

  ghost function CheckAll(g: Graph, configs: seq<string>): Verdict
    requires forall c :: c in configs ==> c in g
  {
    if configs == [] then Valid
    else
      var first := Check(g, configs[0], []);
      if first != Valid then first else CheckAll(g, configs[1..])
  }

  // ----- the recursion decides validity

  /** A walk from `config` that leaves the graph, meets the path, or meets itself. */
  ghost predicate BadWalk(g: Graph, config: string, path: seq<string>, w: seq<string>) {
    && w != [] && w[0] == config && Walk(g, w)
    && var last := w[|w| - 1];
       last !in g || last in path || last in w[..|w| - 1]
  }

  ghost predicate Sound(g: Graph, config: string, path: seq<string>) {
    forall w :: !BadWalk(g, config, path, w)
  }

  lemma {:induction false} WalkCons(g: Graph, a: string, w: seq<string>)
    requires Walk(g, w) && w != [] && a in g && w[0] in g[a]
    ensures Walk(g, [a] + w)
  {
    forall i | 0 <= i < |w|
      ensures ([a] + w)[i] in g && ([a] + w)[i + 1] in g[([a] + w)[i]]
    {
      if i > 0 {
        assert ([a] + w)[i] == w[i - 1] && ([a] + w)[i + 1] == w[i];
      }
    }
  }

  lemma {:induction false} BadWalkCons(g: Graph, config: string, path: seq<string>, w: seq<string>)
    requires config in g && w != [] && w[0] in g[config] && BadWalk(g, w[0], path + [config], w)
    ensures BadWalk(g, config, path, [config] + w)
  {
    WalkCons(g, config, w);
    var longer, last := [config] + w, w[|w| - 1];
    assert longer[..|w|] == [config] + w[..|w| - 1];
  }

  lemma {:induction false} BadWalkTail(g: Graph, config: string, path: seq<string>, w: seq<string>)
    requires BadWalk(g, config, path, w) && |w| > 1
    ensures config in g && w[1] in g[config] && BadWalk(g, w[1], path + [config], w[1..])
  {
    var tail := w[1..];
    assert w[0] in g && w[1] in g[w[0]];
    forall i | 0 <= i < |tail| - 1
      ensures tail[i] in g && tail[i + 1] in g[tail[i]]
    {
      assert tail[i] == w[i + 1] && tail[i + 1] == w[i + 2];
    }
    assert w[..|w| - 1] == [w[0]] + tail[..|tail| - 1];
  }

  /** The recursion answers Valid exactly when no walk from the module goes wrong. */
  lemma {:induction false} CheckIff(g: Graph, config: string, path: seq<string>)
    requires config in g && OnPath(g, path)
    ensures Check(g, config, path) == Valid <==> Sound(g, config, path)
    decreases |g.Keys| - |path|, 0, 0
  {
    if config in path {
      assert BadWalk(g, config, path, [config]);
    } else {
      PathFits(g, path, config);
      CheckDepsIff(g, config, g[config], path + [config]);
      SoundByDeps(g, config, path);
    }
  }

  ghost predicate SoundDeps(g: Graph, deps: seq<string>, path: seq<string>) {
    forall d :: d in deps ==> d in g && Sound(g, d, path)
  }

  lemma {:induction false} SoundByDeps(g: Graph, config: string, path: seq<string>)
    requires config in g && config !in path
    ensures Sound(g, config, path) <==> SoundDeps(g, g[config], path + [config])
  {
    if Sound(g, config, path) {
      forall d | d in g[config]
        ensures d in g && Sound(g, d, path + [config])
      {
        if d !in g {
          assert BadWalk(g, d, path + [config], [d]);
          BadWalkCons(g, config, path, [d]);
        }
        forall w
          ensures !BadWalk(g, d, path + [config], w)
        {
          if BadWalk(g, d, path + [config], w) {
            BadWalkCons(g, config, path, w);
          }
        }
      }
    }
    if SoundDeps(g, g[config], path + [config]) {
      forall w
        ensures !BadWalk(g, config, path, w)
      {
        if BadWalk(g, config, path, w) && |w| > 1 {
          BadWalkTail(g, config, path, w);
        }
      }
    }
  }

  lemma {:induction false} CheckDepsIff(g: Graph, config: string, deps: seq<string>, path: seq<string>)
    requires OnPath(g, path)
    ensures CheckDeps(g, config, deps, path) == Valid <==> SoundDeps(g, deps, path)
    decreases |g.Keys| - |path|, 1, |deps|
  {
    if deps != [] {
      assert deps == [deps[0]] + deps[1..];
      if deps[0] in g {
        CheckIff(g, deps[0], path);
      }
      CheckDepsIff(g, config, deps[1..], path);
    }
  }

  lemma {:induction false} CheckAllIff(g: Graph, configs: seq<string>)
    requires forall c :: c in configs ==> c in g
    ensures CheckAll(g, configs) == Valid <==> forall c :: c in configs ==> Sound(g, c, [])
  {
    if configs != [] {
      assert configs == [configs[0]] + configs[1..];
      CheckIff(g, configs[0], []);
      CheckAllIff(g, configs[1..]);
    }
  }

  lemma {:induction false} SoundIffValid(g: Graph)
    ensures (forall c :: c in g ==> Sound(g, c, [])) <==> Known(g) && Acyclic(g)
  {
    if forall c :: c in g ==> Sound(g, c, []) {
      forall a, b | a in g && b in g[a]
        ensures b in g
      {
        assert !BadWalk(g, a, [], [a, b]);
      }
      forall w: seq<string>
        ensures !IsCycle(g, w)
      {
        if IsCycle(g, w) {
          assert w[0] in w[..|w| - 1];
          assert BadWalk(g, w[0], [], w);
        }
      }
    }
    if Known(g) && Acyclic(g) {
      forall c, w | c in g
        ensures !BadWalk(g, c, [], w)
      {
        if BadWalk(g, c, [], w) {
          BadWalkShowsFault(g, c, w);
        }
      }
    }
  }

  lemma {:induction false} BadWalkShowsFault(g: Graph, c: string, w: seq<string>)
    requires c in g && BadWalk(g, c, [], w)
    ensures !Known(g) || exists u: seq<string> :: IsCycle(g, u)
  {
    var n := |w| - 1;
    if w[n] !in g {
      assert w[n - 1] in g && w[n] in g[w[n - 1]];
    } else {
      var j :| 0 <= j < n && w[j] == w[n];
      var u := w[j..];
      forall i | 0 <= i < |u| - 1
        ensures u[i] in g && u[i + 1] in g[u[i]]
      {
        assert u[i] == w[j + i] && u[i + 1] == w[j + i + 1];
      }
      assert IsCycle(g, u);
    }
  }

  /** The plain recursion accepts a graph exactly when every dependency is known and nothing depends on itself;
      the order in which the modules are listed does not matter. */
  lemma {:induction false} CheckAllDecides(g: Graph, configs: seq<string>)
    requires forall c :: c in configs <==> c in g
    ensures CheckAll(g, configs) == Valid <==> Known(g) && Acyclic(g)
  {
    CheckAllIff(g, configs);
    SoundIffValid(g);
  }

  /** What the message of a rejection names is really there: a walk that comes back to itself, or an unknown dependency. */
  ghost predicate Justified(g: Graph, v: Verdict) {
    match v
    case Valid => true
    case Cycle(path) => path != [] && Walk(g, path) && path[|path| - 1] in path[..|path| - 1]
    case Unknown(config, dependency) => config in g && dependency in g[config] && dependency !in g
  }

  lemma {:induction false} CheckJustified(g: Graph, config: string, path: seq<string>)
    requires config in g && OnPath(g, path) && Walk(g, path + [config])
    ensures Justified(g, Check(g, config, path))
    decreases |g.Keys| - |path|, 0, 0
  {
    if config !in path {
      PathFits(g, path, config);
      CheckDepsJustified(g, config, g[config], path);
    } else {
      assert (path + [config])[..|path|] == path;
    }
  }

  lemma {:induction false} CheckDepsJustified(g: Graph, config: string, deps: seq<string>, path: seq<string>)
    requires config in g && OnPath(g, path + [config]) && Walk(g, path + [config])
    requires forall d :: d in deps ==> d in g[config]
    ensures Justified(g, CheckDeps(g, config, deps, path + [config]))
    decreases |g.Keys| - |path| - 1, 1, |deps|
  {
    if deps != [] && deps[0] in g {
      WalkSnoc(g, path, config, deps[0]);
      CheckJustified(g, deps[0], path + [config]);
      CheckDepsJustified(g, config, deps[1..], path);
    }
  }

  // ----- why the visited set is safe

  lemma {:induction false} WalkConcat(g: Graph, a: seq<string>, b: seq<string>)
    requires Walk(g, a) && Walk(g, b) && a != [] && b != []
    requires a[|a| - 1] in g && b[0] in g[a[|a| - 1]]
    ensures Walk(g, a + b)
  {
    forall i | 0 <= i < |a + b| - 1
      ensures (a + b)[i] in g && (a + b)[i + 1] in g[(a + b)[i]]
    {
      if i >= |a| {
        assert (a + b)[i] == b[i - |a|] && (a + b)[i + 1] == b[i - |a| + 1];
      }
    }
  }

  lemma {:induction false} WalkSuffix(g: Graph, w: seq<string>, j: nat)
    requires Walk(g, w) && j <= |w|
    ensures Walk(g, w[j..])
  {
    forall i | 0 <= i < |w[j..]| - 1
      ensures w[j..][i] in g && w[j..][i + 1] in g[w[j..][i]]
    {
      assert w[j..][i] == w[j + i] && w[j..][i + 1] == w[j + i + 1];
    }
  }

  /** A module that checked out on its own checks out at the end of any path that leads to it: a walk from it
      back into the path would have been a cycle through it. */
  lemma {:induction false} SoundAnywhere(g: Graph, config: string, path: seq<string>)
    requires Sound(g, config, []) && Walk(g, path + [config]) && forall x :: x in path ==> x in g
    ensures Sound(g, config, path)
  {
    forall w
      ensures !BadWalk(g, config, path, w)
    {
      if BadWalk(g, config, path, w) {
        assert !BadWalk(g, config, [], w);
        var j :| 0 <= j < |path| && path[j] == w[|w| - 1];
        ClosesCycle(g, config, path, w, j);
      }
    }
  }

  lemma {:induction false} ClosesCycle(g: Graph, config: string, path: seq<string>, w: seq<string>, j: nat)
    requires Walk(g, path + [config]) && Walk(g, w) && w != [] && w[0] == config
    requires j < |path| && path[j] == w[|w| - 1] && path[j] in g
    ensures exists u :: BadWalk(g, config, [], u)
  {
    var way := path + [config];
    var back := way[j + 1..];
    WalkSuffix(g, way, j + 1);
    assert way[j] in g && way[j + 1] in g[way[j]];
    WalkConcat(g, w, back);
    var u := w + back;
    assert u[|u| - 1] == config && u[0] in u[..|u| - 1];
    assert BadWalk(g, config, [], u);
  }

  lemma {:induction false} SoundAlone(g: Graph, config: string, path: seq<string>)
    requires Sound(g, config, path)
    ensures Sound(g, config, [])
  {
    forall w
      ensures !BadWalk(g, config, [], w)
    {
      assert !BadWalk(g, config, path, w);
    }
  }

  /** validate_dependency_graph: the search with its set of modules already found valid. */
  class DependencyValidator {
    const graph: Graph
    var visited: set<string>

    ghost predicate Trusted()
      reads this
    {
      forall v :: v in visited ==> v in graph && Sound(graph, v, [])
    }

    constructor (graph: Graph)
      ensures this.graph == graph && visited == {}
    {
      this.graph := graph;
      visited := {};
    }

    method Visit(config: string, path: seq<string>) returns (r: Verdict)
      requires config in graph && OnPath(graph, path) && Walk(graph, path + [config]) && Trusted()
      modifies this
      ensures Trusted() && r == Check(graph, config, path)
      decreases |graph.Keys| - |path|
    {
      hide Sound, Walk, OnPath;
      if config in path {
        return Cycle(path + [config]);
      }
      if config in visited {
        KnownSound(config, path);
        return Valid;
      }
      PathFits(graph, path, config);
      var deps, longer := graph[config], path + [config];
      assert deps[0..] == deps;
      for i := 0 to |deps|
        invariant Trusted()
        invariant Check(graph, config, path) == CheckDeps(graph, config, deps[i..], longer)
      {
        assert deps[i..][0] == deps[i] && deps[i..][1..] == deps[i + 1..];
        if deps[i] !in graph {
          return Unknown(config, deps[i]);
        }
        WalkSnoc(graph, path, config, deps[i]);
        r := Visit(deps[i], longer);
        if r != Valid {
          return;
        }
      }
      CheckIff(graph, config, path);
      SoundAlone(graph, config, path);
      visited := visited + {config};
      return Valid;
    }

    lemma KnownSound(config: string, path: seq<string>)
      requires Trusted() && config in visited && OnPath(graph, path) && Walk(graph, path + [config])
      ensures config in graph && Check(graph, config, path) == Valid
    {
      SoundAnywhere(graph, config, path);
      CheckIff(graph, config, path);
    }

    /** Visits every module; the answer, error included, is that of the plain recursion. */
    method Validate(configs: seq<string>) returns (r: Verdict)
      requires visited == {} && forall c :: c in configs <==> c in graph
      modifies this
      ensures r == CheckAll(graph, configs)
      ensures r == Valid <==> Known(graph) && Acyclic(graph)
    {
      CheckAllDecides(graph, configs);
      assert configs[0..] == configs;
      for i := 0 to |configs|
        invariant Trusted() && CheckAll(graph, configs) == CheckAll(graph, configs[i..])
      {
        assert configs[i..][0] == configs[i] && configs[i..][1..] == configs[i + 1..];
        r := Visit(configs[i], []);
        if r != Valid {
          return;
        }
      }
      return Valid;
    }
  }

  lemma {:induction false} WalkSnoc(g: Graph, path: seq<string>, config: string, next: string)
    requires Walk(g, path + [config]) && config in g && next in g[config]
    ensures Walk(g, path + [config] + [next])
  {
    WalkConcat(g, path + [config], [next]);
  }
}
