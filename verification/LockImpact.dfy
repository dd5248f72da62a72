/**
 Which workspace packages a change of Cargo.lock alone selects. Both dependency
 graphs, before and after, are searched for members whose dependencies contain a
 changed entry; the final reverse closure is shown to be almost redundant.
 */
module LockImpact {
  import opened Options
  import opened Closure
  import LockFile

  datatype Kind = Plain | Dev | Build

  /** A resolved dependency edge; Cargo lists every kind in which it is declared. */
  datatype Dep = Dep(pkg: Node, name: string, kinds: seq<Kind>)

  datatype Declaration = Declaration(kind: Kind, name: string, rename: Option<string>)

  datatype Info = Info(key: LockFile.Key, declarations: seq<Declaration>)

  /** Cargo metadata of one revision; `order` is the order in which it lists the resolved nodes. */
  datatype Graph = Graph(
    nodes: map<Node, seq<Dep>>, order: seq<Node>, features: map<Node, set<string>>,
    packages: map<Node, Info>, members: set<Node>, manifests: map<Node, string>)

  /** What the graph constructor demands of the metadata. */
  ghost predicate Valid(g: Graph) {
    && g.members <= g.packages.Keys && g.members <= g.nodes.Keys && g.manifests.Keys == g.members
    && g.nodes.Keys <= g.packages.Keys && g.features.Keys == g.nodes.Keys
    && (forall n :: n in g.order <==> n in g.nodes)
    && (forall n, d | n in g.nodes && d in g.nodes[n] :: d.pkg in g.nodes)
  }

  // ---------------------------------------------------------------- edges

  predicate Production(d: Dep) {
    exists k | k in d.kinds :: k != Dev
  }

  function Forward(g: Graph): Edges {
    map n | n in g.nodes :: set d | d in g.nodes[n] && Production(d) :: Edge(d.pkg, true)
  }

  /** Dependents among workspace members, each with whether the edge is a production one. */
  function Reverse(g: Graph): Edges
    requires g.members <= g.nodes.Keys
  {
    map m | m in g.members :: set k, d | k in g.members && d in g.nodes[k] && d.pkg == m :: Edge(k, Production(d))
  }

  // ---------------------------------------------------------------- what changed

  datatype Identity = Workspace(manifest: string) | External(key: LockFile.Key)

  function IdentityOf(g: Graph, n: Node): Identity
    requires Valid(g) && n in g.packages
  {
    if n in g.members then Workspace(g.manifests[n]) else External(g.packages[n].key)
  }

  /** Feature sets by identity; a later node with the same identity wins. */
  function Features(g: Graph, order: seq<Node>): map<Identity, set<string>>
    requires Valid(g) && forall n | n in order :: n in g.nodes
  {
    if order == [] then map[]
    else
      var n := order[|order| - 1];
      assert n in order;
      Features(g, order[..|order| - 1])[IdentityOf(g, n) := g.features[n]]
  }

  /** Identities whose features changed, and external lock entries that changed. */
  datatype Delta = Delta(nodes: set<Identity>, lock: set<LockFile.Key>)

  predicate Touched(g: Graph, delta: Delta, n: Node)
    requires Valid(g) && n in g.packages
  {
    IdentityOf(g, n) in delta.nodes || (n !in g.members && g.packages[n].key in delta.lock)
  }

  /** Some node in the production closure of `n` changed. */
  ghost predicate ChangedBelow(g: Graph, delta: Delta, n: Node)
    requires Valid(g)
  {
    exists x :: Reaches(Forward(g), n, x) && x in g.packages && Touched(g, delta, x)
  }

  // ---------------------------------------------------------------- who is selected

  /** Members with a production edge into something changed. */
  ghost predicate Seed(g: Graph, delta: Delta, m: Node)
    requires Valid(g)
  {
    m in g.members && exists d :: d in g.nodes[m] && Production(d) && ChangedBelow(g, delta, d.pkg)
  }

  ghost predicate TestSeed(g: Graph, delta: Delta, m: Node)
    requires Valid(g)
  {
    m in g.members && exists d :: d in g.nodes[m] && Dev in d.kinds && ChangedBelow(g, delta, d.pkg)
  }

  /** Members with an edge of any kind into something changed. */
  ghost predicate Hit(g: Graph, delta: Delta, m: Node)
    requires Valid(g)
  {
    m in g.members && exists d :: d in g.nodes[m] && d.kinds != [] && ChangedBelow(g, delta, d.pkg)
  }

  /** Members with an edge of no kind at all to a production seed; Cargo prints no such edge. */
  ghost predicate Kindless(g: Graph, delta: Delta, m: Node)
    requires Valid(g)
  {
    m in g.members && exists d :: d in g.nodes[m] && d.kinds == [] && Seed(g, delta, d.pkg)
  }

  ghost predicate EveryEdgeHasAKind(g: Graph) {
    forall m, d | m in g.nodes && d in g.nodes[m] :: d.kinds != []
  }

  lemma HitIsSeeded(g: Graph, delta: Delta, m: Node)
    requires Valid(g)
    ensures Hit(g, delta, m) <==> Seed(g, delta, m) || TestSeed(g, delta, m)
  {
    if Hit(g, delta, m) {
      var d :| d in g.nodes[m] && d.kinds != [] && ChangedBelow(g, delta, d.pkg);
      if !Production(d) {
        assert d.kinds[0] in d.kinds;
        assert d.kinds[0] == Dev;
      }
    }
  }

  /** A change below a dependency is a change below the dependent. */
  lemma ChangePropagates(g: Graph, delta: Delta, n: Node, d: Dep)
    requires Valid(g) && n in g.nodes && d in g.nodes[n] && Production(d) && ChangedBelow(g, delta, d.pkg)
    ensures ChangedBelow(g, delta, n)
  {
    var x :| Reaches(Forward(g), d.pkg, x) && x in g.packages && Touched(g, delta, x);
    assert Edge(d.pkg, true) in Out(Forward(g), n);
    StepReaches(Forward(g), n, d.pkg, x);
  }

  lemma SeedIsChanged(g: Graph, delta: Delta, m: Node)
    requires Valid(g) && Seed(g, delta, m)
    ensures ChangedBelow(g, delta, m)
  {
    var d :| d in g.nodes[m] && Production(d) && ChangedBelow(g, delta, d.pkg);
    ChangePropagates(g, delta, m, d);
  }

  lemma ReverseEdge(g: Graph, s: Node, e: Edge) returns (d: Dep)
    requires Valid(g) && e in Out(Reverse(g), s)
    ensures s in g.members && e.to in g.members && d in g.nodes[e.to] && d.pkg == s && Production(d) == e.production
  {
    var k, d' :| k in g.members && d' in g.nodes[k] && d'.pkg == s && Edge(k, Production(d')) == e;
    d := d';
  }

  /** Seeds already contain every production dependent of a seed. */
  lemma SeedsAreClosed(g: Graph, delta: Delta, s: Node, e: Edge)
    requires Valid(g) && Seed(g, delta, s) && e in Out(Reverse(g), s) && e.production
    ensures Seed(g, delta, e.to)
  {
    var d := ReverseEdge(g, s, e);
    SeedIsChanged(g, delta, s);
  }

  lemma ReachedAreSeeds(g: Graph, delta: Delta, seeds: set<Node>, y: Node)
    requires Valid(g) && (forall m :: m in seeds <==> Seed(g, delta, m)) && ReachedFrom(Reverse(g), seeds, y)
    ensures Seed(g, delta, y)
  {
    var x :| x in seeds && Reaches(Reverse(g), x, y);
    forall n, e | n in seeds && e in Out(Reverse(g), n) && e.production ensures e.to in seeds {
      SeedsAreClosed(g, delta, n, e);
    }
    ClosedContainsReached(Reverse(g), seeds, x, y);
  }

  lemma TestedAreDirect(g: Graph, delta: Delta, seeds: set<Node>, x: Node)
    requires Valid(g) && (forall m :: m in seeds <==> Seed(g, delta, m)) && Tested(Reverse(g), seeds, x)
    ensures Hit(g, delta, x) || Kindless(g, delta, x)
  {
    var y :| ReachedFrom(Reverse(g), seeds, y) && Edge(x, false) in Out(Reverse(g), y);
    ReachedAreSeeds(g, delta, seeds, y);
    var d := ReverseEdge(g, y, Edge(x, false));
    if d.kinds != [] {
      SeedIsChanged(g, delta, y);
    }
  }

  /** A kindless edge to a seed shows up in the reverse closure as a test edge. */
  lemma KindlessAreTested(g: Graph, delta: Delta, seeds: set<Node>, x: Node)
    requires Valid(g) && (forall m :: m in seeds <==> Seed(g, delta, m)) && Kindless(g, delta, x)
    ensures Tested(Reverse(g), seeds, x)
  {
    var d :| d in g.nodes[x] && d.kinds == [] && Seed(g, delta, d.pkg);
    ReachesSelf(Reverse(g), d.pkg);
    assert Edge(x, false) in Out(Reverse(g), d.pkg);
  }

  lemma SeedsAreReached(g: Graph, seeds: set<Node>, x: Node)
    requires Valid(g) && x in seeds
    ensures ReachedFrom(Reverse(g), seeds, x)
  {
    ReachesSelf(Reverse(g), x);
  }

  /** The final reverse closure adds nothing to the members hit directly, except along edges that
      have no kind at all. */
  lemma FinalClosure(g: Graph, delta: Delta, seeds: set<Node>, x: Node)
    requires Valid(g) && forall m :: m in seeds <==> Seed(g, delta, m)
    ensures InClosure(Reverse(g), seeds, x) || TestSeed(g, delta, x) <==> Hit(g, delta, x) || Kindless(g, delta, x)
  {
    HitIsSeeded(g, delta, x);
    if ReachedFrom(Reverse(g), seeds, x) {
      ReachedAreSeeds(g, delta, seeds, x);
    } else if Tested(Reverse(g), seeds, x) {
      TestedAreDirect(g, delta, seeds, x);
    } else {
      if x in seeds {
        SeedsAreReached(g, seeds, x);
      }
      if Kindless(g, delta, x) {
        KindlessAreTested(g, delta, seeds, x);
      }
    }
  }

  /** So the closure adds nothing if and only if every member with a kindless edge to a seed is hit. */
  lemma ClosureAddsNothingIff(g: Graph, delta: Delta, seeds: set<Node>)
    requires Valid(g) && forall m :: m in seeds <==> Seed(g, delta, m)
    ensures (forall x :: InClosure(Reverse(g), seeds, x) || TestSeed(g, delta, x) <==> Hit(g, delta, x))
       <==> (forall x :: Kindless(g, delta, x) ==> Hit(g, delta, x))
  {
    forall x
      ensures InClosure(Reverse(g), seeds, x) || TestSeed(g, delta, x) <==> Hit(g, delta, x) || Kindless(g, delta, x)
    {
      FinalClosure(g, delta, seeds, x);
    }
  }

  lemma NoKindlessEdges(g: Graph, delta: Delta, x: Node)
    requires Valid(g) && EveryEdgeHasAKind(g)
    ensures !Kindless(g, delta, x)
  {
  }

  // ---------------------------------------------------------------- the analysis

  function Underscored(s: string): string {
    seq(|s|, i requires 0 <= i < |s| => if s[i] == '-' then '_' else s[i])
  }

  function AliasOf(d: Declaration): string {
    if d.rename.Some? && d.rename.value != "" then d.rename.value else d.name
  }

  /** The declared name of a dependency; the analysis stops when it is not unique. */
  function Alias(g: Graph, m: Node, dep: Dep, kind: Kind): set<string>
    requires m in g.packages && dep.pkg in g.packages
  {
    var declared := g.packages[m].declarations;
    var exact := set d | d in declared && d.kind == kind && Underscored(AliasOf(d)) == dep.name :: AliasOf(d);
    if exact != {} then exact
    else set d | d in declared && d.kind == kind && d.name == g.packages[dep.pkg].key.name :: AliasOf(d)
  }

  /** The scan needs one alias for every kind of every dependency with a change below it. */
  ghost predicate Named(g: Graph, m: Node, dep: Dep)
    requires Valid(g) && m in g.members && dep in g.nodes[m]
  {
    forall i | 0 <= i < |dep.kinds| :: |Alias(g, m, dep, dep.kinds[i])| == 1
  }

  ghost predicate MemberNamed(g: Graph, delta: Delta, m: Node)
    requires Valid(g) && m in g.members
  {
    forall i | 0 <= i < |g.nodes[m]| :: ChangedBelow(g, delta, g.nodes[m][i].pkg) ==> Named(g, m, g.nodes[m][i])
  }

  ghost predicate AllNamed(g: Graph, delta: Delta)
    requires Valid(g)
  {
    forall m | m in g.members :: MemberNamed(g, delta, m)
  }

  lemma ForwardIsProductionOnly(g: Graph, n: Node, x: Node)
    requires Valid(g)
    ensures InClosure(Forward(g), {n}, x) <==> Reaches(Forward(g), n, x)
  {
    if InClosure(Forward(g), {n}, x) {
      assert ReachedFrom(Forward(g), {n}, x);
      var k :| k in {n} && Reaches(Forward(g), k, x);
    }
    if Reaches(Forward(g), n, x) {
      assert n in {n};
    }
  }

  method ResolvedChange(g: Graph, delta: Delta, n: Node) returns (changed: bool)
    requires Valid(g)
    ensures changed <==> ChangedBelow(g, delta, n)
  {
    var reachable := ClosureOf(Forward(g), {n});
    changed := exists x | x in reachable :: x in g.packages && Touched(g, delta, x);
    forall x ensures x in reachable <==> Reaches(Forward(g), n, x) {
      ForwardIsProductionOnly(g, n, x);
    }
  }

  lemma ProductionByIndex(dep: Dep)
    ensures Production(dep) <==> exists j | 0 <= j < |dep.kinds| :: dep.kinds[j] != Dev
  {
    if Production(dep) {
      var kind :| kind in dep.kinds && kind != Dev;
      var j :| 0 <= j < |dep.kinds| && dep.kinds[j] == kind;
    }
    if j :| 0 <= j < |dep.kinds| && dep.kinds[j] != Dev {
      assert dep.kinds[j] in dep.kinds;
    }
  }

  /** One dependency of one member: which seed sets it puts the member in. */
  method ScanKinds(g: Graph, m: Node, dep: Dep) returns (ok: bool, seed: bool, test: bool)
    requires Valid(g) && m in g.members && dep in g.nodes[m]
    ensures ok <==> Named(g, m, dep)
    ensures ok ==> (seed <==> Production(dep)) && (test <==> Dev in dep.kinds)
  {
    ok, seed, test := true, false, false;
    for i := 0 to |dep.kinds|
      invariant ok && forall j | 0 <= j < i :: |Alias(g, m, dep, dep.kinds[j])| == 1
      invariant seed <==> exists j | 0 <= j < i :: dep.kinds[j] != Dev
      invariant test <==> exists j | 0 <= j < i :: dep.kinds[j] == Dev
    {
      if |Alias(g, m, dep, dep.kinds[i])| != 1 {
        return false, false, false;
      }
      if dep.kinds[i] == Dev { test := true; } else { seed := true; }
    }
    ProductionByIndex(dep);
  }

  method ScanMember(g: Graph, delta: Delta, m: Node) returns (ok: bool, seed: bool, test: bool)
    requires Valid(g) && m in g.members
    ensures ok <==> MemberNamed(g, delta, m)
    ensures ok ==> (seed <==> Seed(g, delta, m)) && (test <==> TestSeed(g, delta, m))
  {
    ok, seed, test := true, false, false;
    var deps := g.nodes[m];
    for i := 0 to |deps|
      invariant ok && forall j | 0 <= j < i :: ChangedBelow(g, delta, deps[j].pkg) ==> Named(g, m, deps[j])
      invariant seed <==> exists j | 0 <= j < i :: Production(deps[j]) && ChangedBelow(g, delta, deps[j].pkg)
      invariant test <==> exists j | 0 <= j < i :: Dev in deps[j].kinds && ChangedBelow(g, delta, deps[j].pkg)
    {
      var changed := ResolvedChange(g, delta, deps[i].pkg);
      if changed {
        var usable, s, t := ScanKinds(g, m, deps[i]);
        if !usable {
          return false, false, false;
        }
        seed, test := seed || s, test || t;
      }
    }
  }

  function Names(g: Graph, keys: set<Node>): set<string>
    requires Valid(g)
  {
    set k | k in keys && k in g.members :: g.packages[k].key.name
  }

  /** A selected package name, as one graph sees it. */
  ghost predicate Chosen(g: Graph, delta: Delta, name: string)
    requires Valid(g)
  {
    exists m :: m in g.members && g.packages[m].key.name == name && (Hit(g, delta, m) || Kindless(g, delta, m))
  }

  method SelectedIn(g: Graph, delta: Delta) returns (r: Option<set<string>>)
    requires Valid(g)
    ensures r.Some? <==> AllNamed(g, delta)
    ensures r.Some? ==> forall name :: name in r.value <==> Chosen(g, delta, name)
  {
    var seeds, tests: set<Node> := {}, {};
    var rest := g.members;
    while rest != {}
      invariant rest <= g.members
      invariant forall m | m in g.members - rest :: MemberNamed(g, delta, m)
      invariant forall m :: m in seeds <==> Seed(g, delta, m) && m !in rest
      invariant forall m :: m in tests <==> TestSeed(g, delta, m) && m !in rest
      decreases |rest|
    {
      var m :| m in rest;
      rest := rest - {m};
      var ok, seed, test := ScanMember(g, delta, m);
      if !ok {
        return None;
      }
      if seed { seeds := seeds + {m}; }
      if test { tests := tests + {m}; }
    }
    var closure := ClosureOf(Reverse(g), seeds);
    r := Some(Names(g, closure + tests));
    forall x ensures x in closure + tests <==> Hit(g, delta, x) || Kindless(g, delta, x) {
      FinalClosure(g, delta, seeds, x);
    }
  }

  /** The feature sets and lock entries that differ, when both lock files normalise. */
  ghost function DeltaOf(before: Graph, after: Graph, lock: seq<LockFile.Package>, lock': seq<LockFile.Package>)
    : Option<Delta>
    requires Valid(before) && Valid(after)
  {
    var was, now := LockFile.Table(lock, LockFile.KeysOf(lock)), LockFile.Table(lock', LockFile.KeysOf(lock'));
    if was.None? || now.None? then None
    else Some(Delta(LockFile.ChangedKeys(Features(before, before.order), Features(after, after.order)),
                    LockFile.ChangedKeys(was.value, now.value)))
  }

  /** The whole analysis of a change to Cargo.lock alone: it returns exactly when both lock files
      normalise and every dependency with a change below it has unique aliases, and then it has
      selected exactly the current member names that one of the two graphs chooses. */
  method AnalyzeLockChange(before: Graph, after: Graph, lock: seq<LockFile.Package>, lock': seq<LockFile.Package>)
    returns (r: Option<set<string>>, delta: Delta)
    requires Valid(before) && Valid(after)
    ensures r.Some? <==> var d := DeltaOf(before, after, lock, lock');
                         d.Some? && AllNamed(before, d.value) && AllNamed(after, d.value)
    ensures r.Some? ==>
              && DeltaOf(before, after, lock, lock') == Some(delta)
              && forall name :: name in r.value <==>
                   name in Names(after, after.members) && (Chosen(before, delta, name) || Chosen(after, delta, name))
  {
    r, delta := None, Delta({}, {});
    var entries := LockFile.LockEntries(lock);
    var entries' := LockFile.LockEntries(lock');
    if entries.None? || entries'.None? {
      return;
    }
    delta := Delta(LockFile.ChangedKeys(Features(before, before.order), Features(after, after.order)),
                   LockFile.ChangedKeys(entries.value, entries'.value));
    var first := SelectedIn(before, delta);
    if first.None? {
      return;
    }
    var second := SelectedIn(after, delta);
    if second.None? {
      return;
    }
    r := Some((first.value + second.value) * Names(after, after.members));
  }

  /** On metadata in which every edge has a kind, a name is chosen exactly when a member of that
      name has an edge, of any kind, into something changed. */
  lemma ChosenMeansHit(g: Graph, delta: Delta, name: string)
    requires Valid(g) && EveryEdgeHasAKind(g)
    ensures Chosen(g, delta, name) <==>
              exists m :: m in g.members && g.packages[m].key.name == name && Hit(g, delta, m)
  {
    forall m ensures !Kindless(g, delta, m) {
      NoKindlessEdges(g, delta, m);
    }
  }

  /** Two members: a has an edge without kind to b, and b a plain edge to the external c. */
  const EXAMPLE := Graph(
    map["a" := [Dep("b", "b", [])], "b" := [Dep("c", "c", [Plain])], "c" := []], ["a", "b", "c"],
    map["a" := {}, "b" := {}, "c" := {}],
    map["a" := Info(LockFile.Key("a", "1", None), []),
        "b" := Info(LockFile.Key("b", "1", None), [Declaration(Plain, "c", None)]),
        "c" := Info(LockFile.Key("c", "1", None), [])],
    {"a", "b"}, map["a" := "a/Cargo.toml", "b" := "b/Cargo.toml"])

  const EXAMPLE_DELTA := Delta({}, {LockFile.Key("c", "1", None)})

  lemma ExampleIsValid()
    ensures Valid(EXAMPLE)
  {
    forall n ensures n in EXAMPLE.order <==> n in EXAMPLE.nodes {
      assert EXAMPLE.order[0] == "a" && EXAMPLE.order[1] == "b" && EXAMPLE.order[2] == "c";
    }
  }

  lemma ExampleSeed()
    ensures Valid(EXAMPLE) && Seed(EXAMPLE, EXAMPLE_DELTA, "b")
  {
    ExampleIsValid();
    ReachesSelf(Forward(EXAMPLE), "c");
    assert Touched(EXAMPLE, EXAMPLE_DELTA, "c");
    var d := Dep("c", "c", [Plain]);
    assert d.kinds[0] in d.kinds && EXAMPLE.nodes["b"][0] == d;
    assert d in EXAMPLE.nodes["b"];
  }

  lemma ExampleSeeds(m: Node)
    requires Valid(EXAMPLE)
    ensures m in {"b"} <==> Seed(EXAMPLE, EXAMPLE_DELTA, m)
  {
    ExampleSeed();
    assert EXAMPLE.nodes["a"] == [Dep("b", "b", [])];
  }

  lemma ExampleKindless()
    ensures Valid(EXAMPLE) && Kindless(EXAMPLE, EXAMPLE_DELTA, "a") && !Hit(EXAMPLE, EXAMPLE_DELTA, "a")
  {
    ExampleSeed();
    assert EXAMPLE.nodes["a"] == [Dep("b", "b", [])];
    assert Dep("b", "b", []) in EXAMPLE.nodes["a"];
  }

  /** The exception is real: an edge without a kind makes the reverse closure add a member that has
      no declared edge into anything changed. */
  lemma KindlessEdgeIsSelected()
    ensures Valid(EXAMPLE) && (forall m :: m in {"b"} <==> Seed(EXAMPLE, EXAMPLE_DELTA, m))
    ensures InClosure(Reverse(EXAMPLE), {"b"}, "a") && !Hit(EXAMPLE, EXAMPLE_DELTA, "a")
  {
    ExampleKindless();
    forall m ensures m in {"b"} <==> Seed(EXAMPLE, EXAMPLE_DELTA, m) {
      ExampleSeeds(m);
    }
    KindlessAreTested(EXAMPLE, EXAMPLE_DELTA, {"b"}, "a");
  }
}
