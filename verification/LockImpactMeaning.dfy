/**
 What the lock analysis selects, in terms of dependency edges, feature sets and
 lock tables as they are listed.
 */
module LockImpactMeaning {
  import opened Options
  import opened Closure
  import opened LockFile
  import opened LockMeaning
  import opened LockImpact

  // ---------------------------------------------------------------- edges

  /** `n` needs `x` for more than its tests. */
  ghost predicate Uses(g: Graph, n: Node, x: Node) {
    n in g.nodes && exists d :: d in g.nodes[n] && d.pkg == x && exists i :: 0 <= i < |d.kinds| && d.kinds[i] != Dev
  }

  ghost predicate Walk(g: Graph, p: seq<Node>) {
    p != [] && forall i | 0 <= i < |p| - 1 :: Uses(g, p[i], p[i + 1])
  }

  ghost predicate DependsOn(g: Graph, n: Node, x: Node) {
    exists p :: Walk(g, p) && p[0] == n && p[|p| - 1] == x
  }

  lemma ForwardIsUses(g: Graph, n: Node, x: Node)
    ensures Edge(x, true) in Out(Forward(g), n) <==> Uses(g, n, x)
  {
    if n in g.nodes {
      forall d | d in g.nodes[n] ensures Production(d) <==> exists i :: 0 <= i < |d.kinds| && d.kinds[i] != Dev {
        ProductionByIndex(d);
      }
    }
  }

  /** Production reachability is a walk along edges with a kind other than dev. */
  lemma ReachesIsDependsOn(g: Graph, n: Node, x: Node)
    ensures Reaches(Forward(g), n, x) <==> DependsOn(g, n, x)
  {
    forall a, b ensures Edge(b, true) in Out(Forward(g), a) <==> Uses(g, a, b) {
      ForwardIsUses(g, a, b);
    }
    if p :| Joins(Forward(g), p, n, x) {
      assert Walk(g, p);
    }
    if p :| Walk(g, p) && p[0] == n && p[|p| - 1] == x {
      assert Path(Forward(g), p);
      assert Joins(Forward(g), p, n, x);
    }
  }

  /** The dependents listed for a member are the members with an edge to it, each with whether one
      such edge has a kind other than dev. */
  lemma DependentsIff(g: Graph, m: Node, k: Node, production: bool)
    requires Valid(g)
    ensures Edge(k, production) in Out(Reverse(g), m) <==>
              && m in g.members && k in g.members
              && exists d :: d in g.nodes[k] && d.pkg == m
                             && (production <==> exists i :: 0 <= i < |d.kinds| && d.kinds[i] != Dev)
  {
    forall d: Dep ensures Production(d) <==> exists i :: 0 <= i < |d.kinds| && d.kinds[i] != Dev {
      ProductionByIndex(d);
    }
    if Edge(k, production) in Out(Reverse(g), m) {
      var d := ReverseEdge(g, m, Edge(k, production));
    }
  }

  // ---------------------------------------------------------------- features

  /** Workspace members are known by their manifest, all other packages by name, version and source. */
  lemma SameIdentityIff(g: Graph, h: Graph, n: Node, x: Node)
    requires Valid(g) && Valid(h) && n in g.packages && x in h.packages
    ensures IdentityOf(g, n) == IdentityOf(h, x) <==>
              || (n in g.members && x in h.members && g.manifests[n] == h.manifests[x])
              || (n !in g.members && x !in h.members && g.packages[n].key == h.packages[x].key)
  {
  }

  /** The features recorded for an identity are those of the last node listed with it. */
  lemma {:induction false} LastNodeWins(g: Graph, order: seq<Node>, id: Identity)
    requires Valid(g) && forall n | n in order :: n in g.nodes
    ensures id in Features(g, order) <==> exists i :: 0 <= i < |order| && IdentityOf(g, order[i]) == id
    ensures forall i | 0 <= i < |order| && IdentityOf(g, order[i]) == id
                       && (forall j | i < j < |order| :: IdentityOf(g, order[j]) != id) ::
              id in Features(g, order) && Features(g, order)[id] == g.features[order[i]]
    decreases |order|
  {
    if order != [] {
      var front, last := order[..|order| - 1], order[|order| - 1];
      assert last in order;
      forall n | n in front ensures n in order {
      }
      LastNodeWins(g, front, id);
      forall i | 0 <= i < |front| ensures front[i] == order[i] {
      }
      forall i | 0 <= i < |order| && IdentityOf(g, order[i]) == id
                 && (forall j | i < j < |order| :: IdentityOf(g, order[j]) != id)
        ensures id in Features(g, order) && Features(g, order)[id] == g.features[order[i]]
      {
        if i < |front| {
          assert forall j | i < j < |front| :: IdentityOf(g, front[j]) != id;
          assert IdentityOf(g, order[|front|]) != id;
        }
      }
    }
  }

  // ---------------------------------------------------------------- aliases

  /** The name a declaration goes by. */
  ghost predicate GoesBy(d: Declaration, alias: string) {
    alias == if d.rename.Some? && d.rename.value != "" then d.rename.value else d.name
  }

  ghost predicate DeclaresAs(g: Graph, m: Node, kind: Kind, d: Declaration, alias: string)
    requires m in g.packages
  {
    d in g.packages[m].declarations && d.kind == kind && GoesBy(d, alias)
  }

  /** The names under which a member declares a dependency: those that read as the name it is used
      by, or, if there is none, those of declarations of the package itself. */
  lemma AliasIff(g: Graph, m: Node, dep: Dep, kind: Kind, alias: string)
    requires m in g.packages && dep.pkg in g.packages
    ensures alias in Alias(g, m, dep, kind) <==>
              if exists x, name :: DeclaresAs(g, m, kind, x, name) && ReadsAs(name, dep.name) then
                ReadsAs(alias, dep.name) && exists d :: DeclaresAs(g, m, kind, d, alias)
              else
                exists d :: DeclaresAs(g, m, kind, d, alias) && d.name == g.packages[dep.pkg].key.name
  {
    var declared := g.packages[m].declarations;
    var exact := set d | d in declared && d.kind == kind && Underscored(AliasOf(d)) == dep.name :: AliasOf(d);
    forall a: string ensures Underscored(a) == dep.name <==> ReadsAs(a, dep.name) {
      UnderscoredIff(a, dep.name);
    }
    forall d: Declaration, name: string ensures GoesBy(d, name) <==> AliasOf(d) == name {
    }
    forall name ensures name in exact <==> ReadsAs(name, dep.name) && exists d :: DeclaresAs(g, m, kind, d, name) {
      if d :| DeclaresAs(g, m, kind, d, name) && ReadsAs(name, dep.name) {
        assert AliasOf(d) in exact;
      }
      if name in exact {
        var d :| d in declared && d.kind == kind && Underscored(AliasOf(d)) == dep.name && AliasOf(d) == name;
        assert DeclaresAs(g, m, kind, d, name);
      }
    }
    if x, name :| DeclaresAs(g, m, kind, x, name) && ReadsAs(name, dep.name) {
      assert name in exact;
    } else {
      assert exact == {};
      if alias in Alias(g, m, dep, kind) {
        var d :| d in declared && d.kind == kind && d.name == g.packages[dep.pkg].key.name && AliasOf(d) == alias;
        assert DeclaresAs(g, m, kind, d, alias);
      }
    }
  }

  /** The same but for hyphens, which read as underscores. */
  ghost predicate ReadsAs(a: string, b: string) {
    |a| == |b| && forall i | 0 <= i < |a| :: b[i] == if a[i] == '-' then '_' else a[i]
  }

  lemma UnderscoredIff(a: string, b: string)
    ensures Underscored(a) == b <==> ReadsAs(a, b)
  {
  }

  // ---------------------------------------------------------------- selection

  /** The two normalised lock files, and the two graphs, that an analysis compares. */
  datatype Revisions = Revisions(before: Graph, after: Graph, was: map<Key, Normal>, now: map<Key, Normal>)

  ghost predicate Compares(r: Revisions, lock: seq<Package>, lock': seq<Package>) {
    && Valid(r.before) && Valid(r.after)
    && Table(lock, KeysOf(lock)) == Some(r.was) && Table(lock', KeysOf(lock')) == Some(r.now)
  }

  /** The node's features changed, or it is an external package whose lock table did. */
  ghost predicate NodeChanged(r: Revisions, g: Graph, x: Node)
    requires Valid(r.before) && Valid(r.after) && Valid(g)
  {
    && x in g.packages
    && (|| Differs(Features(r.before, r.before.order), Features(r.after, r.after.order), IdentityOf(g, x))
        || (x !in g.members && Differs(r.was, r.now, g.packages[x].key)))
  }

  lemma TouchedIffChanged(r: Revisions, lock: seq<Package>, lock': seq<Package>, delta: Delta, g: Graph, x: Node)
    requires Compares(r, lock, lock') && Valid(g) && DeltaOf(r.before, r.after, lock, lock') == Some(delta)
    ensures x in g.packages && Touched(g, delta, x) <==> NodeChanged(r, g, x)
  {
    if x in g.packages {
      ChangedIff(Features(r.before, r.before.order), Features(r.after, r.after.order), IdentityOf(g, x));
      ChangedIff(r.was, r.now, g.packages[x].key);
    }
  }

  /** A member has an edge, of any kind, to something from which a changed node is reached. */
  ghost predicate Affected(r: Revisions, g: Graph, m: Node)
    requires Valid(r.before) && Valid(r.after) && Valid(g)
  {
    && m in g.members
    && exists d, x :: d in g.nodes[m] && d.kinds != [] && DependsOn(g, d.pkg, x) && NodeChanged(r, g, x)
  }

  lemma HitIffAffected(r: Revisions, lock: seq<Package>, lock': seq<Package>, delta: Delta, g: Graph, m: Node)
    requires Compares(r, lock, lock') && Valid(g) && DeltaOf(r.before, r.after, lock, lock') == Some(delta)
    ensures Hit(g, delta, m) <==> Affected(r, g, m)
  {
    forall x ensures x in g.packages && Touched(g, delta, x) <==> NodeChanged(r, g, x) {
      TouchedIffChanged(r, lock, lock', delta, g, x);
    }
    forall n, x ensures Reaches(Forward(g), n, x) <==> DependsOn(g, n, x) {
      ReachesIsDependsOn(g, n, x);
    }
    if Hit(g, delta, m) {
      var d :| d in g.nodes[m] && d.kinds != [] && ChangedBelow(g, delta, d.pkg);
      var x :| Reaches(Forward(g), d.pkg, x) && x in g.packages && Touched(g, delta, x);
      assert DependsOn(g, d.pkg, x) && NodeChanged(r, g, x);
    }
    if Affected(r, g, m) {
      var d, x :| d in g.nodes[m] && d.kinds != [] && DependsOn(g, d.pkg, x) && NodeChanged(r, g, x);
      assert ChangedBelow(g, delta, d.pkg);
    }
  }

  /** When every edge has a kind, the analysis selects exactly the current member names that belong,
      in one of the two revisions, to a member with an edge to something that changed. */
  lemma SelectionIff(
    r: Revisions, lock: seq<Package>, lock': seq<Package>, delta: Delta, selected: set<string>, name: string)
    requires Compares(r, lock, lock') && DeltaOf(r.before, r.after, lock, lock') == Some(delta)
    requires EveryEdgeHasAKind(r.before) && EveryEdgeHasAKind(r.after)
    requires forall n :: n in selected <==>
               n in Names(r.after, r.after.members) && (Chosen(r.before, delta, n) || Chosen(r.after, delta, n))
    ensures name in selected <==>
              && (exists m :: m in r.after.members && r.after.packages[m].key.name == name)
              && (|| (exists m :: Affected(r, r.before, m) && r.before.packages[m].key.name == name)
                  || (exists m :: Affected(r, r.after, m) && r.after.packages[m].key.name == name))
  {
    ChosenMeansHit(r.before, delta, name);
    ChosenMeansHit(r.after, delta, name);
    forall m ensures Hit(r.before, delta, m) <==> Affected(r, r.before, m) {
      HitIffAffected(r, lock, lock', delta, r.before, m);
    }
    forall m ensures Hit(r.after, delta, m) <==> Affected(r, r.after, m) {
      HitIffAffected(r, lock, lock', delta, r.after, m);
    }
  }

  /** In particular, and whatever the kinds of other edges, a current member that depends on an
      external package whose lock table was added, removed or altered is selected. */
  lemma ChangedTableSelects(r: Revisions, lock: seq<Package>, lock': seq<Package>, delta: Delta, selected: set<string>,
                            g: Graph, m: Node, d: Dep)
    requires Compares(r, lock, lock') && DeltaOf(r.before, r.after, lock, lock') == Some(delta)
    requires forall n :: n in selected <==>
               n in Names(r.after, r.after.members) && (Chosen(r.before, delta, n) || Chosen(r.after, delta, n))
    requires (g == r.before || g == r.after) && m in g.members && d in g.nodes[m] && d.kinds != []
    requires d.pkg !in g.members && Differs(r.was, r.now, g.packages[d.pkg].key)
    requires exists k :: k in r.after.members && r.after.packages[k].key.name == g.packages[m].key.name
    ensures g.packages[m].key.name in selected
  {
    assert Walk(g, [d.pkg]);
    assert DependsOn(g, d.pkg, d.pkg) && NodeChanged(r, g, d.pkg);
    assert Affected(r, g, m);
    HitIffAffected(r, lock, lock', delta, g, m);
    assert Chosen(g, delta, g.packages[m].key.name);
  }
}
