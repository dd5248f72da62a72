/**
 The dependency closure of the impact selector: a worklist over production edges
 that also collects, without following them, the targets of dev edges.
 */
module Closure {
  import opened Sequences

  type Node = string

  /** An outgoing edge in the chosen direction; dev edges have `production == false`. */
  datatype Edge = Edge(to: Node, production: bool)

  type Edges = map<Node, set<Edge>>

  function Out(g: Edges, n: Node): set<Edge> {
    if n in g then g[n] else {}
  }

  // ---------------------------------------------------------------- specification

  /** A non-empty walk along production edges. */
  ghost predicate Path(g: Edges, p: seq<Node>) {
    p != [] && forall i | 0 <= i < |p| - 1 :: Edge(p[i + 1], true) in Out(g, p[i])
  }

  ghost predicate Joins(g: Edges, p: seq<Node>, x: Node, y: Node) {
    Path(g, p) && p[0] == x && p[|p| - 1] == y
  }

  ghost predicate Reaches(g: Edges, x: Node, y: Node) {
    exists p :: Joins(g, p, x, y)
  }

  ghost predicate ReachedFrom(g: Edges, keys: set<Node>, y: Node) {
    exists x :: x in keys && Reaches(g, x, y)
  }

  /** A dev edge leads here from something reached; nothing is reached through it. */
  ghost predicate Tested(g: Edges, keys: set<Node>, z: Node) {
    exists y :: ReachedFrom(g, keys, y) && Edge(z, false) in Out(g, y)
  }

  ghost predicate InClosure(g: Edges, keys: set<Node>, x: Node) {
    ReachedFrom(g, keys, x) || Tested(g, keys, x)
  }

  // ---------------------------------------------------------------- reachability facts

  lemma ReachesSelf(g: Edges, x: Node)
    ensures Reaches(g, x, x)
  {
    assert Joins(g, [x], x, x);
  }

  lemma ReachesStep(g: Edges, x: Node, y: Node, z: Node)
    requires Reaches(g, x, y) && Edge(z, true) in Out(g, y)
    ensures Reaches(g, x, z)
  {
    var p :| Joins(g, p, x, y);
    assert Joins(g, p + [z], x, z);
  }

  lemma StepReaches(g: Edges, x: Node, y: Node, z: Node)
    requires Edge(y, true) in Out(g, x) && Reaches(g, y, z)
    ensures Reaches(g, x, z)
  {
    var p :| Joins(g, p, y, z);
    var q := [x] + p;
    forall i | 0 <= i < |q| - 1 ensures Edge(q[i + 1], true) in Out(g, q[i]) {
      if i > 0 { assert q[i] == p[i - 1] && q[i + 1] == p[i]; }
    }
    assert Joins(g, q, x, z);
  }

  /** A set that contains the start and is closed under production edges contains what is reached. */
  lemma {:induction false} ClosedContainsPath(g: Edges, closed: set<Node>, p: seq<Node>)
    requires Path(g, p) && p[0] in closed
    requires forall n, e | n in closed && e in Out(g, n) && e.production :: e.to in closed
    ensures p[|p| - 1] in closed
    decreases |p|
  {
    if |p| > 1 {
      assert Edge(p[1], true) in Out(g, p[0]);
      var q := p[1..];
      forall i | 0 <= i < |q| - 1 ensures Edge(q[i + 1], true) in Out(g, q[i]) {
        assert q[i] == p[i + 1] && q[i + 1] == p[i + 2];
      }
      ClosedContainsPath(g, closed, q);
    }
  }

  lemma ClosedContainsReached(g: Edges, closed: set<Node>, x: Node, y: Node)
    requires x in closed && Reaches(g, x, y)
    requires forall n, e | n in closed && e in Out(g, n) && e.production :: e.to in closed
    ensures y in closed
  {
    var p :| Joins(g, p, x, y);
    ClosedContainsPath(g, closed, p);
  }

  /** The closure of a union is the union of the closures. */
  lemma ClosureDistributes(g: Edges, a: set<Node>, b: set<Node>, x: Node)
    ensures InClosure(g, a + b, x) <==> InClosure(g, a, x) || InClosure(g, b, x)
  {
    forall y ensures ReachedFrom(g, a + b, y) <==> ReachedFrom(g, a, y) || ReachedFrom(g, b, y) {
      if ReachedFrom(g, a + b, y) {
        var k :| k in a + b && Reaches(g, k, y);
      }
      if ReachedFrom(g, a, y) {
        var k :| k in a && Reaches(g, k, y);
        assert k in a + b;
      }
      if ReachedFrom(g, b, y) {
        var k :| k in b && Reaches(g, k, y);
        assert k in a + b;
      }
    }
    if Tested(g, a + b, x) {
      var y :| ReachedFrom(g, a + b, y) && Edge(x, false) in Out(g, y);
      assert Tested(g, a, x) || Tested(g, b, x);
    }
    if Tested(g, a, x) {
      var y :| ReachedFrom(g, a, y) && Edge(x, false) in Out(g, y);
    }
    if Tested(g, b, x) {
      var y :| ReachedFrom(g, b, y) && Edge(x, false) in Out(g, y);
    }
  }

  // ---------------------------------------------------------------- worklist

  function Targets(g: Edges): set<Node> {
    set n, e | n in g && e in g[n] :: e.to
  }

  lemma ElementsAppend(xs: seq<Node>, x: Node)
    ensures Elements(xs + [x]) == Elements(xs) + {x}
  {
  }

  lemma Popped(xs: seq<Node>)
    requires xs != []
    ensures Elements(xs) == Elements(xs[..|xs| - 1]) + {xs[|xs| - 1]}
  {
    assert xs == xs[..|xs| - 1] + [xs[|xs| - 1]];
    ElementsAppend(xs[..|xs| - 1], xs[|xs| - 1]);
  }

  /** The elements of a set in some order, as `list(keys)` gives them. */
  method Listed(keys: set<Node>) returns (xs: seq<Node>)
    ensures Elements(xs) == keys
  {
    xs := [];
    var rest := keys;
    while rest != {}
      invariant rest <= keys && Elements(xs) == keys - rest
      decreases |rest|
    {
      var x :| x in rest;
      ElementsAppend(xs, x);
      xs, rest := xs + [x], rest - {x};
    }
  }

  /** Every selected node outside `open` has had all its edges taken in. */
  ghost predicate Expanded(g: Edges, selected: set<Node>, tests: set<Node>, open: set<Node>) {
    forall n, e | n in selected - open && e in Out(g, n) :: e.to in if e.production then selected else tests
  }

  ghost predicate Sound(g: Edges, keys: set<Node>, selected: set<Node>, tests: set<Node>) {
    && keys <= selected <= keys + Targets(g)
    && (forall x | x in selected :: ReachedFrom(g, keys, x))
    && (forall x | x in tests :: Tested(g, keys, x))
  }

  /** One node's edges, in whatever order they are listed. */
  method Expand(g: Edges, key: Node, selected0: set<Node>, tests0: set<Node>, pending0: seq<Node>)
    returns (selected: set<Node>, tests: set<Node>, pending: seq<Node>)
    ensures selected0 <= selected && tests0 <= tests
    ensures forall x | x in selected - selected0 :: Edge(x, true) in Out(g, key)
    ensures forall x | x in tests - tests0 :: Edge(x, false) in Out(g, key)
    ensures forall e | e in Out(g, key) :: e.to in if e.production then selected else tests
    ensures Elements(pending) == Elements(pending0) + (selected - selected0)
    ensures selected == selected0 ==> pending == pending0
  {
    selected, tests, pending := selected0, tests0, pending0;
    var edges := Out(g, key);
    while edges != {}
      invariant edges <= Out(g, key) && selected0 <= selected && tests0 <= tests
      invariant forall x | x in selected - selected0 :: Edge(x, true) in Out(g, key)
      invariant forall x | x in tests - tests0 :: Edge(x, false) in Out(g, key)
      invariant forall e | e in Out(g, key) - edges :: e.to in if e.production then selected else tests
      invariant Elements(pending) == Elements(pending0) + (selected - selected0)
      invariant selected == selected0 ==> pending == pending0
      decreases |edges|
    {
      var e :| e in edges;
      edges := edges - {e};
      assert e == Edge(e.to, e.production);
      if !e.production {
        tests := tests + {e.to};
      } else if e.to !in selected {
        ElementsAppend(pending, e.to);
        selected := selected + {e.to};
        pending := pending + [e.to];
      }
    }
  }

  lemma Justify(g: Edges, keys: set<Node>, key: Node, e: Edge)
    requires ReachedFrom(g, keys, key) && e in Out(g, key)
    ensures e.to in Targets(g)
    ensures if e.production then ReachedFrom(g, keys, e.to) else Tested(g, keys, e.to)
  {
    assert e == Edge(e.to, e.production);
    if e.production {
      var k :| k in keys && Reaches(g, k, key);
      ReachesStep(g, k, key, e.to);
    }
  }

  lemma StaysSound(g: Edges, keys: set<Node>, key: Node,
                   selected0: set<Node>, tests0: set<Node>, selected: set<Node>, tests: set<Node>)
    requires Sound(g, keys, selected0, tests0) && key in selected0 && selected0 <= selected
    requires forall x | x in selected - selected0 :: Edge(x, true) in Out(g, key)
    requires forall x | x in tests - tests0 :: Edge(x, false) in Out(g, key)
    ensures Sound(g, keys, selected, tests)
  {
    forall x | x in selected ensures ReachedFrom(g, keys, x) && x in keys + Targets(g) {
      if x !in selected0 { Justify(g, keys, key, Edge(x, true)); }
    }
    forall x | x in tests ensures Tested(g, keys, x) {
      if x !in tests0 { Justify(g, keys, key, Edge(x, false)); }
    }
  }

  lemma StaysExpanded(g: Edges, key: Node, open0: set<Node>, open: set<Node>,
                      selected0: set<Node>, tests0: set<Node>, selected: set<Node>, tests: set<Node>)
    requires Expanded(g, selected0, tests0, open0 + {key}) && selected0 <= selected && tests0 <= tests
    requires open == open0 + (selected - selected0)
    requires forall e | e in Out(g, key) :: e.to in if e.production then selected else tests
    ensures Expanded(g, selected, tests, open)
  {
    forall n, e | n in selected - open && e in Out(g, n)
      ensures e.to in if e.production then selected else tests
    {
      if n != key {
        assert n in selected0 - (open0 + {key});
      }
    }
  }

  /** Pop and expand one node of the worklist. */
  method Visit(g: Edges, ghost keys: set<Node>, key: Node, selected0: set<Node>, tests0: set<Node>, rest: seq<Node>)
    returns (selected: set<Node>, tests: set<Node>, pending: seq<Node>)
    requires Sound(g, keys, selected0, tests0) && Expanded(g, selected0, tests0, Elements(rest) + {key})
    requires Elements(rest) + {key} <= selected0
    ensures Sound(g, keys, selected, tests) && Expanded(g, selected, tests, Elements(pending))
    ensures Elements(pending) <= selected && selected0 <= selected
    ensures selected == selected0 ==> pending == rest
  {
    selected, tests, pending := Expand(g, key, selected0, tests0, rest);
    StaysSound(g, keys, key, selected0, tests0, selected, tests);
    StaysExpanded(g, key, Elements(rest), Elements(pending), selected0, tests0, selected, tests);
  }

  /** Terminates on cyclic graphs and returns exactly the specified closure. The result is a set
      determined by graph and keys, so no worklist or edge order can change it. */
  method ClosureOf(g: Edges, keys: set<Node>) returns (r: set<Node>)
    ensures forall x :: x in r <==> InClosure(g, keys, x)
  {
    var selected, tests := keys, {};
    var pending := Listed(keys);
    Start(g, keys);
    while pending != []
      invariant Sound(g, keys, selected, tests) && Expanded(g, selected, tests, Elements(pending))
      invariant Elements(pending) <= selected
      decreases keys + Targets(g) - selected, |pending|
    {
      var key, rest := pending[|pending| - 1], pending[..|pending| - 1];
      Popped(pending);
      ghost var before := selected;
      selected, tests, pending := Visit(g, keys, key, selected, tests, rest);
      Shrinks(keys + Targets(g), before, selected);
    }
    assert Elements<Node>([]) == {};
    r := selected + tests;
    Complete(g, keys, selected, tests);
  }

  lemma Start(g: Edges, keys: set<Node>)
    ensures Sound(g, keys, keys, {}) && Expanded(g, keys, {}, keys)
  {
    forall x | x in keys ensures ReachedFrom(g, keys, x) {
      ReachesSelf(g, x);
    }
  }

  lemma Shrinks(all: set<Node>, a: set<Node>, b: set<Node>)
    requires a <= b <= all
    ensures a == b || all - b < all - a
  {
    if !(b <= a) {
      var x :| x in b && x !in a;
      assert x in all - a && x !in all - b;
    }
  }

  lemma Complete(g: Edges, keys: set<Node>, selected: set<Node>, tests: set<Node>)
    requires Sound(g, keys, selected, tests) && Expanded(g, selected, tests, {})
    ensures forall x :: x in selected + tests <==> InClosure(g, keys, x)
  {
    forall n, e | n in selected && e in Out(g, n) && e.production ensures e.to in selected {
      assert n in selected - {};
    }
    forall y | ReachedFrom(g, keys, y) ensures y in selected {
      var k :| k in keys && Reaches(g, k, y);
      ClosedContainsReached(g, selected, k, y);
    }
    forall z | Tested(g, keys, z) ensures z in tests {
      var y :| ReachedFrom(g, keys, y) && Edge(z, false) in Out(g, y);
      assert y in selected - {};
    }
  }
}
