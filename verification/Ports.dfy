/**
 The registry of host port pairs shared by all development environments of a user.
 One call runs under the registry's file lock, so a history is a sequence of calls;
 `free` is the set of ports that can be bound while the call runs.
 */
module Ports {

  const PAIRS: nat := 20000

  datatype Pair = Pair(https: nat, backend: nat)

  function PortsOf(p: Pair): set<nat> { {p.https, p.backend} }

  type Allocations = map<string, Pair>

  datatype Outcome = Allocated(pair: Pair) | Occupied | Exhausted

  // ---------------------------------------------------------------- invariant

  ghost predicate WellFormed(p: Pair) {
    p.https % 2 == 0 && p.backend == p.https + 1 && 20000 <= p.https && p.backend <= 59999
  }

  ghost predicate Valid(a: Allocations) {
    && (forall project | project in a :: WellFormed(a[project]))
    && (forall x, y | x in a && y in a && x != y :: PortsOf(a[x]) !! PortsOf(a[y]))
  }

  function Used(a: Allocations): set<nat> {
    set project, port | project in a && port in PortsOf(a[project]) :: port
  }

  // ---------------------------------------------------------------- the probe

  function Probe(seed: nat, offset: nat): Pair {
    var first := 20000 + 2 * ((seed + offset) % PAIRS);
    Pair(first, first + 1)
  }

  lemma ProbeIsWellFormed(seed: nat, offset: nat)
    ensures WellFormed(Probe(seed, offset))
  {
  }

  function OffsetOf(seed: nat, p: Pair): (offset: nat)
    requires seed < PAIRS && WellFormed(p)
    ensures offset < PAIRS
  {
    var index := (p.https - 20000) / 2;
    if index >= seed then index - seed else index + PAIRS - seed
  }

  /** The probe visits every pair at exactly one offset. */
  lemma ProbeVisitsEachPairOnce(seed: nat, p: Pair, offset: nat)
    requires seed < PAIRS && WellFormed(p) && offset < PAIRS
    ensures Probe(seed, offset) == p <==> offset == OffsetOf(seed, p)
  {
    var index := (p.https - 20000) / 2;
    assert p.https == 20000 + 2 * index;
    assert (seed + offset) % PAIRS == if seed + offset < PAIRS then seed + offset else seed + offset - PAIRS;
  }

  /** The probe starts at the pair its seed names and goes on pair by pair, from the last to the first. */
  lemma ProbeGoesRound(seed: nat, offset: nat)
    requires seed < PAIRS
    ensures Probe(seed, 0) == Pair(20000 + 2 * seed, 20001 + 2 * seed)
    ensures var here, next := Probe(seed, offset), Probe(seed, offset + 1);
            next.https == if here.https == 59998 then 20000 else here.https + 2
  {
    var k := (seed + offset) % PAIRS;
    assert (seed + offset + 1) % PAIRS == if k == PAIRS - 1 then 0 else k + 1;
  }

  predicate Usable(a: Allocations, free: set<nat>, p: Pair) {
    PortsOf(p) !! Used(a) && PortsOf(p) <= free
  }

  /** The pair at the first usable offset, with everything before it unusable. */
  ghost predicate FirstUsable(a: Allocations, free: set<nat>, seed: nat, p: Pair) {
    exists offset: nat :: offset < PAIRS && Probe(seed, offset) == p && Usable(a, free, p)
                          && forall k: nat | k < offset :: !Usable(a, free, Probe(seed, k))
  }

  // ---------------------------------------------------------------- one call

  /** What allocating may do: a registered project keeps its pair, another gets the first usable one. */
  ghost predicate Allocates(
    a: Allocations, project: string, seed: nat, free: set<nat>, outcome: Outcome, a': Allocations)
  {
    if project in a then
      a' == a && outcome == if PortsOf(a[project]) <= free then Allocated(a[project]) else Occupied
    else match outcome
      case Allocated(p) => FirstUsable(a, free, seed, p) && a' == a[project := p]
      case Occupied => false
      case Exhausted => a' == a && forall p | WellFormed(p) :: !Usable(a, free, p)
  }

  lemma DisjointFromUsed(a: Allocations, p: Pair, project: string)
    requires PortsOf(p) !! Used(a) && project in a
    ensures PortsOf(p) !! PortsOf(a[project])
  {
    forall port | port in PortsOf(a[project]) ensures port in Used(a) {
    }
  }

  lemma AllocationKeepsValid(
    a: Allocations, project: string, seed: nat, free: set<nat>, outcome: Outcome, a': Allocations)
    requires Valid(a) && Allocates(a, project, seed, free, outcome, a')
    ensures Valid(a')
    ensures outcome.Allocated? ==> project in a' && a'[project] == outcome.pair && PortsOf(outcome.pair) <= free
  {
    if project !in a && outcome.Allocated? {
      var p := outcome.pair;
      var offset: nat :| offset < PAIRS && Probe(seed, offset) == p && Usable(a, free, p);
      ProbeIsWellFormed(seed, offset);
      forall x | x in a ensures PortsOf(a[x]) !! PortsOf(p) {
        DisjointFromUsed(a, p, x);
      }
    }
  }

  /** The registry file. */
  class Registry {
    var allocations: Allocations

    constructor ()
      ensures Valid(allocations) && allocations == map[]
    {
      allocations := map[];
    }

    method HostPorts(project: string, hash: nat, free: set<nat>) returns (outcome: Outcome)
      requires Valid(allocations)
      modifies this
      ensures Valid(allocations)
      ensures Allocates(old(allocations), project, hash % PAIRS, free, outcome, allocations)
    {
      ghost var before := allocations;
      var seed := hash % PAIRS;
      if project in allocations {
        var pair := allocations[project];
        return if PortsOf(pair) <= free then Allocated(pair) else Occupied;
      }
      var used := Used(allocations);
      for offset := 0 to PAIRS
        invariant allocations == before
        invariant forall k: nat | k < offset :: !Usable(before, free, Probe(seed, k))
      {
        var candidate := Probe(seed, offset);
        if PortsOf(candidate) !! used && PortsOf(candidate) <= free {
          allocations := allocations[project := candidate];
          outcome := Allocated(candidate);
          assert FirstUsable(before, free, seed, candidate);
          AllocationKeepsValid(before, project, seed, free, outcome, allocations);
          return;
        }
      }
      outcome := Exhausted;
      forall p | WellFormed(p) ensures !Usable(before, free, p) {
        ProbeVisitsEachPairOnce(seed, p, OffsetOf(seed, p));
      }
    }

    method Release(project: string)
      requires Valid(allocations)
      modifies this
      ensures Valid(allocations) && allocations == old(allocations) - {project}
    {
      allocations := allocations - {project};
    }
  }

  // ---------------------------------------------------------------- histories

  datatype Call = Allocate(project: string, seed: nat, free: set<nat>, outcome: Outcome) | Release(project: string)

  ghost predicate Does(a: Allocations, c: Call, a': Allocations) {
    match c
    case Allocate(project, seed, free, outcome) => Allocates(a, project, seed, free, outcome, a')
    case Release(project) => a' == a - {project}
  }

  /** `end` follows from `start` by the calls in order. */
  ghost predicate History(start: Allocations, calls: seq<Call>, end: Allocations)
    decreases |calls|
  {
    if calls == [] then start == end
    else exists a :: Does(start, calls[0], a) && History(a, calls[1..], end)
  }

  /** Registered pairs stay well-formed and pairwise disjoint through every history. */
  lemma {:induction false} HistoryKeepsValid(start: Allocations, calls: seq<Call>, end: Allocations)
    requires Valid(start) && History(start, calls, end)
    ensures Valid(end)
    decreases |calls|
  {
    if calls != [] {
      var a :| Does(start, calls[0], a) && History(a, calls[1..], end);
      if calls[0].Allocate? {
        AllocationKeepsValid(start, calls[0].project, calls[0].seed, calls[0].free, calls[0].outcome, a);
      }
      HistoryKeepsValid(a, calls[1..], end);
    }
  }

  /** A project keeps its pair until it is released, so a repeat allocation is stable. */
  lemma {:induction false} AllocationIsStable(start: Allocations, calls: seq<Call>, end: Allocations, project: string)
    requires project in start && History(start, calls, end)
    requires forall i | 0 <= i < |calls| :: calls[i] != Release(project)
    ensures project in end && end[project] == start[project]
    ensures forall seed, free, outcome, a | Allocates(end, project, seed, free, outcome, a) && outcome.Allocated? ::
              outcome.pair == start[project]
    decreases |calls|
  {
    if calls != [] {
      var a :| Does(start, calls[0], a) && History(a, calls[1..], end);
      AllocationIsStable(a, calls[1..], end, project);
    }
  }
}
