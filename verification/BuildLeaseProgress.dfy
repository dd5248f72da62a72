/**
 Crashes never wedge the pool: whatever the dead left behind, a run that starts
 when nobody else is alive can acquire a slot.
 */
module BuildLeaseProgress {
  import opened BuildLease
  import opened BuildLeaseSafety
  import opened BuildLeaseTheorems

  // ---------------------------------------------------------------- choices

  lemma {:induction false} Largest(xs: set<nat>) returns (m: nat)
    requires xs != {}
    ensures m in xs && forall x | x in xs :: x <= m
    decreases |xs|
  {
    m :| m in xs;
    var rest := xs - {m};
    if rest != {} {
      var n := Largest(rest);
      if n > m {
        m := n;
      }
    }
    assert forall x | x in xs :: x == m || x in rest || x <= m;
  }

  /** A finite set of indices in increasing order. */
  lemma {:induction false} Ordered(xs: set<nat>) returns (r: seq<nat>)
    ensures Sorted(r) && forall x :: x in r <==> x in xs
    decreases |xs|
  {
    if xs == {} {
      r := [];
    } else {
      var m := Largest(xs);
      r := Ordered(xs - {m});
      forall a | 0 <= a < |r| ensures r[a] < m {
        assert r[a] in r;
      }
      r := r + [m];
    }
  }

  function Below(n: nat): (r: set<nat>)
    ensures forall i: nat :: i in r <==> i < n
  {
    if n == 0 then {} else Below(n - 1) + {n - 1}
  }

  lemma {:induction false} Least(cands: seq<Candidate>) returns (c: Candidate)
    requires cands != []
    ensures c in cands && forall d | d in cands :: AtMost(c, d)
    decreases |cands|
  {
    var front, last := cands[..|cands| - 1], cands[|cands| - 1];
    c := last;
    if front != [] {
      var d := Least(front);
      if AtMost(d, last) {
        c := d;
      }
    }
    assert forall d | d in cands :: d in front || d == last;
  }

  // ---------------------------------------------------------------- a run of its own

  predicate Acquiring(phase: Phase) {
    !phase.Leased? && !phase.Ending? && !phase.Unwinding? && !phase.Raised?
  }

  ghost predicate IsCandidate(p: Proc, i: nat) {
    exists c | c in p.cands :: c.index == i
  }

  /** With nobody to lose a lock to, the scan misses no slot of the pool. */
  ghost predicate Found(p: Proc) {
    p.phase.Reading? || p.phase.Locking? || p.phase.Retiring? ==>
      forall i: nat :: i < p.slots ==> i in p.todo || IsCandidate(p, i)
  }

  ghost predicate Alone(s: State, pid: Pid) {
    && s.procs.Keys == {pid} && Local(s, s.procs[pid])
    && s.procs[pid].slots > 0 && Acquiring(s.procs[pid].phase) && Found(s.procs[pid])
  }

  function Rank(phase: Phase): nat {
    match phase
    case Boot => 10
    case Opening => 9
    case Listing => 8
    case Reading | Locking(_) | Retiring => 7
    case Invalidating => 6
    case Dropping => 5
    case Wiping => 4
    case Making => 3
    case Registering => 2
    case Returning => 1
    case _ => 0
  }

  function Size(p: Proc): nat {
    match p.phase
    case Reading => 3 * |p.todo| + 2
    case Locking(_) => 3 * |p.todo| + 1
    case Retiring => 3 * |p.todo|
    case Dropping | Returning => |p.held|
    case Wiping => |p.wipes|
    case _ => 0
  }

  /** The run is still alone, and nearer to its lease. */
  ghost predicate Nearer(s: State, pid: Pid, next: State)
    requires pid in s.procs
  {
    && next.procs.Keys == {pid}
    && var p, p' := s.procs[pid], next.procs[pid];
       && p'.slots == p.slots && p'.worktree == p.worktree && Found(p')
       && (Acquiring(p'.phase) || p'.phase.Leased?)
       && (Rank(p'.phase) < Rank(p.phase) || (Rank(p'.phase) == Rank(p.phase) && Size(p') < Size(p)))
  }

  /** Past the scan it is enough to look at what the process becomes. */
  lemma NearerBy(s: State, pid: Pid, next: State, p': Proc)
    requires s.procs.Keys == {pid} && next.procs == s.procs[pid := p']
    requires var p := s.procs[pid];
             && p'.slots == p.slots && p'.worktree == p.worktree
             && Rank(p'.phase) <= 5 && (Acquiring(p'.phase) || p'.phase.Leased?)
             && (Rank(p'.phase) < Rank(p.phase) || (Rank(p'.phase) == Rank(p.phase) && Size(p') < Size(p)))
    ensures Nearer(s, pid, next)
  {
  }

  lemma Fewer(xs: set<nat>, x: nat)
    requires x in xs
    ensures |xs - {x}| < |xs|
  {
  }

  lemma StartNearer(s: State, pid: Pid) returns (t: Step)
    requires Alone(s, pid) && (s.procs[pid].phase.Boot? || s.procs[pid].phase.Opening? || s.procs[pid].phase.Listing?)
    ensures Enabled(s, t) && Nearer(s, pid, Apply(s, t))
  {
    var p := s.procs[pid];
    if p.phase.Boot? {
      t := TakeWork(pid);
    } else if p.phase.Opening? {
      t := TakePool(pid);
    } else {
      var todo := Ordered(Below(p.slots) + s.dirs);
      t := List(pid, todo);
    }
  }

  lemma ScanNearer(s: State, pid: Pid) returns (t: Step)
    requires Alone(s, pid) && (s.procs[pid].phase.Locking? || s.procs[pid].phase.Retiring?)
    ensures Enabled(s, t) && Nearer(s, pid, Apply(s, t))
  {
    var p := s.procs[pid];
    assert p.todo == [p.todo[0]] + p.todo[1..];
    t := if p.phase.Locking? then TryTarget(pid, false) else UnlinkRetired(pid);
    var p' := Apply(s, t).procs[pid];
    forall i: nat | i < p.slots && i !in p'.todo ensures IsCandidate(p', i) {
      if i in p.todo {
        assert i == p.todo[0];
        assert Of(p, p.phase.seen, false, i) in p'.cands;
      } else {
        var c :| c in p.cands && c.index == i;
        assert c in p'.cands;
      }
    }
  }

  lemma ReadNearer(s: State, pid: Pid) returns (t: Step)
    requires Alone(s, pid) && s.procs[pid].phase.Reading?
    ensures Enabled(s, t) && Nearer(s, pid, Apply(s, t))
  {
    var p := s.procs[pid];
    if p.todo != [] {
      t := ReadMeta(pid);
    } else {
      assert IsCandidate(p, 0);
      var c := Least(p.cands);
      t := Choose(pid, c);
    }
  }

  lemma ReleaseNearer(s: State, pid: Pid) returns (t: Step)
    requires Alone(s, pid) && s.procs[pid].phase.Dropping?
    requires forall i | i in s.procs[pid].held :: i == s.procs[pid].chosen.index || i in s.procs[pid].retired
    ensures Enabled(s, t) && Nearer(s, pid, Apply(s, t))
  {
    t := ReleasePool(pid);
    NearerBy(s, pid, Apply(s, t), Apply(s, t).procs[pid]);
  }

  lemma DropNearer(s: State, pid: Pid) returns (t: Step)
    requires Alone(s, pid) && s.procs[pid].phase.Dropping?
    ensures Enabled(s, t) && Nearer(s, pid, Apply(s, t))
  {
    var p := s.procs[pid];
    if i :| i in p.held && i != p.chosen.index && i !in p.retired {
      t := DropUnused(pid, i);
      Fewer(p.held, i);
      NearerBy(s, pid, Apply(s, t), p.(held := p.held - {i}));
    } else {
      t := ReleaseNearer(s, pid);
    }
  }

  lemma WipeNearer(s: State, pid: Pid) returns (t: Step)
    requires Alone(s, pid) && s.procs[pid].phase.Wiping?
    ensures Enabled(s, t) && Nearer(s, pid, Apply(s, t))
  {
    var p := s.procs[pid];
    t := WipeDone(pid);
    NearerBy(s, pid, Apply(s, t), p.(phase := if |p.wipes| == 1 then Making else Wiping, wipes := p.wipes[1..]));
  }

  lemma MakeNearer(s: State, pid: Pid) returns (t: Step)
    requires Alone(s, pid)
    requires var phase := s.procs[pid].phase;
             phase.Invalidating? || phase.Making? || phase.Registering?
    ensures Enabled(s, t) && Nearer(s, pid, Apply(s, t))
  {
    var p := s.procs[pid];
    match p.phase
    case Invalidating =>
      t := Invalidate(pid);
      NearerBy(s, pid, Apply(s, t), p.(phase := Dropping));
    case Making =>
      t := MakeDir(pid);
      NearerBy(s, pid, Apply(s, t), p.(phase := Registering));
    case Registering =>
      t := WriteMeta(pid, 0);
      NearerBy(s, pid, Apply(s, t), p.(phase := Returning));
  }

  lemma ReturnNearer(s: State, pid: Pid) returns (t: Step)
    requires Alone(s, pid) && s.procs[pid].phase.Returning?
    ensures Enabled(s, t) && Nearer(s, pid, Apply(s, t))
  {
    var p := s.procs[pid];
    if i :| i in p.held && i != p.chosen.index {
      t := CloseRetired(pid, i);
      Fewer(p.held, i);
      NearerBy(s, pid, Apply(s, t), p.(held := p.held - {i}));
    } else {
      assert p.held == {p.chosen.index};
      t := Return(pid);
      NearerBy(s, pid, Apply(s, t), p.(phase := Leased));
    }
  }

  lemma StepNearer(s: State, pid: Pid) returns (t: Step)
    requires Alone(s, pid)
    ensures Enabled(s, t) && Nearer(s, pid, Apply(s, t))
  {
    var phase := s.procs[pid].phase;
    if Rank(phase) >= 8 {
      t := StartNearer(s, pid);
    } else if phase.Reading? {
      t := ReadNearer(s, pid);
    } else if Rank(phase) == 7 {
      t := ScanNearer(s, pid);
    } else if phase.Dropping? {
      t := DropNearer(s, pid);
    } else if phase.Wiping? {
      t := WipeNearer(s, pid);
    } else if phase.Returning? {
      t := ReturnNearer(s, pid);
    } else {
      t := MakeNearer(s, pid);
    }
  }

  lemma {:induction false} AloneLeases(s: State, pid: Pid) returns (trace: seq<Step>, end: State)
    requires Inv(s) && Alone(s, pid)
    ensures Run(s, trace, end) && pid in end.procs && end.procs[pid].phase.Leased?
    ensures end.procs[pid].worktree == s.procs[pid].worktree
    decreases Rank(s.procs[pid].phase), Size(s.procs[pid])
  {
    var t := StepNearer(s, pid);
    var next := Apply(s, t);
    KeepStep(s, t);
    trace, end := [], next;
    if !next.procs[pid].phase.Leased? {
      trace, end := AloneLeases(next, pid);
    }
    assert ([t] + trace)[1..] == trace;
    trace := [t] + trace;
  }

  /** From every reachable state without live processes, however the processes before died, a run of
      any worktree and any pool size can acquire its lease. */
  lemma CrashesNeverWedgeThePool(s: State, pid: Pid, worktree: Worktree, slots: nat)
    returns (trace: seq<Step>, end: State)
    requires Reachable(s) && s.procs == map[] && slots > 0
    ensures Run(s, trace, end) && pid in end.procs && end.procs[pid].phase.Leased?
    ensures end.procs[pid].worktree == worktree
  {
    ReachableInv(s);
    var t := Launch(pid, worktree, slots);
    var next := Apply(s, t);
    KeepStep(s, t);
    trace, end := AloneLeases(next, pid);
    assert ([t] + trace)[1..] == trace;
    trace := [t] + trace;
  }
}
