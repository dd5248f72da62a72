/**
 What the lease protocol guarantees in every reachable state, with any number of
 concurrent runs and with deaths between any two steps.
 */
module BuildLeaseTheorems {
  import opened BuildLease
  import opened BuildLeaseSafety

  lemma ReachableInv(s: State)
    requires Reachable(s)
    ensures Inv(s)
  {
    var trace :| Run(EMPTY, trace, s);
    KeepRun(EMPTY, trace, s);
  }

  /** A slot registered to a worktree holds only files written under its leases. */
  lemma RegisteredContentsAreOwn(s: State, f: File)
    requires Reachable(s) && f in s.files && f.slot in s.meta
    ensures f.writer == s.meta[f.slot].worktree
  {
    ReachableInv(s);
  }

  /** An interrupted wipe or retirement leaves no metadata through which its remains could be reused. */
  lemma TornSlotsAreUnregistered(s: State, i: nat)
    requires Reachable(s) && i in s.torn
    ensures i !in s.meta
  {
    ReachableInv(s);
  }

  /** Whatever a live lease finds in its slot, its own worktree wrote, and no removal was cut short. */
  lemma LeaseSeesOwnFiles(s: State, pid: Pid)
    requires Reachable(s) && pid in s.procs && s.procs[pid].phase.Leased?
    ensures var p := s.procs[pid];
            && p.chosen.index !in s.torn
            && forall f | f in s.files && f.slot == p.chosen.index :: f.writer == p.worktree
  {
    ReachableInv(s);
    assert Local(s, s.procs[pid]);
  }

  /** Two live leases share neither worktree nor target. A lease lives while any process holds its
      descriptors, so this covers descendants that outlive the runner. */
  lemma LeasesAreExclusive(s: State, p: Pid, q: Pid)
    requires Reachable(s) && p in s.procs && q in s.procs
    requires Sharing(s.procs[p]) && Sharing(s.procs[q]) && s.procs[p].run != s.procs[q].run
    ensures s.procs[p].worktree != s.procs[q].worktree
    ensures s.procs[p].phase.Leased? && s.procs[q].phase.Leased? ==>
              s.procs[p].chosen.index != s.procs[q].chosen.index
  {
    ReachableInv(s);
    assert Apart(s.procs[p], s.procs[q]);
    assert Local(s, s.procs[p]) && Local(s, s.procs[q]);
  }

  /** An acquisition that returned holds exactly its target lock; one that raised holds none. */
  lemma AcquisitionHoldsOneOrNone(s: State, pid: Pid)
    requires Reachable(s) && pid in s.procs
    ensures s.procs[pid].phase.Leased? ==> s.procs[pid].held == {s.procs[pid].chosen.index}
    ensures s.procs[pid].phase.Raised? ==> s.procs[pid].held == {} && !HoldsPool(s.procs[pid])
  {
    ReachableInv(s);
    assert Local(s, s.procs[pid]);
  }

  /** A slot that a process holds outside a pool session is unregistered or its own. */
  lemma HeldOutsidePoolIsOwnOrUnregistered(s: State, pid: Pid, i: nat)
    requires Reachable(s) && pid in s.procs && !HoldsPool(s.procs[pid])
    requires i in s.procs[pid].held && i in s.meta
    ensures s.meta[i].worktree == s.procs[pid].worktree
  {
    ReachableInv(s);
    HeldMeta(s, s.procs[pid], i);
  }

  /** Metadata is read before the lock is tried, yet a read naming the scanning worktree is never
      stale: it still holds, and the lock is free to take. */
  lemma OwnReadIsNeverStale(s: State, pid: Pid)
    requires Reachable(s) && pid in s.procs
    requires s.procs[pid].phase.Locking? && s.procs[pid].phase.seen.Some?
    requires s.procs[pid].phase.seen.value.worktree == s.procs[pid].worktree
    ensures s.procs[pid].todo != [] && Owns(s, s.procs[pid].todo[0], s.procs[pid].worktree)
    ensures TargetFree(s, s.procs[pid].todo[0])
  {
    ReachableInv(s);
    var p := s.procs[pid];
    assert Local(s, p);
    forall q | q in s.procs ensures p.todo[0] !in s.procs[q].held {
      if q != pid && p.todo[0] in s.procs[q].held {
        assert Apart(p, s.procs[q]);
        HeldMeta(s, s.procs[q], p.todo[0]);
        assert false;
      }
    }
  }

  /** A rank-0 choice still names the chooser's worktree when it is taken, whatever ran meanwhile. */
  lemma RankZeroIsNeverStale(s: State, pid: Pid, c: Candidate)
    requires Reachable(s) && Enabled(s, Choose(pid, c)) && c.rank == 0
    ensures Owns(s, c.index, s.procs[pid].worktree) && c.index in s.procs[pid].held
  {
    ReachableInv(s);
    assert Local(s, s.procs[pid]);
  }

  // ------------------------------------------------ one slot per worktree

  /** What a run knows of its own registrations while the pool size is `n`. */
  ghost predicate Cover(s: State, p: Proc) {
    match p.phase
    case Reading | Locking(_) =>
      forall j | Owns(s, j, p.worktree) :: j in p.todo || exists c | c in p.cands :: c.index == j && c.rank == 0
    case Retiring =>
      && p.todo != []
      && (forall j | Owns(s, j, p.worktree) ::
            j in p.todo[1..] || exists c | c in p.cands :: c.index == j && c.rank == 0)
    case Invalidating | Dropping | Wiping | Making | Registering =>
      forall j | Owns(s, j, p.worktree) :: j == p.chosen.index
    case _ => true
  }

  ghost predicate OneSlotEach(s: State) {
    forall i, j | i in s.meta && j in s.meta && s.meta[i].worktree == s.meta[j].worktree :: i == j
  }

  ghost predicate FixedInv(s: State, n: nat) {
    && OneSlotEach(s)
    && (forall i | i in s.meta :: i < n)
    && (forall p | p in s.procs :: s.procs[p].slots == n && Cover(s, s.procs[p]))
  }

  ghost predicate PoolSize(t: Step, n: nat) {
    t.Launch? ==> t.slots == n
  }

  /** `w` gains no registration between the two states. */
  ghost predicate NoNew(s: State, s': State, w: Worktree) {
    forall j | Owns(s', j, w) :: Owns(s, j, w)
  }

  /** Only publishing metadata registers, and only the publisher's worktree. */
  lemma Registrations(s: State, t: Step)
    requires Enabled(s, t)
    ensures forall w | t.WriteMeta? ==> w != s.procs[t.pid].worktree :: NoNew(s, Apply(s, t), w)
  {
  }

  lemma NothingNew(s: State, t: Step)
    requires Enabled(s, t) && !t.WriteMeta?
    ensures forall w :: NoNew(s, Apply(s, t), w)
  {
    Registrations(s, t);
  }

  lemma CoverFrame(s: State, s': State, q: Proc)
    requires Cover(s, q) && NoNew(s, s', q.worktree)
    ensures Cover(s', q)
  {
  }

  /** Registrations of a worktree only shrink under the steps of other runs. */
  lemma OthersCover(s: State, s': State, p: Proc, q: Proc)
    requires Apart(p, q) && Cover(s, q) && !Sharing(p) && !p.phase.Boot?
    requires forall w | w != p.worktree :: NoNew(s, s', w)
    ensures Cover(s', q)
  {
    if !q.phase.Boot? {
      CoverFrame(s, s', q);
    }
  }

  /** A lost race for a target lock never hides a registration of the scanning worktree. */
  lemma BusyIsForeign(s: State, pid: Pid, n: nat)
    requires Inv(s) && FixedInv(s, n) && pid in s.procs && s.procs[pid].phase.Locking?
    requires s.procs[pid].todo != [] && !TargetFree(s, s.procs[pid].todo[0])
    ensures !Owns(s, s.procs[pid].todo[0], s.procs[pid].worktree)
  {
    var p := s.procs[pid];
    var i := p.todo[0];
    assert Cover(s, p) && Local(s, p);
    var q :| q in s.procs && i in s.procs[q].held;
    assert q != pid;
    assert Apart(p, s.procs[q]);
    if Owns(s, i, p.worktree) {
      HeldMeta(s, s.procs[q], i);
      assert false;
    }
  }

  lemma CoverTry(s: State, t: Step, n: nat)
    requires Inv(s) && FixedInv(s, n) && Enabled(s, t) && t.TryTarget?
    ensures Cover(s, Apply(s, t).procs[t.pid])
  {
    var a := s.procs[t.pid];
    var i := a.todo[0];
    assert Local(s, a) && Cover(s, a);
    assert a.todo == [i] + a.todo[1..];
    if !TargetFree(s, i) {
      BusyIsForeign(s, t.pid, n);
      CoverBusy(s, a, Apply(s, t).procs[t.pid]);
    } else if i < n {
      var c := Of(a, a.phase.seen, t.alive, i);
      CoverGain(s, a, Apply(s, t).procs[t.pid], c);
    } else {
      CoverRetire(s, a, a.(phase := Retiring, held := a.held + {i}, retired := a.retired + [i]));
    }
  }

  lemma CoverBusy(s: State, a: Proc, b: Proc)
    requires a.phase.Locking? && Cover(s, a) && a.todo != [] && !Owns(s, a.todo[0], a.worktree)
    requires b == a.(phase := Reading, todo := a.todo[1..], saw := b.saw)
    ensures Cover(s, b)
  {
    assert a.todo == [a.todo[0]] + b.todo;
  }

  lemma CoverRetire(s: State, a: Proc, b: Proc)
    requires a.phase.Locking? && Cover(s, a) && a.todo != [] && a.todo[0] !in s.meta
    requires b == a.(phase := Retiring, held := a.held + {a.todo[0]}, retired := a.retired + [a.todo[0]])
    ensures Cover(s, b)
  {
    assert a.todo == [a.todo[0]] + a.todo[1..];
  }

  lemma CoverGain(s: State, a: Proc, b: Proc, c: Candidate)
    requires a.phase.Locking? && Local(s, a) && Cover(s, a) && a.todo == [c.index] + a.todo[1..]
    requires b == a.(phase := Reading, held := a.held + {c.index}, todo := a.todo[1..], cands := a.cands + [c],
                     saw := b.saw)
    requires Owns(s, c.index, a.worktree) ==> c.rank == 0
    ensures Cover(s, b)
  {
    assert c in b.cands;
    forall j | Owns(s, j, b.worktree)
      ensures j in b.todo || exists c | c in b.cands :: c.index == j && c.rank == 0
    {
      if j != c.index && j !in a.todo {
        var d :| d in a.cands && d.index == j && d.rank == 0;
        assert d in b.cands;
      }
    }
  }

  lemma CoverChoose(s: State, a: Proc, c: Candidate)
    requires OneSlotEach(s) && Local(s, a) && Cover(s, a) && a.phase.Reading? && a.todo == []
    requires c in a.cands && forall d | d in a.cands :: AtMost(c, d)
    ensures forall j | Owns(s, j, a.worktree) :: j == c.index
  {
    forall j | Owns(s, j, a.worktree) ensures j == c.index {
      var d :| d in a.cands && d.index == j && d.rank == 0;
      assert AtMost(c, d);
    }
  }

  lemma CoverScan(s: State, t: Step, n: nat)
    requires Inv(s) && FixedInv(s, n) && Enabled(s, t) && (t.List? || t.ReadMeta? || t.UnlinkRetired?)
    ensures Cover(Apply(s, t), Apply(s, t).procs[t.pid])
  {
    assert Local(s, s.procs[t.pid]) && Cover(s, s.procs[t.pid]);
  }

  ghost predicate Settles(t: Step) {
    t.Invalidate? || t.DropUnused? || t.ReleasePool? || t.WipeSome? || t.WipeDone? || t.MakeDir?
  }

  lemma CoverSettled(s: State, t: Step)
    requires Enabled(s, t) && Settles(t) && Cover(s, s.procs[t.pid])
    ensures t.pid in Apply(s, t).procs && Cover(s, Apply(s, t).procs[t.pid])
  {
  }

  lemma CoverIdle(s: State, t: Step)
    requires Enabled(s, t) && t.pid in Apply(s, t).procs && !Settles(t)
    requires !t.Launch? && !t.TryTarget? && !t.Choose? && !t.List? && !t.ReadMeta? && !t.UnlinkRetired?
    ensures Cover(s, Apply(s, t).procs[t.pid])
  {
  }

  /** What the acting process knows of the state it acted on. */
  lemma CoverAct(s: State, t: Step, n: nat)
    requires Inv(s) && FixedInv(s, n) && Enabled(s, t) && t.pid in Apply(s, t).procs
    requires !t.Launch? && !t.List? && !t.ReadMeta? && !t.UnlinkRetired?
    ensures Cover(s, Apply(s, t).procs[t.pid])
  {
    assert Cover(s, s.procs[t.pid]);
    if t.TryTarget? {
      CoverTry(s, t, n);
    } else if t.Choose? {
      assert Local(s, s.procs[t.pid]);
      CoverChoose(s, s.procs[t.pid], t.chosen);
    } else if Settles(t) {
      CoverSettled(s, t);
    } else {
      CoverIdle(s, t);
    }
  }

  lemma CoverActor(s: State, t: Step, n: nat)
    requires Inv(s) && FixedInv(s, n) && Enabled(s, t) && t.pid in Apply(s, t).procs
    ensures Cover(Apply(s, t), Apply(s, t).procs[t.pid])
  {
    if t.List? || t.ReadMeta? || t.UnlinkRetired? {
      CoverScan(s, t, n);
    } else if !t.Launch? && !t.WriteMeta? {
      CoverAct(s, t, n);
      NothingNew(s, t);
      CoverFrame(s, Apply(s, t), Apply(s, t).procs[t.pid]);
    }
  }

  lemma KeepOneSlot(s: State, t: Step, n: nat)
    requires Inv(s) && FixedInv(s, n) && Enabled(s, t)
    ensures OneSlotEach(Apply(s, t)) && forall i | i in Apply(s, t).meta :: i < n
  {
    Registrations(s, t);
    if t.WriteMeta? {
      var p := s.procs[t.pid];
      assert Local(s, p) && Cover(s, p);
      RegisterOne(s, Apply(s, t), n, p.chosen.index, Meta(p.worktree, t.now));
    } else {
      NoNewKeepsOneSlot(s, Apply(s, t), n);
    }
  }

  lemma NoNewKeepsOneSlot(s: State, s': State, n: nat)
    requires OneSlotEach(s) && (forall i | i in s.meta :: i < n) && forall w :: NoNew(s, s', w)
    ensures OneSlotEach(s') && forall i | i in s'.meta :: i < n
  {
    forall i | i in s'.meta ensures Owns(s, i, s'.meta[i].worktree) {
      assert NoNew(s, s', s'.meta[i].worktree) && Owns(s', i, s'.meta[i].worktree);
    }
  }

  lemma RegisterOne(s: State, s': State, n: nat, i: nat, m: Meta)
    requires OneSlotEach(s) && (forall j | j in s.meta :: j < n) && i < n && s'.meta == s.meta[i := m]
    requires forall j | Owns(s, j, m.worktree) :: j == i
    ensures OneSlotEach(s') && forall j | j in s'.meta :: j < n
  {
    assert forall j | j in s.meta && s.meta[j].worktree == m.worktree :: Owns(s, j, m.worktree);
  }

  /** A step changes one process; a fork copies it. */
  lemma Untouched(s: State, t: Step, q: Pid)
    requires Enabled(s, t) && q in Apply(s, t).procs
    ensures q == t.pid || (q in s.procs && Apply(s, t).procs[q] == s.procs[q])
            || (t.Fork? && Apply(s, t).procs[q] == s.procs[t.pid])
    ensures t.Launch? || t.pid in s.procs
  {
  }

  lemma SlotsKept(s: State, t: Step)
    requires Enabled(s, t) && t.pid in Apply(s, t).procs
    ensures Apply(s, t).procs[t.pid].slots == if t.Launch? then t.slots else s.procs[t.pid].slots
  {
  }

  lemma KeepCover(s: State, t: Step, n: nat, q: Pid)
    requires Inv(s) && FixedInv(s, n) && Enabled(s, t) && q in Apply(s, t).procs
    ensures Cover(Apply(s, t), Apply(s, t).procs[q])
  {
    Registrations(s, t);
    Untouched(s, t, q);
    if q == t.pid {
      CoverActor(s, t, n);
    } else if t.WriteMeta? {
      OthersCover(s, Apply(s, t), s.procs[t.pid], s.procs[q]);
    } else {
      CoverFrame(s, Apply(s, t), Apply(s, t).procs[q]);
    }
  }

  lemma KeepFixed(s: State, t: Step, n: nat)
    requires Inv(s) && FixedInv(s, n) && Enabled(s, t) && PoolSize(t, n)
    ensures FixedInv(Apply(s, t), n)
  {
    KeepOneSlot(s, t, n);
    forall q | q in Apply(s, t).procs
      ensures Apply(s, t).procs[q].slots == n && Cover(Apply(s, t), Apply(s, t).procs[q])
    {
      Untouched(s, t, q);
      if q == t.pid {
        SlotsKept(s, t);
      }
      KeepCover(s, t, n, q);
    }
  }

  lemma {:induction false} KeepFixedRun(s: State, trace: seq<Step>, end: State, n: nat)
    requires Inv(s) && FixedInv(s, n) && Run(s, trace, end)
    requires forall t | t in trace :: PoolSize(t, n)
    ensures FixedInv(end, n)
    decreases |trace|
  {
    if trace != [] {
      KeepStep(s, trace[0]);
      KeepFixed(s, trace[0], n);
      KeepFixedRun(Apply(s, trace[0]), trace[1..], end, n);
    }
  }

  /** While every run uses one pool size, no worktree is ever registered to two slots. */
  lemma OneSlotPerWorktree(trace: seq<Step>, s: State, n: nat)
    requires Run(EMPTY, trace, s) && forall t | t in trace :: PoolSize(t, n)
    ensures OneSlotEach(s)
  {
    KeepFixedRun(EMPTY, trace, s, n);
  }
}
