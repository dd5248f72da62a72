/**
 Safety of the lease protocol over every run: exclusive leases, slot contents
 that belong to the registered worktree, and metadata reads that are never stale
 for their own worktree.
 */
module BuildLeaseSafety {
  import opened BuildLease

  // ---------------------------------------------------------------- invariant

  /** What two distinct processes may hold at once. */
  ghost predicate Apart(a: Proc, b: Proc) {
    && (!a.phase.Boot? && !b.phase.Boot? && a.worktree == b.worktree ==> a.run == b.run)
    && !(HoldsPool(a) && HoldsPool(b))
    && (a.held !! b.held || a.run == b.run)
    && (a.run == b.run ==>
          Sharing(a) && Sharing(b) && a.worktree == b.worktree && a.chosen.index == b.chosen.index)
  }

  ghost predicate Exclusive(s: State) {
    && (forall p | p in s.procs :: s.procs[p].run < s.nextRun)
    && (forall p, q | p in s.procs && q in s.procs && p != q :: Apart(s.procs[p], s.procs[q]))
  }

  ghost predicate Owns(s: State, i: nat, w: Worktree) {
    i in s.meta && s.meta[i].worktree == w
  }

  ghost predicate Unregistered(s: State, xs: seq<nat>) {
    forall i | i in xs :: i !in s.meta
  }

  /** Facts of a scan: what is held, and that rank 0 still means ownership. */
  ghost predicate Scan(s: State, p: Proc) {
    && (forall i | i in p.held :: i in p.retired || exists c | c in p.cands :: c.index == i)
    && (forall i | i in p.retired :: i in p.held && p.slots <= i)
    && (forall c | c in p.cands ::
          c.index in p.held && c.index < p.slots && (c.rank == 0 ==> Owns(s, c.index, p.worktree)))
  }

  /** The scan goes through distinct indices; none that it still has to visit is held. */
  ghost predicate Ahead(p: Proc, todo: seq<nat>) {
    Sorted(todo) && forall i | i in p.held :: i !in todo
  }

  /** Facts once a slot is chosen and its session is over. */
  ghost predicate Settled(s: State, p: Proc) {
    && p.chosen.index in p.held
    && p.chosen.index < p.slots
    && (forall i | i in p.retired :: i in p.held && p.slots <= i)
    && (forall i | i in p.held :: i == p.chosen.index || i in p.retired)
    && Unregistered(s, p.retired)
    && (if p.chosen.rank == 0 then Owns(s, p.chosen.index, p.worktree) else p.chosen.index !in s.meta)
  }

  /** The slot holds nothing that another worktree wrote, and no interrupted removal. */
  ghost predicate Fresh(s: State, p: Proc) {
    && p.chosen.index !in s.torn
    && (forall f | f in s.files && f.slot == p.chosen.index :: f.writer == p.worktree)
  }

  /** Nothing is left of the slot. */
  ghost predicate Removed(s: State, i: nat) {
    i !in s.dirs && i !in s.torn && forall f | f in s.files :: f.slot != i
  }

  ghost predicate Local(s: State, p: Proc) {
    match p.phase
    case Boot | Opening | Listing => p.held == {} && p.retired == [] && p.cands == []
    case Ending | Raised => p.held == {}
    case Reading => Scan(s, p) && Unregistered(s, p.retired) && Ahead(p, p.todo)
    case Locking(seen) =>
      && Scan(s, p) && Unregistered(s, p.retired) && Ahead(p, p.todo) && p.todo != []
      && (seen.Some? && seen.value.worktree == p.worktree <==> Owns(s, p.todo[0], p.worktree))
    case Retiring =>
      && Scan(s, p) && p.todo != [] && p.todo[0] in p.held && p.slots <= p.todo[0] && Ahead(p, p.todo[1..])
      && (forall i | i in p.retired :: i == p.todo[0] || i !in s.meta)
    case Invalidating => Scan(s, p) && Unregistered(s, p.retired) && p.chosen in p.cands && p.chosen.rank != 0
    case Dropping =>
      && p.chosen.index in p.held && p.chosen.index < p.slots
      && (forall i | i in p.retired :: i in p.held && p.slots <= i)
      && Unregistered(s, p.retired)
      && (if p.chosen.rank == 0 then Owns(s, p.chosen.index, p.worktree) else p.chosen.index !in s.meta)
    case Wiping =>
      && Settled(s, p) && p.wipes != []
      && (forall i | i in p.wipes :: i in p.held && i !in s.meta)
      && (p.chosen.rank != 0 ==> p.wipes[|p.wipes| - 1] == p.chosen.index)
      && (forall i | i in p.retired :: i in p.wipes || Removed(s, i))
    case Making | Registering =>
      && Settled(s, p) && Fresh(s, p) && (p.phase.Registering? ==> p.chosen.index in s.dirs)
      && (forall i | i in p.retired :: Removed(s, i))
    case Returning =>
      && p.chosen.index in p.held && Owns(s, p.chosen.index, p.worktree) && p.chosen.index in s.dirs
      && p.chosen.index < p.slots
      && (forall i | i in p.held :: i == p.chosen.index || (i !in s.meta && Removed(s, i)))
    case Leased => p.held == {p.chosen.index} && Owns(s, p.chosen.index, p.worktree)
    case Unwinding(pool) => !pool ==> forall i | i in p.held && i in s.meta :: Owns(s, i, p.worktree)
  }

  /** Registered contents belong to the registered worktree; torn slots are unregistered. */
  ghost predicate Contents(s: State) {
    && (forall f | f in s.files && f.slot in s.meta :: f.writer == s.meta[f.slot].worktree)
    && (forall i | i in s.torn :: i !in s.meta)
  }

  ghost predicate Inv(s: State) {
    && Exclusive(s)
    && Contents(s)
    && (forall p | p in s.procs :: Local(s, s.procs[p]))
  }

  // ---------------------------------------------------------------- frames

  /** A process outside a pool session registers nothing but its own worktree. */
  lemma HeldMeta(s: State, p: Proc, i: nat)
    requires Local(s, p) && !HoldsPool(p) && i in p.held && i in s.meta
    ensures Owns(s, i, p.worktree)
  {
  }

  /** The only metadata a step touches belongs to a slot its process holds and leases alone. */
  ghost predicate TouchesOwn(s: State, s': State, p: Proc) {
    && (forall i | i !in p.held :: i in s'.meta <==> i in s.meta)
    && (forall i | i !in p.held && i in s.meta :: s'.meta[i] == s.meta[i])
    && (forall i | i in s'.meta && (i !in s.meta || s'.meta[i] != s.meta[i]) ::
          s'.meta[i].worktree == p.worktree)
    && (forall i | i !in p.held :: i in s'.torn <==> i in s.torn)
    && (forall i | i !in p.held :: i in s'.dirs <==> i in s.dirs)
    && (forall f: File | f.slot !in p.held :: f in s'.files <==> f in s.files)
  }

  /** Steps of one process preserve what every other process knows. */
  lemma OthersKeep(s: State, s': State, p: Proc, q: Proc)
    requires Apart(p, q) && Local(s, p) && Local(s, q) && TouchesOwn(s, s', p) && !Sharing(p)
    ensures Local(s', q)
  {
    assert p.held !! q.held;
    if q.phase.Locking? && q.todo[0] in p.held && Owns(s, q.todo[0], q.worktree) {
      HeldMeta(s, p, q.todo[0]);
    }
  }

  /** A leased process writes only below its own slot, which nobody is about to publish. */
  lemma OthersKeepFiles(s: State, s': State, p: Proc, q: Proc)
    requires Apart(p, q) && Local(s, q) && TouchesOwn(s, s', p)
    requires s'.meta == s.meta && s'.torn == s.torn
    ensures Local(s', q)
  {
  }

  /** `b` replaces `a` and holds nothing that `a` did not. */
  ghost predicate Weaker(a: Proc, b: Proc) {
    && b.run == a.run && b.worktree == a.worktree && b.held <= a.held
    && (HoldsPool(b) ==> HoldsPool(a))
    && !a.phase.Boot?
    && (Sharing(a) ==> Sharing(b) && b.chosen.index == a.chosen.index)
  }

  /** A step of one process that holds nothing new, touches only its own slots, and leaves itself
      and the contents of slots in order. */
  ghost predicate OwnStep(s: State, s': State, pid: Pid)
    requires pid in s.procs
  {
    && s'.nextRun == s.nextRun
    && pid in s'.procs && s'.procs == s.procs[pid := s'.procs[pid]]
    && Weaker(s.procs[pid], s'.procs[pid])
    && TouchesOwn(s, s', s.procs[pid])
    && ((s'.meta == s.meta && s'.torn == s.torn) || !Sharing(s.procs[pid]))
    && Contents(s') && Local(s', s'.procs[pid])
  }

  /** Another process still knows what it knew. */
  lemma AdvanceOther(s: State, s': State, pid: Pid, q: Proc)
    requires pid in s.procs && OwnStep(s, s', pid)
    requires Apart(s.procs[pid], q) && Local(s, s.procs[pid]) && Local(s, q)
    ensures Local(s', q)
  {
    if Sharing(s.procs[pid]) {
      OthersKeepFiles(s, s', s.procs[pid], q);
    } else {
      OthersKeep(s, s', s.procs[pid], q);
    }
  }

  lemma WeakerIsApart(a: Proc, b: Proc, q: Proc)
    requires Weaker(a, b) && Apart(a, q) && Apart(q, a)
    ensures Apart(b, q) && Apart(q, b)
  {
  }

  lemma AdvanceExclusive(s: State, s': State, pid: Pid)
    requires Exclusive(s) && pid in s.procs && pid in s'.procs && s'.nextRun == s.nextRun
    requires s'.procs == s.procs[pid := s'.procs[pid]] && Weaker(s.procs[pid], s'.procs[pid])
    ensures Exclusive(s')
  {
    forall p, q | p in s'.procs && q in s'.procs && p != q ensures Apart(s'.procs[p], s'.procs[q]) {
      assert Apart(s.procs[p], s.procs[q]) && Apart(s.procs[q], s.procs[p]);
      if p == pid {
        WeakerIsApart(s.procs[p], s'.procs[p], s.procs[q]);
      } else if q == pid {
        WeakerIsApart(s.procs[q], s'.procs[q], s.procs[p]);
      }
    }
  }

  lemma Advance(s: State, s': State, pid: Pid)
    requires Inv(s) && pid in s.procs && OwnStep(s, s', pid)
    ensures Inv(s')
  {
    AdvanceExclusive(s, s', pid);
    forall q | q in s'.procs ensures Local(s', s'.procs[q]) {
      if q != pid {
        assert Apart(s.procs[pid], s.procs[q]) && Local(s, s.procs[q]) && Local(s, s.procs[pid]);
        AdvanceOther(s, s', pid, s.procs[q]);
      }
    }
  }

  /** What a process knows is about metadata, removals and files only. */
  lemma SameLocal(s: State, s': State, p: Proc)
    requires Local(s, p) && s'.meta == s.meta && s'.torn == s.torn && s'.files == s.files && s'.dirs == s.dirs
    ensures Local(s', p)
  {
  }

  /** A process that gains a lock, or a new process, shares with nobody it must not. */
  lemma Gain(s: State, s': State, pid: Pid)
    requires Inv(s) && s'.meta == s.meta && s'.torn == s.torn && s'.files == s.files && s'.dirs == s.dirs
    requires pid in s'.procs && s'.procs == s.procs[pid := s'.procs[pid]]
    requires s.nextRun <= s'.nextRun && s'.procs[pid].run < s'.nextRun
    requires forall q | q in s.procs && q != pid ::
               Apart(s'.procs[pid], s.procs[q]) && Apart(s.procs[q], s'.procs[pid])
    requires Local(s', s'.procs[pid])
    ensures Inv(s')
  {
    forall q | q in s'.procs ensures Local(s', s'.procs[q]) {
      if q != pid {
        SameLocal(s, s', s.procs[q]);
      }
    }
    forall p, q | p in s'.procs && q in s'.procs && p != q ensures Apart(s'.procs[p], s'.procs[q]) {
      assert p != pid && q != pid ==> Apart(s.procs[p], s.procs[q]);
    }
  }

  // ---------------------------------------------------------------- steps

  lemma KeepLaunch(s: State, t: Step)
    requires Inv(s) && t.Launch? && Enabled(s, t)
    ensures Inv(Apply(s, t))
  {
    Gain(s, Apply(s, t), t.pid);
  }

  lemma Leave(s: State, s': State, pid: Pid)
    requires Inv(s) && s' == s.(procs := s.procs - {pid})
    ensures Inv(s')
  {
    forall q | q in s'.procs ensures Local(s', s'.procs[q]) {
      SameLocal(s, s', s.procs[q]);
    }
  }

  lemma KeepTakeWork(s: State, t: Step)
    requires Inv(s) && t.TakeWork? && Enabled(s, t)
    ensures Inv(Apply(s, t))
  {
    var a := s.procs[t.pid];
    assert Local(s, a);
    if WorkFree(s, a.worktree) {
      forall q | q in s.procs && q != t.pid ensures Apart(a, s.procs[q]) && Apart(s.procs[q], a) {
      }
      Gain(s, Apply(s, t), t.pid);
    } else {
      Leave(s, Apply(s, t), t.pid);
    }
  }

  lemma TakePoolApart(s: State, t: Step, q: Pid)
    requires Exclusive(s) && t.TakePool? && Enabled(s, t) && q in s.procs && q != t.pid
    ensures var b := Apply(s, t).procs[t.pid];
            Apart(b, s.procs[q]) && Apart(s.procs[q], b)
  {
    assert Apart(s.procs[t.pid], s.procs[q]) && Apart(s.procs[q], s.procs[t.pid]);
  }

  lemma TakePoolLocal(s: State, t: Step)
    requires t.TakePool? && Enabled(s, t) && Local(s, s.procs[t.pid])
    ensures Local(Apply(s, t), Apply(s, t).procs[t.pid])
  {
  }

  lemma KeepTakePool(s: State, t: Step)
    requires Inv(s) && t.TakePool? && Enabled(s, t)
    ensures Inv(Apply(s, t))
  {
    var b := Apply(s, t).procs[t.pid];
    assert Local(s, s.procs[t.pid]);
    TakePoolLocal(s, t);
    forall q | q in s.procs && q != t.pid ensures Apart(b, s.procs[q]) && Apart(s.procs[q], b) {
      TakePoolApart(s, t, q);
    }
    Gain(s, Apply(s, t), t.pid);
  }

  lemma SkipBusy(s: State, a: Proc, b: Proc)
    requires Local(s, a) && a.phase.Locking? && b == a.(phase := Reading, todo := a.todo[1..], saw := b.saw)
    ensures Local(s, b)
  {
    assert a.todo == [a.todo[0]] + b.todo;
  }

  lemma LockRetired(s: State, a: Proc, b: Proc)
    requires Local(s, a) && a.phase.Locking? && a.slots <= a.todo[0]
    requires b == a.(phase := Retiring, held := a.held + {a.todo[0]}, retired := a.retired + [a.todo[0]])
    ensures Local(s, b)
  {
    assert a.todo == [a.todo[0]] + a.todo[1..];
  }

  lemma LockCandidate(s: State, a: Proc, b: Proc, c: Candidate)
    requires Local(s, a) && a.phase.Locking? && c.index == a.todo[0] < a.slots
    requires c.rank == 0 ==> Owns(s, c.index, a.worktree)
    requires b == a.(phase := Reading, held := a.held + {c.index}, todo := a.todo[1..], cands := a.cands + [c],
                     saw := b.saw)
    ensures Local(s, b)
  {
    assert a.todo == [c.index] + b.todo && c in b.cands;
    forall j | j in b.held ensures j in b.retired || exists c | c in b.cands :: c.index == j {
      if j != c.index && j !in a.retired {
        var d :| d in a.cands && d.index == j;
        assert d in b.cands;
      }
    }
  }

  lemma TryTargetLocal(s: State, t: Step)
    requires Inv(s) && t.TryTarget? && Enabled(s, t)
    ensures Local(s, Apply(s, t).procs[t.pid])
  {
    var a, b := s.procs[t.pid], Apply(s, t).procs[t.pid];
    assert Local(s, a);
    if !TargetFree(s, a.todo[0]) {
      SkipBusy(s, a, b);
    } else if a.todo[0] < a.slots {
      LockCandidate(s, a, b, Of(a, a.phase.seen, t.alive, a.todo[0]));
    } else {
      LockRetired(s, a, b);
    }
  }

  /** A lock that was free gives no other process cause to object. */
  lemma TryTargetApart(s: State, t: Step, q: Pid)
    requires Exclusive(s) && t.TryTarget? && Enabled(s, t) && q in s.procs && q != t.pid
    ensures var b := Apply(s, t).procs[t.pid];
            Apart(b, s.procs[q]) && Apart(s.procs[q], b)
  {
    assert Apart(s.procs[t.pid], s.procs[q]) && Apart(s.procs[q], s.procs[t.pid]);
  }

  lemma KeepTryTarget(s: State, t: Step)
    requires Inv(s) && t.TryTarget? && Enabled(s, t)
    ensures Inv(Apply(s, t))
  {
    var b := Apply(s, t).procs[t.pid];
    TryTargetLocal(s, t);
    SameLocal(s, Apply(s, t), b);
    forall q | q in s.procs && q != t.pid ensures Apart(b, s.procs[q]) && Apart(s.procs[q], b) {
      TryTargetApart(s, t, q);
    }
    Gain(s, Apply(s, t), t.pid);
  }

  lemma KeepFork(s: State, t: Step)
    requires Inv(s) && t.Fork? && Enabled(s, t)
    ensures Inv(Apply(s, t))
  {
    var a := s.procs[t.pid];
    assert Local(s, a);
    forall q | q in s.procs && q != t.child ensures Apart(a, s.procs[q]) && Apart(s.procs[q], a) {
      assert q != t.pid ==> Apart(a, s.procs[q]) && Apart(s.procs[q], a);
    }
    Gain(s, Apply(s, t), t.child);
  }

  lemma KeepDie(s: State, t: Step)
    requires Inv(s) && t.Die? && Enabled(s, t)
    ensures Inv(Apply(s, t))
  {
    Leave(s, Apply(s, t), t.pid);
  }

  lemma ReadOwn(s: State, t: Step)
    requires Contents(s) && Enabled(s, t) && (t.List? || t.ReadMeta?) && Local(s, s.procs[t.pid])
    ensures OwnStep(s, Apply(s, t), t.pid)
  {
  }

  lemma RetireOwn(s: State, t: Step)
    requires Contents(s) && Enabled(s, t) && t.UnlinkRetired? && Local(s, s.procs[t.pid])
    ensures OwnStep(s, Apply(s, t), t.pid)
  {
  }

  lemma ChooseOwn(s: State, t: Step)
    requires Contents(s) && Enabled(s, t) && (t.Choose? || t.Invalidate?) && Local(s, s.procs[t.pid])
    ensures OwnStep(s, Apply(s, t), t.pid)
  {
  }

  lemma DropOwn(s: State, t: Step)
    requires Contents(s) && Enabled(s, t) && (t.DropUnused? || t.ReleasePool?) && Local(s, s.procs[t.pid])
    ensures OwnStep(s, Apply(s, t), t.pid)
  {
    var a := s.procs[t.pid];
    if t.ReleasePool? && a.chosen.rank == 0 && a.retired == [] {
      assert a.chosen.index in s.meta;
    }
  }

  lemma WipeSomeOwn(s: State, t: Step)
    requires Contents(s) && Enabled(s, t) && t.WipeSome? && Local(s, s.procs[t.pid])
    ensures OwnStep(s, Apply(s, t), t.pid)
  {
    assert s.procs[t.pid].wipes[0] in s.procs[t.pid].wipes;
  }

  lemma WipeOwn(s: State, t: Step)
    requires Contents(s) && Enabled(s, t) && t.WipeDone? && Local(s, s.procs[t.pid])
    ensures OwnStep(s, Apply(s, t), t.pid)
  {
    assert s.procs[t.pid].wipes[0] in s.procs[t.pid].wipes;
  }

  lemma PublishOwn(s: State, t: Step)
    requires Contents(s) && Enabled(s, t) && (t.MakeDir? || t.WriteMeta?) && Local(s, s.procs[t.pid])
    ensures OwnStep(s, Apply(s, t), t.pid)
  {
  }

  lemma ReturnOwn(s: State, t: Step)
    requires Contents(s) && Enabled(s, t) && (t.CloseRetired? || t.Return?) && Local(s, s.procs[t.pid])
    ensures OwnStep(s, Apply(s, t), t.pid)
  {
  }

  lemma LeaseOwn(s: State, t: Step)
    requires Contents(s) && Enabled(s, t) && (t.WriteFile? || t.DeleteFiles? || t.CloseTarget?)
    requires Local(s, s.procs[t.pid])
    ensures OwnStep(s, Apply(s, t), t.pid)
  {
  }

  lemma RaiseOwn(s: State, t: Step)
    requires Contents(s) && Enabled(s, t) && t.Raise? && Local(s, s.procs[t.pid])
    ensures OwnStep(s, Apply(s, t), t.pid)
  {
  }

  lemma UnwindOwn(s: State, t: Step)
    requires Contents(s) && Enabled(s, t) && (t.UnwindClose? || t.UnwindPool?) && Local(s, s.procs[t.pid])
    ensures OwnStep(s, Apply(s, t), t.pid)
  {
  }

  /** All steps but those that start or end a process or take a lock. */
  lemma KeepOwn(s: State, t: Step)
    requires Inv(s) && Enabled(s, t)
    requires !t.Launch? && !t.TakeWork? && !t.TakePool? && !t.TryTarget? && !t.Fork? && !t.Die?
    ensures Inv(Apply(s, t))
  {
    assert Local(s, s.procs[t.pid]);
    OwnStepOf(s, t);
    Advance(s, Apply(s, t), t.pid);
  }

  lemma OwnStepOf(s: State, t: Step)
    requires Contents(s) && Enabled(s, t)
    requires !t.Launch? && !t.TakeWork? && !t.TakePool? && !t.TryTarget? && !t.Fork? && !t.Die?
    requires Local(s, s.procs[t.pid])
    ensures OwnStep(s, Apply(s, t), t.pid)
  {
    if t.List? || t.ReadMeta? { ReadOwn(s, t); }
    else if t.UnlinkRetired? { RetireOwn(s, t); }
    else if t.Choose? || t.Invalidate? { ChooseOwn(s, t); }
    else if t.DropUnused? || t.ReleasePool? { DropOwn(s, t); }
    else if t.WipeSome? { WipeSomeOwn(s, t); }
    else if t.WipeDone? { WipeOwn(s, t); }
    else if t.MakeDir? || t.WriteMeta? { PublishOwn(s, t); }
    else if t.CloseRetired? || t.Return? { ReturnOwn(s, t); }
    else if t.WriteFile? || t.DeleteFiles? || t.CloseTarget? { LeaseOwn(s, t); }
    else if t.Raise? { RaiseOwn(s, t); }
    else { UnwindOwn(s, t); }
  }

  lemma KeepStep(s: State, t: Step)
    requires Inv(s) && Enabled(s, t)
    ensures Inv(Apply(s, t))
  {
    if t.Launch? { KeepLaunch(s, t); }
    else if t.TakeWork? { KeepTakeWork(s, t); }
    else if t.TakePool? { KeepTakePool(s, t); }
    else if t.TryTarget? { KeepTryTarget(s, t); }
    else if t.Fork? { KeepFork(s, t); }
    else if t.Die? { KeepDie(s, t); }
    else { KeepOwn(s, t); }
  }

  lemma {:induction false} KeepRun(s: State, trace: seq<Step>, end: State)
    requires Inv(s) && Run(s, trace, end)
    ensures Inv(end)
    decreases |trace|
  {
    if trace != [] {
      KeepStep(s, trace[0]);
      KeepRun(Apply(s, trace[0]), trace[1..], end);
    }
  }
}
