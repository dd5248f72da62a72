/**
 What an acquisition does with the slots it finds: which one it takes, which ones
 it retires, and what a lease is given.
 */
module BuildLeaseChoice {
  import opened Options
  import opened BuildLease
  import opened BuildLeaseSafety
  import opened BuildLeaseTheorems

  // ---------------------------------------------------------------- classes of slots

  predicate Own(r: Read, w: Worktree) {
    r.seen.Some? && r.seen.value.worktree == w
  }

  predicate Unregistered(r: Read) {
    r.seen.None?
  }

  /** Registered to a worktree that no longer exists. */
  predicate Orphaned(r: Read, w: Worktree) {
    r.seen.Some? && r.seen.value.worktree != w && !r.alive
  }

  predicate Foreign(r: Read, w: Worktree) {
    r.seen.Some? && r.seen.value.worktree != w && r.alive
  }

  predicate SameClass(a: Read, b: Read, w: Worktree) {
    || (Own(a, w) && Own(b, w)) || (Unregistered(a) && Unregistered(b))
    || (Orphaned(a, w) && Orphaned(b, w)) || (Foreign(a, w) && Foreign(b, w))
  }

  // ---------------------------------------------------------------- the history of a scan

  predicate Scanning(phase: Phase) {
    phase.Reading? || phase.Locking? || phase.Retiring?
  }

  /** The slots still ahead of a scan. */
  function Ahead(p: Proc): seq<nat> {
    if p.phase.Retiring? && p.todo != [] then p.todo[1..] else p.todo
  }

  /** Candidates and history describe the same locked slots, and no listed slot is forgotten. */
  ghost predicate Noted(p: Proc) {
    && (forall c | c in p.cands ::
          c.index in p.saw.locked && c == Of(p, p.saw.locked[c.index].seen, p.saw.locked[c.index].alive, c.index))
    && (forall i | i in p.saw.locked :: i < p.slots && exists c | c in p.cands :: c.index == i)
    && (forall i: nat | i < p.slots || i in p.saw.found ::
          i in Ahead(p) || i in p.saw.locked || i in p.retired || i in p.saw.busy)
    && (forall i | i in p.retired :: i in p.saw.found && p.slots <= i)
    && (forall i | i in p.todo :: i < p.slots || i in p.saw.found)
  }

  predicate Chosen(phase: Phase) {
    phase.Invalidating? || phase.Dropping? || phase.Wiping? || phase.Making? || phase.Registering? || phase.Returning?
  }

  /** The slot taken was locked in the scan, and rank 0 means that it was the worktree's own. */
  ghost predicate ChoiceNoted(p: Proc) {
    p.chosen.index in p.saw.locked && (p.chosen.rank == 0 <==> Own(p.saw.locked[p.chosen.index], p.worktree))
  }

  ghost predicate NotedBy(p: Proc) {
    (Scanning(p.phase) ==> Noted(p)) && (Chosen(p.phase) ==> ChoiceNoted(p))
  }

  ghost predicate AllNoted(s: State) {
    forall q | q in s.procs :: NotedBy(s.procs[q])
  }

  lemma ListNotes(s: State, t: Step)
    requires Enabled(s, t) && t.List? && Local(s, s.procs[t.pid])
    ensures Noted(Apply(s, t).procs[t.pid])
  {
  }

  lemma ReadNotes(s: State, t: Step)
    requires Enabled(s, t) && (t.ReadMeta? || t.UnlinkRetired?) && Noted(s.procs[t.pid])
    ensures Noted(Apply(s, t).procs[t.pid])
  {
    var p, p' := s.procs[t.pid], Apply(s, t).procs[t.pid];
    assert forall i | i in p'.todo :: i in p.todo;
  }

  lemma SkipNotes(p: Proc, p': Proc)
    requires p.phase.Locking? && p.todo != [] && Noted(p)
    requires p' == p.(phase := Reading, todo := p.todo[1..], saw := p.saw.(busy := p.saw.busy + {p.todo[0]}))
    ensures Noted(p')
  {
    assert p.todo == [p.todo[0]] + p'.todo;
  }

  lemma RetireNotes(p: Proc, p': Proc)
    requires p.phase.Locking? && p.todo != [] && Noted(p) && p.slots <= p.todo[0]
    requires p' == p.(phase := Retiring, held := p.held + {p.todo[0]}, retired := p.retired + [p.todo[0]])
    ensures Noted(p')
  {
    assert p.todo == [p.todo[0]] + p.todo[1..];
  }

  lemma LockNotes(p: Proc, p': Proc, alive: bool)
    requires p.phase.Locking? && p.todo != [] && Noted(p) && p.todo[0] < p.slots && p.todo[0] !in p.saw.locked
    requires var i := p.todo[0];
             p' == p.(phase := Reading, held := p.held + {i}, todo := p.todo[1..],
                      cands := p.cands + [Of(p, p.phase.seen, alive, i)],
                      saw := p.saw.(locked := p.saw.locked[i := Read(p.phase.seen, alive)]))
    ensures Noted(p')
  {
    var i := p.todo[0];
    assert p.todo == [i] + p'.todo;
    assert Of(p, p.phase.seen, alive, i) in p'.cands;
    forall k | k in p'.saw.locked ensures k < p'.slots && exists c | c in p'.cands :: c.index == k {
      if k != i {
        var c :| c in p.cands && c.index == k;
        assert c in p'.cands;
      }
    }
  }

  lemma TryNotes(s: State, t: Step)
    requires Enabled(s, t) && t.TryTarget? && Noted(s.procs[t.pid]) && Local(s, s.procs[t.pid])
    ensures Noted(Apply(s, t).procs[t.pid])
  {
    var p, p' := s.procs[t.pid], Apply(s, t).procs[t.pid];
    if !TargetFree(s, p.todo[0]) {
      SkipNotes(p, p');
    } else if p.todo[0] >= p.slots {
      RetireNotes(p, p');
    } else {
      LockedIsHeld(s, p);
      LockNotes(p, p', t.alive);
    }
  }

  /** A slot already locked in this scan is not ahead of it. */
  lemma LockedIsHeld(s: State, p: Proc)
    requires p.phase.Locking? && Local(s, p) && Noted(p)
    ensures p.todo[0] !in p.saw.locked
  {
    assert forall c | c in p.cands :: c.index in p.held;
  }

  lemma KeepNoted(s: State, t: Step)
    requires Inv(s) && AllNoted(s) && Enabled(s, t)
    ensures AllNoted(Apply(s, t))
  {
    forall q | q in Apply(s, t).procs ensures NotedBy(Apply(s, t).procs[q]) {
      Untouched(s, t, q);
      if q == t.pid {
        KeepNotedBy(s, t, Apply(s, t).procs[q]);
      }
    }
  }

  lemma NotedEither(p: Proc)
    requires Scanning(p.phase) ==> Noted(p)
    requires Chosen(p.phase) ==> ChoiceNoted(p)
    ensures NotedBy(p)
  {
  }

  lemma KeepNotedBy(s: State, t: Step, p': Proc)
    requires Inv(s) && AllNoted(s) && Enabled(s, t) && t.pid in Apply(s, t).procs && p' == Apply(s, t).procs[t.pid]
    ensures NotedBy(p')
  {
    if Scanning(p'.phase) {
      ScanNotes(s, t);
    }
    if Chosen(p'.phase) {
      ChosenNotes(s, t);
    }
    NotedEither(p');
  }

  lemma ChosenNotes(s: State, t: Step)
    requires Inv(s) && AllNoted(s) && Enabled(s, t) && t.pid in Apply(s, t).procs
    requires Chosen(Apply(s, t).procs[t.pid].phase)
    ensures ChoiceNoted(Apply(s, t).procs[t.pid])
  {
    ChosenSteps(s, t);
    assert NotedBy(s.procs[t.pid]);
    if t.Choose? {
      ChooseNotes(s, t);
    }
  }

  lemma ScanNotes(s: State, t: Step)
    requires Inv(s) && AllNoted(s) && Enabled(s, t) && t.pid in Apply(s, t).procs
    requires Scanning(Apply(s, t).procs[t.pid].phase)
    ensures Noted(Apply(s, t).procs[t.pid])
  {
    ScanningSteps(s, t);
    assert Local(s, s.procs[t.pid]) && NotedBy(s.procs[t.pid]);
    if t.List? {
      ListNotes(s, t);
    } else if t.TryTarget? {
      TryNotes(s, t);
    } else if t.ReadMeta? || t.UnlinkRetired? {
      ReadNotes(s, t);
    }
  }

  /** Only these steps leave a process scanning. */
  lemma ScanningSteps(s: State, t: Step)
    requires Enabled(s, t) && t.pid in Apply(s, t).procs && Scanning(Apply(s, t).procs[t.pid].phase)
    ensures t.pid in s.procs
    ensures t.List? || ((t.ReadMeta? || t.TryTarget? || t.UnlinkRetired?) && Scanning(s.procs[t.pid].phase))
  {
  }

  lemma ChooseNotes(s: State, t: Step)
    requires Enabled(s, t) && t.Choose? && Noted(s.procs[t.pid])
    ensures ChoiceNoted(Apply(s, t).procs[t.pid])
  {
  }

  /** From its choice on a run keeps what it noted. */
  lemma ChosenSteps(s: State, t: Step)
    requires Enabled(s, t) && t.pid in Apply(s, t).procs && Chosen(Apply(s, t).procs[t.pid].phase)
    ensures t.pid in s.procs
    ensures var p, p' := s.procs[t.pid], Apply(s, t).procs[t.pid];
            if t.Choose? then p.phase.Reading?
            else Chosen(p.phase) && p'.chosen == p.chosen && p'.saw == p.saw && p'.worktree == p.worktree
  {
  }

  lemma {:induction false} NotedRun(s: State, trace: seq<Step>, end: State)
    requires Inv(s) && AllNoted(s) && Run(s, trace, end)
    ensures AllNoted(end)
    decreases |trace|
  {
    if trace != [] {
      KeepStep(s, trace[0]);
      KeepNoted(s, trace[0]);
      NotedRun(Apply(s, trace[0]), trace[1..], end);
    }
  }

  lemma ReachableNoted(s: State)
    requires Reachable(s)
    ensures AllNoted(s)
  {
    var trace :| Run(EMPTY, trace, s);
    NotedRun(EMPTY, trace, s);
  }

  // ---------------------------------------------------------------- theorems

  /** Which slot is taken. Of the slots locked below the pool size: an own one if there is one, else
      an unregistered one, else one whose worktree is gone; a living worktree loses its slot only if
      all of them belong to living worktrees. Within its class the slot taken was used least
      recently, and has the lowest index among those. */
  lemma LeastRecentlyUsed(s: State, pid: Pid, c: Candidate, i: nat)
    requires Reachable(s) && Enabled(s, Choose(pid, c)) && i in s.procs[pid].saw.locked
    ensures var locked, w := s.procs[pid].saw.locked, s.procs[pid].worktree;
            && c.index in locked
            && (Own(locked[i], w) ==> Own(locked[c.index], w))
            && (Unregistered(locked[i]) ==> Own(locked[c.index], w) || Unregistered(locked[c.index]))
            && (Orphaned(locked[i], w) ==> !Foreign(locked[c.index], w))
            && (SameClass(locked[i], locked[c.index], w) && locked[i].seen.Some? ==>
                  locked[c.index].seen.value.lastUsed <= locked[i].seen.value.lastUsed)
            && (SameClass(locked[i], locked[c.index], w) && locked[i].seen == locked[c.index].seen ==> c.index <= i)
  {
    ReachableNoted(s);
    var p := s.procs[pid];
    assert NotedBy(p);
    var d :| d in p.cands && d.index == i;
    assert AtMost(c, d);
  }

  /** The scan leaves nothing out: each slot of the pool, and each slot directory listed, was locked,
      retired, or held by somebody when it was tried; and it retires only surplus slots. */
  lemma ScanIsComplete(s: State, pid: Pid, c: Candidate, i: nat)
    requires Reachable(s) && Enabled(s, Choose(pid, c))
    ensures var p := s.procs[pid];
            && (i < p.slots || i in p.saw.found ==> i in p.saw.locked || i in p.retired || i in p.saw.busy)
            && (i in p.retired ==> p.slots <= i && i in p.saw.found && i in p.held)
            && (i in p.saw.locked ==> i < p.slots && i in p.held)
  {
    ReachableNoted(s);
    ReachableInv(s);
    var p := s.procs[pid];
    assert NotedBy(p) && Local(s, p);
    if i in p.saw.locked {
      var d :| d in p.cands && d.index == i;
    }
  }

  /** A slot is skipped only if another process holds it, and what is noted of a locked one is what
      its metadata said when it was read. */
  lemma SkippedIsHeld(s: State, t: Step, i: nat)
    requires Reachable(s) && t.TryTarget? && Enabled(s, t)
    ensures var p, p' := s.procs[t.pid], Apply(s, t).procs[t.pid];
            && (i in p'.saw.busy && i !in p.saw.busy ==> exists q :: q in s.procs && q != t.pid && i in s.procs[q].held)
            && (i in p'.saw.locked && (i !in p.saw.locked || p'.saw.locked[i] != p.saw.locked[i]) ==>
                  p'.saw.locked[i] == Read(p.phase.seen, t.alive) && i in p'.held)
  {
    ReachableInv(s);
    var p := s.procs[t.pid];
    assert Local(s, p);
    if !TargetFree(s, p.todo[0]) {
      var q :| q in s.procs && p.todo[0] in s.procs[q].held;
    }
  }

  /** The scan reads what is registered at that moment, before it tries the lock. */
  lemma ReadsMetadata(s: State, t: Step)
    requires t.ReadMeta? && Enabled(s, t)
    ensures var i, p' := s.procs[t.pid].todo[0], Apply(s, t).procs[t.pid];
            && p'.phase.Locking? && p'.todo == s.procs[t.pid].todo
            && (p'.phase.seen.Some? <==> i in s.meta) && (i in s.meta ==> p'.phase.seen.value == s.meta[i])
  {
  }

  /** While slots are removed the pool lock is free for others, and only the locks needed are held. */
  lemma RemovalHoldsOnlyTargets(s: State, pid: Pid)
    requires Reachable(s) && pid in s.procs && s.procs[pid].phase.Wiping?
    ensures var p := s.procs[pid];
            !HoldsPool(p) && forall i | i in p.held :: i == p.chosen.index || i in p.retired
  {
    ReachableInv(s);
    assert Local(s, s.procs[pid]);
  }

  /** A worktree's own slot is reused as it is: it stays registered all the way, and is not removed. */
  lemma OwnSlotIsKept(s: State, pid: Pid)
    requires Reachable(s) && pid in s.procs && Chosen(s.procs[pid].phase)
    ensures var p := s.procs[pid];
            && p.chosen.index in p.saw.locked
            && (Own(p.saw.locked[p.chosen.index], p.worktree) ==>
                  && !p.phase.Invalidating? && Owns(s, p.chosen.index, p.worktree)
                  && (p.phase.Wiping? ==> p.chosen.index !in p.wipes))
  {
    ReachableNoted(s);
    ReachableInv(s);
    assert NotedBy(s.procs[pid]) && Local(s, s.procs[pid]);
  }

  /** A retired slot is unregistered, and gone from the disk, before its lock is given up. */
  lemma RetiredSlotsAreGone(s: State, pid: Pid, i: nat)
    requires Reachable(s) && Enabled(s, CloseRetired(pid, i))
    ensures i !in s.meta && i !in s.dirs && i !in s.torn && forall f | f in s.files :: f.slot != i
  {
    ReachableInv(s);
    assert Local(s, s.procs[pid]);
  }

  /** What an acquisition hands out is a slot of the pool, exists, and is registered to the worktree. */
  lemma LeaseIsReady(s: State, pid: Pid)
    requires Reachable(s) && Enabled(s, Return(pid))
    ensures var i := s.procs[pid].chosen.index;
            i in s.dirs && i in s.meta && s.meta[i].worktree == s.procs[pid].worktree && i < s.procs[pid].slots
  {
    ReachableInv(s);
    assert Local(s, s.procs[pid]);
  }

  /** Publishing stamps the slot with the time of the lease and touches no other registration. */
  lemma LeaseIsStamped(s: State, t: Step)
    requires t.WriteMeta? && Enabled(s, t)
    ensures var i, s' := s.procs[t.pid].chosen.index, Apply(s, t);
            && i in s'.meta && s'.meta[i].lastUsed == t.now && s'.meta[i].worktree == s.procs[t.pid].worktree
            && forall k | k != i :: (k in s'.meta <==> k in s.meta) && (k in s.meta ==> s'.meta[k] == s.meta[k])
  {
  }

  /** A lease outlives the runner as long as a process it started lives: both locks stay taken. */
  lemma LeaseOutlivesRunner(s: State, pid: Pid, child: Pid)
    requires Reachable(s) && Enabled(s, Fork(pid, child))
    ensures var s1, p := Apply(s, Fork(pid, child)), s.procs[pid];
            && Enabled(s1, Die(pid))
            && var s2 := Apply(s1, Die(pid));
               !TargetFree(s2, p.chosen.index) && !WorkFree(s2, p.worktree) && child in s2.procs && pid !in s2.procs
  {
    ReachableInv(s);
    var p := s.procs[pid];
    assert Local(s, p);
    var s2 := Apply(Apply(s, Fork(pid, child)), Die(pid));
    assert s2.procs[child] == p && p.chosen.index in p.held;
    assert HoldsWork(s2.procs[child], p.worktree);
  }

  /** Death releases every lock of the process and leaves the disk as it is. */
  lemma DeathLeavesTheDisk(s: State, pid: Pid)
    requires Enabled(s, Die(pid))
    ensures var s' := Apply(s, Die(pid));
            && s'.meta == s.meta && s'.dirs == s.dirs && s'.files == s.files && s'.torn == s.torn
            && s'.procs.Keys == s.procs.Keys - {pid} && forall q | q in s'.procs :: s'.procs[q] == s.procs[q]
  {
  }

  /** What a lease writes carries its worktree and lies in its slot. */
  lemma WritesAreTagged(s: State, t: Step)
    requires t.WriteFile? && Enabled(s, t)
    ensures var p, s' := s.procs[t.pid], Apply(s, t);
            && s'.files == s.files + {File(p.chosen.index, t.name, p.worktree)}
            && s'.dirs == s.dirs + {p.chosen.index}
            && s'.meta == s.meta && s'.torn == s.torn && s'.procs == s.procs
  {
  }

  /** A lease deletes what it likes of its own slot, up to the directory itself, and nothing else. */
  lemma DeletesItsOwn(s: State, t: Step)
    requires t.DeleteFiles? && Enabled(s, t)
    ensures var i, s' := s.procs[t.pid].chosen.index, Apply(s, t);
            && s'.files == s.files - t.gone && (forall f | f in s.files && f !in s'.files :: f.slot == i)
            && s'.dirs == (if t.directory then s.dirs - {i} else s.dirs)
            && (t.directory ==> forall f | f in s'.files :: f.slot != i)
            && s'.meta == s.meta && s'.torn == s.torn && s'.procs == s.procs
  {
  }

  /** A failing acquisition closes one descriptor after the other, and ends when it has none left. */
  lemma UnwindingReleases(s: State, pid: Pid, i: nat)
    requires pid in s.procs && s.procs[pid].phase.Unwinding?
    ensures i in s.procs[pid].held ==>
              && Enabled(s, UnwindClose(pid, i))
              && Apply(s, UnwindClose(pid, i)).procs[pid] == s.procs[pid].(held := s.procs[pid].held - {i})
    ensures s.procs[pid].held == {} ==>
              Enabled(s, UnwindPool(pid)) && Apply(s, UnwindPool(pid)).procs[pid].phase.Raised?
  {
  }

  /** A removal that has begun is torn until it is complete, and then nothing is left. */
  lemma RemovalIsTorn(s: State, t: Step)
    requires (t.WipeSome? || t.WipeDone?) && Enabled(s, t)
    ensures var i, s' := s.procs[t.pid].wipes[0], Apply(s, t);
            && (t.WipeSome? ==> i in s'.torn && s'.files == s.files - t.gone && s'.dirs == s.dirs)
            && (t.WipeDone? ==> Removed(s', i) && forall f | f in s.files && f.slot != i :: f in s'.files)
            && s'.meta == s.meta
  {
  }

  /** Nothing protects a process: it may die anywhere, an acquisition may raise from anywhere between
      taking the pool lock and returning, and a removal may be cut short with any part of it done. */
  lemma AnythingMayFail(s: State, pid: Pid, gone: set<File>)
    requires pid in s.procs
    ensures Enabled(s, Die(pid))
    ensures var phase := s.procs[pid].phase;
            (|| phase.Listing? || phase.Reading? || phase.Locking? || phase.Retiring? || phase.Invalidating?
             || phase.Dropping? || phase.Wiping? || phase.Making? || phase.Registering? || phase.Returning?)
            ==> Enabled(s, Raise(pid))
    ensures s.procs[pid].phase.Wiping? && s.procs[pid].wipes != []
            && (forall f | f in gone :: f.slot == s.procs[pid].wipes[0])
            ==> Enabled(s, WipeSome(pid, gone))
  {
  }

  /** A lease lets its commands start processes, write and delete as they like. */
  lemma LeaseIsFree(s: State, pid: Pid, child: Pid, name: string, gone: set<File>)
    requires pid in s.procs && s.procs[pid].phase.Leased? && child !in s.procs
    requires forall f | f in gone :: f.slot == s.procs[pid].chosen.index
    ensures Enabled(s, Fork(pid, child)) && Enabled(s, WriteFile(pid, name))
    ensures Enabled(s, DeleteFiles(pid, gone, false)) && Enabled(s, CloseTarget(pid))
  {
  }
}
