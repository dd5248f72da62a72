/**
 The build-slot lease protocol of the whole-command build runner, as a step
 relation over the files and descriptors that concurrent runs share.

 A lock is an open file description; it is free exactly when no process holds a
 descriptor of it, so the holders of a lock are read off the processes. Every
 step is one system call or one critical statement of `acquire_slot` or `main`,
 any process may die between two steps, and a child shares both descriptors of
 the lease it inherited.
 */
module BuildLease {
  import opened Options

  type Pid = nat
  type Worktree = string

  /** The contents of slot-i.json. */
  datatype Meta = Meta(worktree: Worktree, lastUsed: int)

  /** A file below slot-`slot`, tagged with the worktree whose lease wrote it. */
  datatype File = File(slot: nat, name: string, writer: Worktree)

  /** One entry of `candidates`; Python compares these tuples lexicographically. */
  datatype Candidate = Candidate(rank: nat, lastUsed: int, index: nat)

  predicate AtMost(a: Candidate, b: Candidate) {
    a.rank < b.rank
    || (a.rank == b.rank && (a.lastUsed < b.lastUsed
                             || (a.lastUsed == b.lastUsed && a.index <= b.index)))
  }

  /** History of one slot's turn in a scan: the metadata read, and whether the worktree it names exists. */
  datatype Read = Read(seen: Option<Meta>, alive: bool)

  /** History of a scan: the slot directories listed, what was read of the slots locked below the
      pool size, and the slots skipped because somebody held them. */
  datatype Scanned = Scanned(found: set<nat>, locked: map<nat, Read>, busy: set<nat>)

  /** Where a process stands; each constructor precedes the statement it names. */
  datatype Phase =
    | Boot                          // before taking the worktree lock
    | Opening                       // before trying the pool lock
    | Listing                       // before computing the slot indices
    | Reading                       // head of the scan, before reading metadata
    | Locking(seen: Option<Meta>)   // metadata read, before trying the target lock
    | Retiring                      // surplus slot locked, before unlinking its metadata
    | Invalidating                  // slot chosen, before unlinking its metadata
    | Dropping                      // before closing unused locks and the pool lock
    | Wiping                        // removing slots outside the pool lock
    | Making                        // before creating the slot directory
    | Registering                   // before publishing metadata
    | Returning                     // `finally` of a successful acquisition
    | Leased                        // the lease is inherited and in use
    | Ending                        // target descriptor closed, worktree still open
    | Unwinding(pool: bool)         // `finally` of a failing acquisition
    | Raised                        // acquisition failed, worktree still open

  datatype Proc = Proc(
    phase: Phase, run: nat, worktree: Worktree, slots: nat,
    held: set<nat>,           // target descriptors, by slot
    todo: seq<nat>,           // indices still to scan
    cands: seq<Candidate>,
    retired: seq<nat>,
    chosen: Candidate,
    wipes: seq<nat>,          // slots still to remove
    saw: Scanned)

  datatype State = State(
    meta: map<nat, Meta>,
    dirs: set<nat>,
    files: set<File>,
    torn: set<nat>,           // slots whose removal began and has not completed
    nextRun: nat,
    procs: map<Pid, Proc>)

  const EMPTY := State(map[], {}, {}, {}, 0, map[])

  // ---------------------------------------------------------------- locks

  predicate HoldsWork(p: Proc, w: Worktree) {
    !p.phase.Boot? && p.worktree == w
  }

  predicate HoldsPool(p: Proc) {
    match p.phase
    case Listing | Reading | Locking(_) | Retiring | Invalidating | Dropping => true
    case Unwinding(pool) => pool
    case _ => false
  }

  predicate WorkFree(s: State, w: Worktree) {
    forall q | q in s.procs :: !HoldsWork(s.procs[q], w)
  }

  predicate PoolFree(s: State) {
    forall q | q in s.procs :: !HoldsPool(s.procs[q])
  }

  predicate TargetFree(s: State, i: nat) {
    forall q | q in s.procs :: i !in s.procs[q].held
  }

  /** Whether the acquisition may still raise from here through its `finally`. */
  predicate InTry(p: Proc) {
    match p.phase
    case Listing | Reading | Locking(_) | Retiring | Invalidating | Dropping => true
    case Wiping | Making | Registering | Returning => true
    case _ => false
  }

  /** Processes that share a lease: the runner once acquired, and its descendants. */
  predicate Sharing(p: Proc) {
    p.phase.Leased? || p.phase.Ending?
  }

  // ---------------------------------------------------------------- steps

  datatype Step =
    | Launch(pid: Pid, worktree: Worktree, slots: nat)
    | TakeWork(pid: Pid)
    | TakePool(pid: Pid)
    | List(pid: Pid, todo: seq<nat>)
    | ReadMeta(pid: Pid)
    | TryTarget(pid: Pid, alive: bool)
    | UnlinkRetired(pid: Pid)
    | Choose(pid: Pid, chosen: Candidate)
    | Invalidate(pid: Pid)
    | DropUnused(pid: Pid, index: nat)
    | ReleasePool(pid: Pid)
    | WipeSome(pid: Pid, gone: set<File>)
    | WipeDone(pid: Pid)
    | MakeDir(pid: Pid)
    | WriteMeta(pid: Pid, now: int)
    | CloseRetired(pid: Pid, index: nat)
    | Return(pid: Pid)
    | Fork(pid: Pid, child: Pid)
    | WriteFile(pid: Pid, name: string)
    | DeleteFiles(pid: Pid, gone: set<File>, directory: bool)
    | CloseTarget(pid: Pid)
    | Raise(pid: Pid)
    | UnwindClose(pid: Pid, index: nat)
    | UnwindPool(pid: Pid)
    | Die(pid: Pid)

  predicate Sorted(xs: seq<nat>) {
    forall a, b | 0 <= a < b < |xs| :: xs[a] < xs[b]
  }

  /** `todo` is the sorted union of range(slots) and the slot directories found. */
  predicate Indices(todo: seq<nat>, slots: nat, dirs: set<nat>) {
    && Sorted(todo)
    && (forall i | i in todo :: i < slots || i in dirs)
    && (forall i | 0 <= i < slots :: i in todo)
    && (forall i | i in dirs :: i in todo)
  }

  /** Rank of a locked slot below the pool size, from the metadata read earlier. */
  function Rank(seen: Option<Meta>, worktree: Worktree, alive: bool): nat {
    match seen
    case None => 1
    case Some(m) => if m.worktree == worktree then 0 else if alive then 3 else 2
  }

  function Of(p: Proc, seen: Option<Meta>, alive: bool, index: nat): Candidate {
    Candidate(Rank(seen, p.worktree, alive), if seen.Some? then seen.value.lastUsed else 0, index)
  }

  predicate Enabled(s: State, t: Step) {
    if t.Launch? then t.pid !in s.procs && t.slots > 0
    else
      && t.pid in s.procs
      && var p := s.procs[t.pid];
         match t
         case TakeWork(_) => p.phase.Boot?
         case TakePool(_) => p.phase.Opening?
         case List(_, todo) => p.phase.Listing? && Indices(todo, p.slots, s.dirs)
         case ReadMeta(_) => p.phase.Reading? && p.todo != []
         case TryTarget(_, _) => p.phase.Locking? && p.todo != []
         case UnlinkRetired(_) => p.phase.Retiring? && p.todo != []
         case Choose(_, c) =>
           p.phase.Reading? && p.todo == [] && c in p.cands && forall d | d in p.cands :: AtMost(c, d)
         case Invalidate(_) => p.phase.Invalidating?
         case DropUnused(_, i) =>
           p.phase.Dropping? && i in p.held && i != p.chosen.index && i !in p.retired
         case ReleasePool(_) =>
           p.phase.Dropping? && forall i | i in p.held :: i == p.chosen.index || i in p.retired
         case WipeSome(_, gone) =>
           p.phase.Wiping? && p.wipes != [] && forall f | f in gone :: f.slot == p.wipes[0]
         case WipeDone(_) => p.phase.Wiping? && p.wipes != []
         case MakeDir(_) => p.phase.Making?
         case WriteMeta(_, _) => p.phase.Registering?
         case CloseRetired(_, i) => p.phase.Returning? && i in p.held && i != p.chosen.index
         case Return(_) => p.phase.Returning? && p.held == {p.chosen.index}
         case Fork(_, child) => p.phase.Leased? && child !in s.procs
         case WriteFile(_, _) => p.phase.Leased?
         case DeleteFiles(_, gone, directory) =>
           && p.phase.Leased?
           && (forall f | f in gone :: f.slot == p.chosen.index)
           && (directory ==> forall f | f in s.files && f.slot == p.chosen.index :: f in gone)
         case CloseTarget(_) => p.phase.Leased?
         case Raise(_) => InTry(p)
         case UnwindClose(_, i) => p.phase.Unwinding? && i in p.held
         case UnwindPool(_) => p.phase.Unwinding? && p.held == {}
         case Die(_) => true
  }

  function Put(s: State, pid: Pid, p: Proc): State {
    s.(procs := s.procs[pid := p])
  }

  /** The successor state; where the code branches on a lock, so does this. */
  function Apply(s: State, t: Step): State
    requires Enabled(s, t)
  {
    if t.Launch? then
      Put(s, t.pid, Proc(Boot, s.nextRun, t.worktree, t.slots, {}, [], [], [], Candidate(0, 0, 0), [],
                         Scanned({}, map[], {})))
      .(nextRun := s.nextRun + 1)
    else
      var p := s.procs[t.pid];
      match t
      case TakeWork(pid) =>
        if WorkFree(s, p.worktree) then Put(s, pid, p.(phase := Opening)) else s.(procs := s.procs - {pid})
      case TakePool(pid) =>
        Put(s, pid, p.(phase := if PoolFree(s) then Listing else Raised))
      case List(pid, todo) => Put(s, pid, p.(phase := Reading, todo := todo, saw := Scanned(s.dirs, map[], {})))
      case ReadMeta(pid) =>
        var i := p.todo[0];
        Put(s, pid, p.(phase := Locking(if i in s.meta then Some(s.meta[i]) else None)))
      case TryTarget(pid, alive) =>
        var i := p.todo[0];
        if !TargetFree(s, i) then
          Put(s, pid, p.(phase := Reading, todo := p.todo[1..], saw := p.saw.(busy := p.saw.busy + {i})))
        else if i >= p.slots then
          Put(s, pid, p.(phase := Retiring, held := p.held + {i}, retired := p.retired + [i]))
        else
          Put(s, pid, p.(phase := Reading, held := p.held + {i}, todo := p.todo[1..],
                         cands := p.cands + [Of(p, p.phase.seen, alive, i)],
                         saw := p.saw.(locked := p.saw.locked[i := Read(p.phase.seen, alive)])))
      case UnlinkRetired(pid) =>
        Put(s, pid, p.(phase := Reading, todo := p.todo[1..])).(meta := s.meta - {p.todo[0]})
      case Choose(pid, c) =>
        Put(s, pid, p.(phase := if c.rank == 0 then Dropping else Invalidating, chosen := c))
      case Invalidate(pid) =>
        Put(s, pid, p.(phase := Dropping)).(meta := s.meta - {p.chosen.index})
      case DropUnused(pid, i) => Put(s, pid, p.(held := p.held - {i}))
      case ReleasePool(pid) =>
        var wipes := p.retired + if p.chosen.rank == 0 then [] else [p.chosen.index];
        Put(s, pid, p.(phase := if wipes == [] then Making else Wiping, wipes := wipes))
      case WipeSome(pid, gone) => s.(files := s.files - gone, torn := s.torn + {p.wipes[0]})
      case WipeDone(pid) =>
        var i := p.wipes[0];
        Put(s, pid, p.(phase := if |p.wipes| == 1 then Making else Wiping, wipes := p.wipes[1..]))
        .(dirs := s.dirs - {i}, files := (set f | f in s.files && f.slot != i), torn := s.torn - {i})
      case MakeDir(pid) => Put(s, pid, p.(phase := Registering)).(dirs := s.dirs + {p.chosen.index})
      case WriteMeta(pid, now) =>
        Put(s, pid, p.(phase := Returning)).(meta := s.meta[p.chosen.index := Meta(p.worktree, now)])
      case CloseRetired(pid, i) => Put(s, pid, p.(held := p.held - {i}))
      case Return(pid) => Put(s, pid, p.(phase := Leased))
      case Fork(pid, child) => Put(s, child, p)
      case WriteFile(pid, name) =>
        s.(files := s.files + {File(p.chosen.index, name, p.worktree)}, dirs := s.dirs + {p.chosen.index})
      case DeleteFiles(pid, gone, directory) =>
        s.(files := s.files - gone, dirs := if directory then s.dirs - {p.chosen.index} else s.dirs)
      case CloseTarget(pid) => Put(s, pid, p.(phase := Ending, held := {}))
      case Raise(pid) => Put(s, pid, p.(phase := Unwinding(HoldsPool(p))))
      case UnwindClose(pid, i) => Put(s, pid, p.(held := p.held - {i}))
      case UnwindPool(pid) => Put(s, pid, p.(phase := Raised))
      case Die(pid) => s.(procs := s.procs - {pid})
  }

  /** `trace` is a run from `s` to `end`, interleaving any number of processes. */
  predicate Run(s: State, trace: seq<Step>, end: State)
    decreases |trace|
  {
    if trace == [] then s == end
    else Enabled(s, trace[0]) && Run(Apply(s, trace[0]), trace[1..], end)
  }

  ghost predicate Reachable(s: State) {
    exists trace :: Run(EMPTY, trace, s)
  }
}
