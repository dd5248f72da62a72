/**
 Scheduler and database pools together. Worker threads run cases concurrently:
 each enters the pool that its database mode selects, works, and leaves. The
 destructive reset of the fault pool is safe only because the scheduler admits
 one instance case at a time, so both are steps of one transition system.

 A step is one section under the pool's lock, or one statement outside it.
 */
module FaultRun {
  import opened Dispatch
  import opened DatabasePool

  /** Where a running case stands with respect to its `database` context. */
  datatype Phase =
    | Idle
    | Entering                                   // past the first postgres()
    | Checked(profile: Profile, before: Roles)   // past the postgres() of `disposable`
    | Based(profile: Profile, before: Roles)     // its baseline is there, before CREATE DATABASE
    | Granting(entry: Entry)                     // an empty database, before its grant
    | Using(entry: Entry)
    | Ending(entry: Entry, bodyOk: bool)         // in the `finally`, before DROP DATABASE
    | Dropped(entry: Entry, bodyOk: bool)        // the drop succeeded
    | Failing(entry: Entry)                      // the drop failed, before the error is recorded
    | Left

  datatype State = State(log: Log, phases: map<nat, Phase>, normal: Pool, fault: Pool)

  datatype Step =
    | Schedule(event: Event)
    | Begin(job: nat, start: StartEnv)                             // the first postgres() of `database`
    | Share(job: nat, profile: Profile, enter: EnterEnv)           // the locked section of a reusing case
    | Check(job: nat, profile: Profile, rolesOk: bool, start: StartEnv)
    | Prepare(job: nat, start: StartEnv, clone: CloneEnv)          // the locked `template`
    | MakeOwn(job: nat, clone: CloneEnv)                           // CREATE DATABASE
    | Grant(job: nat, ok: bool)
    | SeedCase(job: nat, profile: Profile, tenants: set<Tenant>, ok: bool)
    | Work(job: nat, roles: Roles)                                 // only cases change roles
    | Close(job: nat, bodyOk: bool)                                // the body ended
    | DropOwn(job: nat, ok: bool)                                  // DROP DATABASE
    | Record(job: nat, published: bool)                            // publish, then assign the error
    | Leave(job: nat, rolesOk: bool)                               // forget seeds, compare roles

  const INITIALLY := State(Empty, map[], INITIAL, INITIAL)

  function PhaseOf(s: State, j: nat): Phase {
    if j in s.phases then s.phases[j] else Idle
  }

  predicate Active(phase: Phase) {
    !phase.Idle? && !phase.Left?
  }

  /** From its first postgres() until it has left, a case uses its pool. */
  predicate InUse(s: State, j: nat) {
    Active(PhaseOf(s, j))
  }

  /** Pool choice follows the case's database mode. */
  function PoolOf(s: State, mode: Mode): Pool {
    if mode.Instance? then s.fault else s.normal
  }

  function With(s: State, mode: Mode, p: Pool, j: nat, phase: Phase): State {
    if mode.Instance? then s.(fault := p, phases := s.phases[j := phase])
    else s.(normal := p, phases := s.phases[j := phase])
  }

  /** The case has a database of its own or shares one. */
  predicate HasEntry(phase: Phase) {
    phase.Granting? || phase.Using? || phase.Ending? || phase.Dropped? || phase.Failing?
  }

  ghost predicate Enabled(jobs: seq<Job>, workers: nat, s: State, t: Step) {
    match t
    case Schedule(e) => Legal(jobs, workers, s.log, e) && (e.Finish? || e.Lost? ==> !InUse(s, e.job))
    case Begin(j, _) =>
      j < |jobs| && j in Running(s.log) && !jobs[j].mode.NoDatabase? && PhaseOf(s, j).Idle?
    case Share(j, _, _) => j < |jobs| && PhaseOf(s, j).Entering? && jobs[j].mode.Reuse?
    case Check(j, _, _, _) => j < |jobs| && PhaseOf(s, j).Entering? && !jobs[j].mode.Reuse?
    case Prepare(j, _, _) => j < |jobs| && PhaseOf(s, j).Checked?
    case MakeOwn(j, _) => j < |jobs| && PhaseOf(s, j).Based?
    case Grant(j, _) => j < |jobs| && PhaseOf(s, j).Granting?
    case SeedCase(j, _, _, _) => j < |jobs| && PhaseOf(s, j).Using?
    case Work(j, _) => j < |jobs| && PhaseOf(s, j).Using?
    case Close(j, _) => j < |jobs| && PhaseOf(s, j).Using?
    case DropOwn(j, _) => j < |jobs| && PhaseOf(s, j).Ending?
    case Record(j, _) => j < |jobs| && PhaseOf(s, j).Failing?
    case Leave(j, _) => j < |jobs| && PhaseOf(s, j).Dropped?
  }

  ghost function Apply(jobs: seq<Job>, workers: nat, s: State, t: Step): State
    requires Enabled(jobs, workers, s, t)
  {
    match t
    case Schedule(e) => s.(log := Then(s.log, e))
    case Begin(j, e) =>
      var r := Postgres(PoolOf(s, jobs[j].mode), e);
      With(s, jobs[j].mode, r.pool, j, if r.out.Ok? then Entering else Left)
    case Share(j, profile, e) =>
      var r := Provide(s.normal, profile, Reuse, e);
      With(s, jobs[j].mode, r.pool, j, if r.out.Ok? then Using(r.out.value) else Left)
    case Check(j, profile, rolesOk, e) =>
      var mode := jobs[j].mode;
      var p := PoolOf(s, mode);
      if mode.Instance? && !rolesOk then With(s, mode, p, j, Left)
      else
        var r := Postgres(p, e);
        if r.out.Ok? then With(s, mode, r.pool, j, Checked(profile, p.server.roles))
        else With(s, mode, Settled(r.pool, mode, false), j, Left)
    case Prepare(j, e, c) =>
      var mode, phase := jobs[j].mode, PhaseOf(s, j);
      var r := Base(PoolOf(s, mode), phase.profile, e, c);
      if r.out.Ok? then With(s, mode, r.pool, j, Based(phase.profile, phase.before))
      else With(s, mode, Settled(r.pool, mode, false), j, Left)
    case MakeOwn(j, c) =>
      var mode, phase := jobs[j].mode, PhaseOf(s, j);
      var r := Copied(PoolOf(s, mode), c);
      if !r.out.Ok? then With(s, mode, Settled(r.pool, mode, false), j, Left)
      else
        var entry := Entry(r.out.value, phase.before);
        With(s, mode, r.pool, j, if phase.profile == EMPTY_PROFILE then Granting(entry) else Using(entry))
    case Grant(j, ok) =>
      var entry := PhaseOf(s, j).entry;
      With(s, jobs[j].mode, PoolOf(s, jobs[j].mode), j, if ok then Using(entry) else Ending(entry, false))
    case SeedCase(j, profile, tenants, ok) =>
      var r := Seed(PoolOf(s, jobs[j].mode), PhaseOf(s, j).entry.name, profile, tenants, ok);
      With(s, jobs[j].mode, r.pool, j, PhaseOf(s, j))
    case Work(j, roles) =>
      var p := PoolOf(s, jobs[j].mode);
      With(s, jobs[j].mode, p.(server := p.server.(roles := roles)), j, PhaseOf(s, j))
    case Close(j, bodyOk) =>
      var mode := jobs[j].mode;
      With(s, mode, PoolOf(s, mode), j, if mode.Reuse? then Left else Ending(PhaseOf(s, j).entry, bodyOk))
    case DropOwn(j, ok) =>
      var mode, phase := jobs[j].mode, PhaseOf(s, j);
      if ok then With(s, mode, Removed(PoolOf(s, mode), phase.entry.name), j, Dropped(phase.entry, phase.bodyOk))
      else With(s, mode, PoolOf(s, mode), j, Failing(phase.entry))
    case Record(j, published) =>
      var mode := jobs[j].mode;
      With(s, mode, Settled(Recorded(PoolOf(s, mode), published), mode, false), j, Left)
    case Leave(j, rolesOk) =>
      var mode, phase := jobs[j].mode, PhaseOf(s, j);
      var p := Unseeded(PoolOf(s, mode), phase.entry.name);
      With(s, mode, Settled(p, mode, Clean(p, mode, phase.entry, phase.bodyOk, rolesOk)), j, Left)
  }

  ghost predicate Run(jobs: seq<Job>, workers: nat, s: State, trace: seq<Step>, end: State)
    decreases |trace|
  {
    if trace == [] then s == end
    else
      && Enabled(jobs, workers, s, trace[0])
      && Run(jobs, workers, Apply(jobs, workers, s, trace[0]), trace[1..], end)
  }

  ghost predicate Reachable(jobs: seq<Job>, workers: nat, s: State) {
    exists trace :: Run(jobs, workers, INITIALLY, trace, s)
  }

  // ---------------------------------------------------------------- invariant

  /** The role state a case has to restore, once it has read it. */
  function BeforeOf(phase: Phase): Roles
    requires phase.Checked? || phase.Based? || HasEntry(phase)
  {
    if HasEntry(phase) then phase.entry.before else phase.before
  }

  /** A pool under concurrent users: each case's database belongs to the current generation. */
  ghost predicate Serves(mode: Mode, p: Pool, phase: Phase) {
    && p.ready && !p.dirty
    && (mode.Reuse? && Active(phase) ==> phase.Entering? || phase.Using?)
    && (mode.Instance? && Active(phase) && !phase.Entering? ==> BeforeOf(phase) == p.server.base)
    && (HasEntry(phase) ==> Live(p, phase.entry.name) && (!mode.Reuse? ==> Private(p, phase.entry.name)))
  }

  ghost predicate Served(jobs: seq<Job>, s: State, j: nat) {
    j in Running(s.log) && j < |jobs| && Serves(jobs[j].mode, PoolOf(s, jobs[j].mode), PhaseOf(s, j))
  }

  /** The fault pool between and inside cases: unclean means quarantined, clean means restored. */
  ghost predicate Isolated(jobs: seq<Job>, s: State) {
    && (s.fault.cleanupError ==> s.fault.dirty)
    && (s.fault.ready && !s.fault.dirty
        && (forall j: nat | j < |jobs| && jobs[j].mode.Instance? :: !HasEntry(PhaseOf(s, j)))
        ==> s.fault.server.roles == s.fault.server.base)
  }

  ghost predicate Inv(jobs: seq<Job>, workers: nat, s: State) {
    && LegalLog(jobs, workers, s.log)
    && (forall j: nat | InUse(s, j) :: Served(jobs, s, j))
    && Current(s.normal) && !s.normal.dirty && s.normal.resets == s.normal.attempts == 0
    && Current(s.fault)
    && Isolated(jobs, s)
  }

  /** The scheduler's bound, read as a fact about pools: one user of the fault pool at most. */
  lemma OneFaultUser(jobs: seq<Job>, workers: nat, s: State, i: nat, j: nat)
    requires Inv(jobs, workers, s) && InUse(s, i) && j in Running(s.log) && j < |jobs|
    requires i < |jobs| && jobs[i].mode.Instance? && jobs[j].mode.Instance?
    ensures i == j
  {
    assert Served(jobs, s, i);
    ConcurrencyBound(jobs, workers, s.log);
  }

  // ---------------------------------------------------------------- preservation

  /** `p'` disturbs no other user of the pool. */
  ghost predicate Calm(p: Pool, p': Pool) {
    && p'.ready == p.ready && p'.dirty == p.dirty && p'.generation == p.generation
    && p'.resets == p.resets && p'.attempts == p.attempts
    && p'.server.base == p.server.base && p.server.serial <= p'.server.serial
    && (forall name | Private(p, name) :: Private(p', name))
  }

  lemma GrownIsCalm(p: Pool, p': Pool)
    requires Grown(p, p') && p'.dirty == p.dirty
    ensures Calm(p, p')
  {
    forall name | Private(p, name) ensures Private(p', name) {
      PrivateGrows(p, p', name);
    }
  }

  /** What matters to a pool's other users is the same. */
  ghost predicate SameFrame(p: Pool, p': Pool) {
    && p'.ready == p.ready && p'.dirty == p.dirty && p'.generation == p.generation
    && p'.resets == p.resets && p'.attempts == p.attempts && p'.templates == p.templates && p'.shared == p.shared
    && p'.server.base == p.server.base && p'.server.serial == p.server.serial
  }

  lemma FrameIsCalm(p: Pool, p': Pool)
    requires SameFrame(p, p')
    ensures Calm(p, p')
  {
  }

  lemma CalmServes(mode: Mode, p: Pool, p': Pool, phase: Phase)
    requires Calm(p, p') && Serves(mode, p, phase)
    ensures Serves(mode, p', phase)
  {
  }

  lemma StillRunning(jobs: seq<Job>, workers: nat, log: Log, e: Event, j: nat)
    requires Legal(jobs, workers, log, e) && j in Running(log) && e != Finish(j) && e != Lost(j)
    ensures j in Running(Then(log, e))
  {
  }

  lemma KeepSchedule(jobs: seq<Job>, workers: nat, s: State, t: Step)
    requires Inv(jobs, workers, s) && t.Schedule? && Enabled(jobs, workers, s, t)
    ensures Inv(jobs, workers, Apply(jobs, workers, s, t))
  {
    var s' := Apply(jobs, workers, s, t);
    assert forall j: nat :: PhaseOf(s', j) == PhaseOf(s, j);
    forall j: nat | InUse(s', j) ensures Served(jobs, s', j) {
      assert InUse(s, j) && Served(jobs, s, j);
      StillRunning(jobs, workers, s.log, t.event, j);
    }
    assert Isolated(jobs, s');
  }

  /** A step of an ordinary case touches the normal pool only. */
  lemma KeepNormal(jobs: seq<Job>, workers: nat, s: State, s': State, j: nat, p: Pool, phase: Phase)
    requires Inv(jobs, workers, s) && j < |jobs| && j in Running(s.log) && !jobs[j].mode.Instance?
    requires s' == With(s, jobs[j].mode, p, j, phase)
    requires Current(p) && !p.dirty && p.resets == p.attempts == 0
    requires Calm(s.normal, p) || !s.normal.ready
    requires Active(phase) ==> Serves(jobs[j].mode, p, phase)
    ensures Inv(jobs, workers, s')
  {
    forall k: nat | InUse(s', k) ensures Served(jobs, s', k) {
      if k != j {
        assert InUse(s, k) && PhaseOf(s', k) == PhaseOf(s, k) && Served(jobs, s, k);
        if !jobs[k].mode.Instance? {
          CalmServes(jobs[k].mode, s.normal, p, PhaseOf(s, k));
        }
      }
    }
    assert forall k: nat | k < |jobs| && jobs[k].mode.Instance? :: PhaseOf(s', k) == PhaseOf(s, k);
    assert Isolated(jobs, s');
  }

  /** A step of an instance case: nobody else uses the fault pool. */
  lemma KeepFault(jobs: seq<Job>, workers: nat, s: State, s': State, j: nat, p: Pool, phase: Phase)
    requires Inv(jobs, workers, s) && j < |jobs| && j in Running(s.log) && jobs[j].mode.Instance?
    requires s' == With(s, jobs[j].mode, p, j, phase)
    requires Current(p) && (p.cleanupError ==> p.dirty)
    requires p.ready && !p.dirty && !HasEntry(phase) ==> p.server.roles == p.server.base
    requires Active(phase) ==> Serves(jobs[j].mode, p, phase)
    ensures Inv(jobs, workers, s')
  {
    forall k: nat | InUse(s', k) ensures Served(jobs, s', k) {
      if k != j {
        assert InUse(s, k) && PhaseOf(s', k) == PhaseOf(s, k) && Served(jobs, s, k);
        if jobs[k].mode.Instance? {
          OneFaultUser(jobs, workers, s, k, j);
        }
      }
    }
    assert PhaseOf(s', j) == phase;
    assert Isolated(jobs, s');
  }

  lemma NobodyWorks(jobs: seq<Job>, workers: nat, s: State, j: nat)
    requires Inv(jobs, workers, s) && j < |jobs| && j in Running(s.log) && jobs[j].mode.Instance?
    requires !HasEntry(PhaseOf(s, j))
    ensures s.fault.ready && !s.fault.dirty ==> s.fault.server.roles == s.fault.server.base
  {
    forall k: nat | k < |jobs| && jobs[k].mode.Instance? ensures !HasEntry(PhaseOf(s, k)) {
      if HasEntry(PhaseOf(s, k)) {
        assert InUse(s, k);
        OneFaultUser(jobs, workers, s, k, j);
      }
    }
  }

  lemma KeepBeginFault(jobs: seq<Job>, workers: nat, s: State, t: Step)
    requires Inv(jobs, workers, s) && t.Begin? && Enabled(jobs, workers, s, t) && jobs[t.job].mode.Instance?
    ensures Inv(jobs, workers, Apply(jobs, workers, s, t))
  {
    var r := Postgres(s.fault, t.start);
    PostgresCurrent(s.fault, t.start);
    NobodyWorks(jobs, workers, s, t.job);
    KeepFault(jobs, workers, s, Apply(jobs, workers, s, t), t.job, r.pool, if r.out.Ok? then Entering else Left);
  }

  lemma KeepBegin(jobs: seq<Job>, workers: nat, s: State, t: Step)
    requires Inv(jobs, workers, s) && t.Begin? && Enabled(jobs, workers, s, t)
    ensures Inv(jobs, workers, Apply(jobs, workers, s, t))
  {
    if jobs[t.job].mode.Instance? {
      KeepBeginFault(jobs, workers, s, t);
    } else {
      var r := Postgres(s.normal, t.start);
      PostgresCurrent(s.normal, t.start);
      if s.normal.ready {
        ReadyPostgres(s.normal, t.start);
      }
      KeepNormal(jobs, workers, s, Apply(jobs, workers, s, t), t.job, r.pool, if r.out.Ok? then Entering else Left);
    }
  }

  lemma KeepShare(jobs: seq<Job>, workers: nat, s: State, t: Step)
    requires Inv(jobs, workers, s) && t.Share? && Enabled(jobs, workers, s, t)
    ensures Inv(jobs, workers, Apply(jobs, workers, s, t))
  {
    var s', p := Apply(jobs, workers, s, t), s.normal;
    var r := Provide(p, t.profile, Reuse, t.enter);
    assert InUse(s, t.job) && Served(jobs, s, t.job);
    ProvideCurrent(p, t.profile, Reuse, t.enter);
    GrownIsCalm(p, r.pool);
    KeepNormal(jobs, workers, s, s', t.job, r.pool, if r.out.Ok? then Using(r.out.value) else Left);
  }

  /** A further statement of an entering case: it has grown its pool, or soiled and left it. */
  lemma KeepEntering(jobs: seq<Job>, workers: nat, s: State, s': State, j: nat, p': Pool, phase: Phase)
    requires Inv(jobs, workers, s) && j < |jobs| && InUse(s, j) && !HasEntry(PhaseOf(s, j))
    requires var mode := jobs[j].mode;
             var p := PoolOf(s, mode);
             && Current(p') && Grown(p, p') && !p'.dirty
             && s' == With(s, mode, if phase.Left? then Settled(p', mode, false) else p', j, phase)
             && (!phase.Left? ==> Active(phase) && Serves(mode, p', phase) && p'.cleanupError == p.cleanupError)
    ensures Inv(jobs, workers, s')
  {
    var mode := jobs[j].mode;
    assert Served(jobs, s, j);
    if mode.Instance? {
      NobodyWorks(jobs, workers, s, j);
      DirtyKeeps(p');
      KeepFault(jobs, workers, s, s', j, s'.fault, phase);
    } else {
      GrownIsCalm(s.normal, p');
      assert Settled(p', mode, false) == p';
      KeepNormal(jobs, workers, s, s', j, p', phase);
    }
  }

  lemma KeepCheck(jobs: seq<Job>, workers: nat, s: State, t: Step)
    requires Inv(jobs, workers, s) && t.Check? && Enabled(jobs, workers, s, t)
    ensures Inv(jobs, workers, Apply(jobs, workers, s, t))
  {
    var s', mode := Apply(jobs, workers, s, t), jobs[t.job].mode;
    var p := PoolOf(s, mode);
    assert InUse(s, t.job) && Served(jobs, s, t.job);
    ReadyPostgres(p, t.start);
    if mode.Instance? {
      NobodyWorks(jobs, workers, s, t.job);
    }
    if mode.Instance? && !t.rolesOk {
      KeepFault(jobs, workers, s, s', t.job, p, Left);
    } else {
      KeepEntering(jobs, workers, s, s', t.job, p, if p.cleanupError then Left else Checked(t.profile, p.server.roles));
    }
  }

  lemma KeepPrepare(jobs: seq<Job>, workers: nat, s: State, t: Step)
    requires Inv(jobs, workers, s) && t.Prepare? && Enabled(jobs, workers, s, t)
    ensures Inv(jobs, workers, Apply(jobs, workers, s, t))
  {
    var s', mode, phase := Apply(jobs, workers, s, t), jobs[t.job].mode, PhaseOf(s, t.job);
    var p := PoolOf(s, mode);
    var r := Base(p, phase.profile, t.start, t.clone);
    assert InUse(s, t.job) && Served(jobs, s, t.job);
    BaseCurrent(p, phase.profile, t.start, t.clone);
    KeepEntering(jobs, workers, s, s', t.job, r.pool, if r.out.Ok? then Based(phase.profile, phase.before) else Left);
  }

  lemma KeepMake(jobs: seq<Job>, workers: nat, s: State, t: Step)
    requires Inv(jobs, workers, s) && t.MakeOwn? && Enabled(jobs, workers, s, t)
    ensures Inv(jobs, workers, Apply(jobs, workers, s, t))
  {
    var s', mode := Apply(jobs, workers, s, t), jobs[t.job].mode;
    var p := PoolOf(s, mode);
    assert InUse(s, t.job) && Served(jobs, s, t.job);
    CopiedCurrent(p, t.clone);
    KeepEntering(jobs, workers, s, s', t.job, Copied(p, t.clone).pool, PhaseOf(s', t.job));
  }

  /** A statement of a case that has its database: it keeps it, or leaves the pool settled. */
  lemma KeepLeaving(jobs: seq<Job>, workers: nat, s: State, s': State, j: nat, p': Pool, phase: Phase)
    requires Inv(jobs, workers, s) && j < |jobs| && HasEntry(PhaseOf(s, j))
    requires var mode := jobs[j].mode;
             var p := PoolOf(s, mode);
             && s' == With(s, mode, p', j, phase) && Current(p') && Marked(p, p')
             && (phase.Left? || (HasEntry(phase) && phase.entry == PhaseOf(s, j).entry && !mode.Reuse?))
             && (!mode.Instance? || HasEntry(phase) ==> p'.dirty == p.dirty)
             && (mode.Instance? && p'.cleanupError ==> p'.dirty)
             && (mode.Instance? && phase.Left? && !p'.dirty ==> p'.server.roles == PhaseOf(s, j).entry.before)
    ensures Inv(jobs, workers, s')
  {
    var mode := jobs[j].mode;
    assert InUse(s, j) && Served(jobs, s, j);
    if mode.Instance? {
      KeepFault(jobs, workers, s, s', j, p', phase);
    } else {
      FrameIsCalm(s.normal, p');
      KeepNormal(jobs, workers, s, s', j, p', phase);
    }
  }

  lemma KeepEnding(jobs: seq<Job>, workers: nat, s: State, t: Step)
    requires Inv(jobs, workers, s) && (t.Grant? || t.Close?) && Enabled(jobs, workers, s, t)
    ensures Inv(jobs, workers, Apply(jobs, workers, s, t))
  {
    var s', p := Apply(jobs, workers, s, t), PoolOf(s, jobs[t.job].mode);
    assert InUse(s, t.job) && Served(jobs, s, t.job);
    assert Marked(p, p);
    KeepLeaving(jobs, workers, s, s', t.job, p, PhaseOf(s', t.job));
  }

  lemma KeepDrop(jobs: seq<Job>, workers: nat, s: State, t: Step)
    requires Inv(jobs, workers, s) && t.DropOwn? && Enabled(jobs, workers, s, t)
    ensures Inv(jobs, workers, Apply(jobs, workers, s, t))
  {
    var s', mode, entry := Apply(jobs, workers, s, t), jobs[t.job].mode, PhaseOf(s, t.job).entry;
    var p := PoolOf(s, mode);
    assert InUse(s, t.job) && Served(jobs, s, t.job);
    RemovedCurrent(p, entry.name);
    assert Marked(p, p);
    KeepLeaving(jobs, workers, s, s', t.job, PoolOf(s', mode), PhaseOf(s', t.job));
  }

  lemma KeepRecord(jobs: seq<Job>, workers: nat, s: State, t: Step)
    requires Inv(jobs, workers, s) && (t.Record? || t.Leave?) && Enabled(jobs, workers, s, t)
    ensures Inv(jobs, workers, Apply(jobs, workers, s, t))
  {
    var s', mode, entry := Apply(jobs, workers, s, t), jobs[t.job].mode, PhaseOf(s, t.job).entry;
    var p := PoolOf(s, mode);
    assert InUse(s, t.job) && Served(jobs, s, t.job);
    if t.Record? {
      SettledCurrent(p, Recorded(p, t.published), mode, false);
    } else {
      var p1 := Unseeded(p, entry.name);
      SettledCurrent(p, p1, mode, Clean(p1, mode, entry, PhaseOf(s, t.job).bodyOk, t.rolesOk));
    }
    KeepLeaving(jobs, workers, s, s', t.job, PoolOf(s', mode), Left);
  }

  lemma KeepSeed(jobs: seq<Job>, workers: nat, s: State, t: Step)
    requires Inv(jobs, workers, s) && t.SeedCase? && Enabled(jobs, workers, s, t)
    ensures Inv(jobs, workers, Apply(jobs, workers, s, t))
  {
    var s', mode, phase := Apply(jobs, workers, s, t), jobs[t.job].mode, PhaseOf(s, t.job);
    var p := PoolOf(s, mode);
    assert InUse(s, t.job) && Served(jobs, s, t.job);
    SeedMarks(p, phase.entry.name, t.profile, t.tenants, t.ok);
    FrameIsCalm(p, PoolOf(s', mode));
    SeedKeeps(p, phase.entry.name, t.profile, t.tenants, t.ok);
    CalmServes(mode, p, PoolOf(s', mode), phase);
    if mode.Instance? {
      KeepFault(jobs, workers, s, s', t.job, s'.fault, phase);
    } else {
      KeepNormal(jobs, workers, s, s', t.job, s'.normal, phase);
    }
  }

  lemma RolesCalm(p: Pool, roles: Roles)
    requires Current(p)
    ensures var p' := p.(server := p.server.(roles := roles));
            Current(p') && Calm(p, p')
  {
    var p' := p.(server := p.server.(roles := roles));
    assert forall d | Cached(p, d) :: Cached(p', d);
    FrameIsCalm(p, p');
  }

  lemma KeepWork(jobs: seq<Job>, workers: nat, s: State, t: Step)
    requires Inv(jobs, workers, s) && t.Work? && Enabled(jobs, workers, s, t)
    ensures Inv(jobs, workers, Apply(jobs, workers, s, t))
  {
    var s', mode, phase := Apply(jobs, workers, s, t), jobs[t.job].mode, PhaseOf(s, t.job);
    assert InUse(s, t.job) && Served(jobs, s, t.job);
    RolesCalm(PoolOf(s, mode), t.roles);
    CalmServes(mode, PoolOf(s, mode), PoolOf(s', mode), phase);
    if mode.Instance? {
      KeepFault(jobs, workers, s, s', t.job, s'.fault, phase);
    } else {
      KeepNormal(jobs, workers, s, s', t.job, s'.normal, phase);
    }
  }

  lemma KeepStep(jobs: seq<Job>, workers: nat, s: State, t: Step)
    requires Inv(jobs, workers, s) && Enabled(jobs, workers, s, t)
    ensures Inv(jobs, workers, Apply(jobs, workers, s, t))
  {
    match t
    case Schedule(_) => KeepSchedule(jobs, workers, s, t);
    case Begin(_, _) => KeepBegin(jobs, workers, s, t);
    case Share(_, _, _) => KeepShare(jobs, workers, s, t);
    case Check(_, _, _, _) => KeepCheck(jobs, workers, s, t);
    case Prepare(_, _, _) => KeepPrepare(jobs, workers, s, t);
    case MakeOwn(_, _) => KeepMake(jobs, workers, s, t);
    case Grant(_, _) => KeepEnding(jobs, workers, s, t);
    case SeedCase(_, _, _, _) => KeepSeed(jobs, workers, s, t);
    case Work(_, _) => KeepWork(jobs, workers, s, t);
    case Close(_, _) => KeepEnding(jobs, workers, s, t);
    case DropOwn(_, _) => KeepDrop(jobs, workers, s, t);
    case Record(_, _) => KeepRecord(jobs, workers, s, t);
    case Leave(_, _) => KeepRecord(jobs, workers, s, t);
  }

  lemma {:induction false} KeepRun(jobs: seq<Job>, workers: nat, s: State, trace: seq<Step>, end: State)
    requires Inv(jobs, workers, s) && Run(jobs, workers, s, trace, end)
    ensures Inv(jobs, workers, end)
    decreases |trace|
  {
    if trace != [] {
      KeepStep(jobs, workers, s, trace[0]);
      KeepRun(jobs, workers, Apply(jobs, workers, s, trace[0]), trace[1..], end);
    }
  }

  lemma InitiallyInv(jobs: seq<Job>, workers: nat)
    ensures Inv(jobs, workers, INITIALLY)
  {
    assert forall j: nat :: PhaseOf(INITIALLY, j).Idle?;
  }

  lemma ReachableInv(jobs: seq<Job>, workers: nat, s: State)
    requires Reachable(jobs, workers, s)
    ensures Inv(jobs, workers, s)
  {
    var trace :| Run(jobs, workers, INITIALLY, trace, s);
    InitiallyInv(jobs, workers);
    KeepRun(jobs, workers, INITIALLY, trace, s);
  }

  // ---------------------------------------------------------------- theorems

  /** The pool a case's step leaves behind; the other pool is not touched. */
  lemma OtherPool(jobs: seq<Job>, workers: nat, s: State, t: Step)
    requires Enabled(jobs, workers, s, t)
    ensures t.Schedule? || !jobs[t.job].mode.Instance? ==> Apply(jobs, workers, s, t).fault == s.fault
    ensures t.Schedule? || jobs[t.job].mode.Instance? ==> Apply(jobs, workers, s, t).normal == s.normal
  {
  }

  /** No reset was begun, and nothing was destroyed. */
  ghost predicate Undisturbed(p: Pool, p': Pool) {
    p'.attempts == p.attempts && p'.resets == p.resets && (p.cleanupError ==> p'.cleanupError) && (p.dirty ==> p'.dirty)
  }

  ghost predicate Enters(t: Step) {
    t.Share? || t.Check? || t.Prepare? || t.MakeOwn?
  }

  lemma EnteringIsUndisturbed(jobs: seq<Job>, workers: nat, s: State, t: Step)
    requires Inv(jobs, workers, s) && Enabled(jobs, workers, s, t) && Enters(t)
    ensures var mode := jobs[t.job].mode;
            Undisturbed(PoolOf(s, mode), PoolOf(Apply(jobs, workers, s, t), mode))
  {
    var p, phase := PoolOf(s, jobs[t.job].mode), PhaseOf(s, t.job);
    assert InUse(s, t.job) && Served(jobs, s, t.job);
    match t {
      case Share(_, profile, e) => ProvideCurrent(p, profile, Reuse, e);
      case Check(_, _, _, e) => ReadyPostgres(p, e);
      case Prepare(_, e, c) => BaseCurrent(p, phase.profile, e, c);
      case MakeOwn(_, c) => CopiedCurrent(p, c);
    }
  }

  lemma UsingIsUndisturbed(jobs: seq<Job>, workers: nat, s: State, t: Step)
    requires Enabled(jobs, workers, s, t) && !t.Schedule? && !t.Begin? && !Enters(t)
    ensures var mode := jobs[t.job].mode;
            Undisturbed(PoolOf(s, mode), PoolOf(Apply(jobs, workers, s, t), mode))
  {
    if t.SeedCase? {
      var p, entry := PoolOf(s, jobs[t.job].mode), PhaseOf(s, t.job).entry;
      SeedMarks(p, entry.name, t.profile, t.tenants, t.ok);
    }
  }

  /** Past its first postgres(), a case's own steps neither begin nor complete a reset, and lift no
      quarantine. */
  lemma OnlyBeginResets(jobs: seq<Job>, workers: nat, s: State, t: Step, mode: Mode)
    requires Inv(jobs, workers, s) && Enabled(jobs, workers, s, t) && !t.Begin?
    ensures Undisturbed(PoolOf(s, mode), PoolOf(Apply(jobs, workers, s, t), mode))
  {
    OtherPool(jobs, workers, s, t);
    if !t.Schedule? && jobs[t.job].mode.Instance? == mode.Instance? {
      if Enters(t) {
        EnteringIsUndisturbed(jobs, workers, s, t);
      } else {
        UsingIsUndisturbed(jobs, workers, s, t);
      }
    }
  }

  /** When a step begins a reset of the fault pool's server, whether or not the reset completes, no
      case at all is using that pool. */
  lemma ResetIsExclusive(jobs: seq<Job>, workers: nat, s: State, t: Step, k: nat)
    requires Reachable(jobs, workers, s) && Enabled(jobs, workers, s, t)
    requires Apply(jobs, workers, s, t).fault.attempts != s.fault.attempts
    requires k < |jobs| && jobs[k].mode.Instance?
    ensures t.Begin? && !InUse(s, k)
  {
    ReachableInv(jobs, workers, s);
    assert InUse(s, k) ==> Served(jobs, s, k);
    if !t.Begin? {
      OnlyBeginResets(jobs, workers, s, t, Instance);
    }
  }

  /** A `postgres()` call destroys databases only by a reset that it began. */
  lemma OnlyResetsDestroy(p: Pool, e: StartEnv)
    requires Postgres(p, e).pool.server.dbs != p.server.dbs
    ensures p.dirty && Postgres(p, e).pool.attempts == p.attempts + 1
  {
  }

  /** The pool that ordinary cases share is never reset. */
  lemma NormalPoolIsNeverReset(jobs: seq<Job>, workers: nat, s: State)
    requires Reachable(jobs, workers, s)
    ensures s.normal.attempts == s.normal.resets == 0 && !s.normal.dirty
  {
    ReachableInv(jobs, workers, s);
  }

  /** Every instance case that gets a database starts from the role state its server generation
      started with, whatever the cases before it did, and its database is of that generation. */
  lemma FaultCaseStartsFromBase(jobs: seq<Job>, workers: nat, s: State, t: Step)
    requires Reachable(jobs, workers, s) && t.MakeOwn? && Enabled(jobs, workers, s, t) && jobs[t.job].mode.Instance?
    requires HasEntry(PhaseOf(Apply(jobs, workers, s, t), t.job))
    ensures var s' := Apply(jobs, workers, s, t);
            && s'.fault.server.roles == s'.fault.server.base == PhaseOf(s', t.job).entry.before
            && PhaseOf(s', t.job).entry.name.generation == s'.fault.generation
            && s'.fault.generation == s.fault.generation
  {
    ReachableInv(jobs, workers, s);
    assert InUse(s, t.job) && Served(jobs, s, t.job);
    NobodyWorks(jobs, workers, s, t.job);
    CopiedCurrent(s.fault, t.clone);
  }

  /** Templates, shared and seeded names always belong to the current generation. */
  lemma CachesAreCurrent(jobs: seq<Job>, workers: nat, s: State)
    requires Reachable(jobs, workers, s)
    ensures Current(s.normal) && Current(s.fault)
  {
    ReachableInv(jobs, workers, s);
  }

  // ------------------------------------------------ after a failed drop

  /** No `database` call begins on such a pool without a reset. */
  predicate Quarantined(p: Pool) {
    p.cleanupError || p.dirty
  }

  /** Recording a failed drop, whether the body or a grant led to it, quarantines the pool exactly if
      the case is an instance case or the failure file could be written (or the pool was quarantined
      already); otherwise the next call goes ahead on the same server. */
  lemma FailedDropQuarantinesIff(jobs: seq<Job>, workers: nat, s: State, t: Step)
    requires Reachable(jobs, workers, s) && t.Record? && Enabled(jobs, workers, s, t)
    ensures var mode := jobs[t.job].mode;
            var p, p' := PoolOf(s, mode), PoolOf(Apply(jobs, workers, s, t), mode);
            && (Quarantined(p') <==> mode.Instance? || t.published || p.cleanupError)
            && (!Quarantined(p') ==> forall e :: Postgres(p', e) == Reply(p', Ok(())))
  {
    ReachableInv(jobs, workers, s);
    assert InUse(s, t.job) && Served(jobs, s, t.job);
    var p' := PoolOf(Apply(jobs, workers, s, t), jobs[t.job].mode);
    KeepStep(jobs, workers, s, t);
    if !Quarantined(p') {
      forall e ensures Postgres(p', e) == Reply(p', Ok(())) {
        ReadyPostgres(p', e);
      }
    }
  }

  lemma BeginSticks(p: Pool, e: StartEnv)
    requires Quarantined(p)
    ensures var r := Postgres(p, e);
            || r.pool.resets > p.resets
            || (!r.out.Ok? && Quarantined(r.pool) && r.pool.resets == p.resets)
  {
  }

  lemma StickyStep(jobs: seq<Job>, workers: nat, s: State, t: Step, mode: Mode)
    requires Inv(jobs, workers, s) && Enabled(jobs, workers, s, t) && Quarantined(PoolOf(s, mode))
    ensures var s' := Apply(jobs, workers, s, t);
            || PoolOf(s', mode).resets > PoolOf(s, mode).resets
            || (Quarantined(PoolOf(s', mode)) && PoolOf(s', mode).resets == PoolOf(s, mode).resets)
    ensures t.Begin? && jobs[t.job].mode.Instance? == mode.Instance?
            && InUse(Apply(jobs, workers, s, t), t.job)
            ==> PoolOf(Apply(jobs, workers, s, t), mode).resets > PoolOf(s, mode).resets
  {
    if t.Begin? {
      if jobs[t.job].mode.Instance? == mode.Instance? {
        BeginSticks(PoolOf(s, mode), t.start);
      }
    } else {
      OnlyBeginResets(jobs, workers, s, t, mode);
    }
  }

  lemma ResetsOnlyGrow(jobs: seq<Job>, workers: nat, s: State, t: Step, mode: Mode)
    requires Inv(jobs, workers, s) && Enabled(jobs, workers, s, t)
    ensures PoolOf(Apply(jobs, workers, s, t), mode).resets >= PoolOf(s, mode).resets
  {
    if !t.Begin? {
      OnlyBeginResets(jobs, workers, s, t, mode);
    }
  }

  lemma {:induction false} ResetsGrow(
    jobs: seq<Job>, workers: nat, s: State, trace: seq<Step>, end: State, mode: Mode)
    requires Inv(jobs, workers, s) && Run(jobs, workers, s, trace, end)
    ensures PoolOf(end, mode).resets >= PoolOf(s, mode).resets
    decreases |trace|
  {
    if trace != [] {
      KeepStep(jobs, workers, s, trace[0]);
      ResetsOnlyGrow(jobs, workers, s, trace[0], mode);
      ResetsGrow(jobs, workers, Apply(jobs, workers, s, trace[0]), trace[1..], end, mode);
    }
  }

  /** Only its own first step makes a case a user of a pool. */
  lemma Unbegun(jobs: seq<Job>, workers: nat, s: State, t: Step, j: nat)
    requires Enabled(jobs, workers, s, t) && !InUse(s, j) && InUse(Apply(jobs, workers, s, t), j)
    ensures t.Begin? && t.job == j
  {
  }

  lemma {:induction false} BlockedUntilReset(
    jobs: seq<Job>, workers: nat, s: State, trace: seq<Step>, end: State, j: nat)
    requires Inv(jobs, workers, s) && Run(jobs, workers, s, trace, end) && j < |jobs|
    requires Quarantined(PoolOf(s, jobs[j].mode)) && !InUse(s, j)
    ensures InUse(end, j) ==> PoolOf(end, jobs[j].mode).resets > PoolOf(s, jobs[j].mode).resets
    decreases |trace|
  {
    if trace != [] {
      var s1 := Apply(jobs, workers, s, trace[0]);
      KeepStep(jobs, workers, s, trace[0]);
      StickyStep(jobs, workers, s, trace[0], jobs[j].mode);
      if PoolOf(s1, jobs[j].mode).resets > PoolOf(s, jobs[j].mode).resets {
        ResetsGrow(jobs, workers, s1, trace[1..], end, jobs[j].mode);
      } else {
        if InUse(s1, j) {
          Unbegun(jobs, workers, s, trace[0], j);
        }
        BlockedUntilReset(jobs, workers, s1, trace[1..], end, j);
      }
    }
  }

  /** Once a failed drop has quarantined a pool, no `database` call begun later gives its case a
      database, in any continuation of the run, unless the server was reset in between. */
  lemma FailedDropBlocksUntilReset(
    jobs: seq<Job>, workers: nat, s: State, trace: seq<Step>, end: State, j: nat)
    requires Reachable(jobs, workers, s) && Run(jobs, workers, s, trace, end) && j < |jobs|
    requires Quarantined(PoolOf(s, jobs[j].mode)) && !InUse(s, j)
    ensures InUse(end, j) ==> PoolOf(end, jobs[j].mode).resets > PoolOf(s, jobs[j].mode).resets
  {
    ReachableInv(jobs, workers, s);
    BlockedUntilReset(jobs, workers, s, trace, end, j);
  }
}
