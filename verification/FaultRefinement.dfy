/**
 The statements of a case, taken one after the other with nobody in between, do
 what the pool's operations specify; and how each way out leaves the pool.
 */
module FaultRefinement {
  import opened Dispatch
  import opened DatabasePool
  import opened FaultRun

  // ---------------------------------------------------------------- leaving is Exit

  /** The statements of the `finally`, and of `database` behind it. */
  ghost function EndAll(jobs: seq<Job>, workers: nat, s: State, j: nat, drop: DropEnv, rolesOk: bool): State
    requires j < |jobs| && PhaseOf(s, j).Ending?
  {
    var s1 := Apply(jobs, workers, s, DropOwn(j, drop.ok));
    if drop.ok then Apply(jobs, workers, s1, Leave(j, rolesOk))
    else Apply(jobs, workers, s1, Record(j, drop.published))
  }

  lemma DroppedEnds(jobs: seq<Job>, workers: nat, s: State, j: nat, rolesOk: bool)
    requires j < |jobs| && PhaseOf(s, j).Dropped?
    ensures var mode, phase, s' := jobs[j].mode, PhaseOf(s, j), Apply(jobs, workers, s, Leave(j, rolesOk));
            var p := Unseeded(PoolOf(s, mode), phase.entry.name);
            && PhaseOf(s', j).Left?
            && PoolOf(s', mode) == Settled(p, mode, Clean(p, mode, phase.entry, phase.bodyOk, rolesOk))
  {
  }

  lemma EndingIsDrop(jobs: seq<Job>, workers: nat, s: State, j: nat, drop: DropEnv, rolesOk: bool)
    requires j < |jobs| && PhaseOf(s, j).Ending?
    ensures var mode, phase, end := jobs[j].mode, PhaseOf(s, j), EndAll(jobs, workers, s, j, drop, rolesOk);
            var p := Drop(PoolOf(s, mode), phase.entry.name, drop);
            && PhaseOf(end, j).Left?
            && PoolOf(end, mode) == Settled(p, mode, drop.ok && Clean(p, mode, phase.entry, phase.bodyOk, rolesOk))
  {
    if drop.ok {
      DroppedEnds(jobs, workers, Apply(jobs, workers, s, DropOwn(j, true)), j, rolesOk);
    }
  }

  /** The statements of a case from the end of its body until it has left. */
  ghost function LeaveAll(jobs: seq<Job>, workers: nat, s: State, j: nat, bodyOk: bool, e: ExitEnv): State
    requires j < |jobs| && PhaseOf(s, j).Using?
  {
    var s1 := Apply(jobs, workers, s, Close(j, bodyOk));
    if jobs[j].mode.Reuse? then s1 else EndAll(jobs, workers, s1, j, e.drop, e.rolesOk)
  }

  /** Leaving statement by statement is the specified exit. */
  lemma LeavingIsExit(jobs: seq<Job>, workers: nat, s: State, j: nat, bodyOk: bool, e: ExitEnv)
    requires j < |jobs| && PhaseOf(s, j).Using?
    ensures var mode, end := jobs[j].mode, LeaveAll(jobs, workers, s, j, bodyOk, e);
            && PhaseOf(end, j).Left?
            && PoolOf(end, mode) == Exit(PoolOf(s, mode), mode, PhaseOf(s, j).entry, bodyOk, e).pool
  {
    if !jobs[j].mode.Reuse? {
      EndingIsDrop(jobs, workers, Apply(jobs, workers, s, Close(j, bodyOk)), j, e.drop, e.rolesOk);
    }
  }

  // ---------------------------------------------------------------- entering is Provide

  /** The statements of a case that has created an empty database, up to its yield or out again. */
  ghost function GrantAll(jobs: seq<Job>, workers: nat, s: State, j: nat, e: EnterEnv): State
    requires j < |jobs| && PhaseOf(s, j).Granting?
  {
    var s1 := Apply(jobs, workers, s, Grant(j, e.grantOk));
    if e.grantOk then s1 else EndAll(jobs, workers, s1, j, e.drop, true)
  }

  ghost function MakeAll(jobs: seq<Job>, workers: nat, s: State, j: nat, e: EnterEnv): State
    requires j < |jobs| && PhaseOf(s, j).Based?
  {
    var s1 := Apply(jobs, workers, s, MakeOwn(j, e.clone));
    if PhaseOf(s1, j).Granting? then GrantAll(jobs, workers, s1, j, e) else s1
  }

  ghost function EnterAll(jobs: seq<Job>, workers: nat, s: State, j: nat, profile: Profile, e: EnterEnv): State
    requires j < |jobs| && PhaseOf(s, j).Entering? && !jobs[j].mode.Reuse?
  {
    var s1 := Apply(jobs, workers, s, Check(j, profile, e.rolesOk, e.start));
    if !PhaseOf(s1, j).Checked? then s1
    else
      var s2 := Apply(jobs, workers, s1, Prepare(j, e.start, e.clone));
      if PhaseOf(s2, j).Based? then MakeAll(jobs, workers, s2, j, e) else s2
  }

  /** The case has what the specified reply gives, or has left with the pool settled. */
  ghost predicate Reached(mode: Mode, end: State, j: nat, before: Roles, r: Reply<Db>) {
    && PoolOf(end, mode) == (if r.out.Ok? then r.pool else Settled(r.pool, mode, false))
    && PhaseOf(end, j) == if r.out.Ok? then Using(Entry(r.out.value, before)) else Left
  }

  lemma GrantingIsMake(jobs: seq<Job>, workers: nat, s: State, j: nat, p: Pool, e: EnterEnv)
    requires j < |jobs| && !jobs[j].mode.Reuse? && PhaseOf(s, j).Granting? && e.clone.cloneOk
    requires PhaseOf(s, j).entry.name == NewName(p) && PoolOf(s, jobs[j].mode) == Create(p, true)
    ensures Reached(jobs[j].mode, GrantAll(jobs, workers, s, j, e), j, PhaseOf(s, j).entry.before,
                    Make(p, EMPTY_PROFILE, e))
  {
    if !e.grantOk {
      EndingIsDrop(jobs, workers, Apply(jobs, workers, s, Grant(j, false)), j, e.drop, true);
    }
  }

  lemma MakingIsMake(jobs: seq<Job>, workers: nat, s: State, j: nat, e: EnterEnv)
    requires j < |jobs| && !jobs[j].mode.Reuse? && PhaseOf(s, j).Based?
    ensures Reached(jobs[j].mode, MakeAll(jobs, workers, s, j, e), j, PhaseOf(s, j).before,
                    Make(PoolOf(s, jobs[j].mode), PhaseOf(s, j).profile, e))
  {
    var s1 := Apply(jobs, workers, s, MakeOwn(j, e.clone));
    if PhaseOf(s1, j).Granting? {
      GrantingIsMake(jobs, workers, s1, j, PoolOf(s, jobs[j].mode), e);
    }
  }

  /** Entering statement by statement is the specified entry. */
  lemma EnteringIsProvide(jobs: seq<Job>, workers: nat, s: State, j: nat, profile: Profile, e: EnterEnv)
    requires j < |jobs| && PhaseOf(s, j).Entering? && !jobs[j].mode.Reuse?
    ensures var mode, end := jobs[j].mode, EnterAll(jobs, workers, s, j, profile, e);
            var r := Provide(PoolOf(s, mode), profile, mode, e);
            && PoolOf(end, mode) == r.pool
            && PhaseOf(end, j) == if r.out.Ok? then Using(r.out.value) else Left
  {
    var mode := jobs[j].mode;
    var s1 := Apply(jobs, workers, s, Check(j, profile, e.rolesOk, e.start));
    if PhaseOf(s1, j).Checked? {
      var s2 := Apply(jobs, workers, s1, Prepare(j, e.start, e.clone));
      if PhaseOf(s2, j).Based? {
        MakingIsMake(jobs, workers, s2, j, e);
      }
    }
  }

  /** A reusing case's one locked section is the specified entry, too. */
  lemma SharingIsProvide(jobs: seq<Job>, workers: nat, s: State, t: Step)
    requires t.Share? && Enabled(jobs, workers, s, t)
    ensures var r, s' := Provide(s.normal, t.profile, Reuse, t.enter), Apply(jobs, workers, s, t);
            && s'.normal == r.pool && s'.fault == s.fault
            && PhaseOf(s', t.job) == if r.out.Ok? then Using(r.out.value) else Left
  {
  }

  /** A call begins with the specified `postgres()` of the pool its mode selects. */
  lemma BeginningIsPostgres(jobs: seq<Job>, workers: nat, s: State, t: Step)
    requires t.Begin? && Enabled(jobs, workers, s, t)
    ensures var mode, s' := jobs[t.job].mode, Apply(jobs, workers, s, t);
            var r := Postgres(if mode.Instance? then s.fault else s.normal, t.start);
            && (if mode.Instance? then s'.fault == r.pool && s'.normal == s.normal
                else s'.normal == r.pool && s'.fault == s.fault)
            && PhaseOf(s', t.job) == if r.out.Ok? then Entering else Left
  {
  }

  /** While it works a case may leave any roles behind, and its seeding is the specified one. */
  lemma WorkingChangesRoles(jobs: seq<Job>, workers: nat, s: State, t: Step)
    requires (t.Work? || t.SeedCase?) && Enabled(jobs, workers, s, t)
    ensures var mode, phase, s' := jobs[t.job].mode, PhaseOf(s, t.job), Apply(jobs, workers, s, t);
            && PhaseOf(s', t.job) == phase
            && (t.Work? ==> PoolOf(s', mode).server.roles == t.roles
                            && PoolOf(s', mode).server.dbs == PoolOf(s, mode).server.dbs)
            && (t.SeedCase? ==>
                  PoolOf(s', mode) == Seed(PoolOf(s, mode), phase.entry.name, t.profile, t.tenants, t.ok).pool)
  {
  }

  // ---------------------------------------------------------------- every way out

  /** Leaving after a successful drop quarantines the pool of an instance case exactly if the case
      raised, or its roles could not be read or are not as before; so a case that raised does. */
  lemma LeavingQuarantinesIff(jobs: seq<Job>, workers: nat, s: State, t: Step)
    requires Reachable(jobs, workers, s) && t.Leave? && Enabled(jobs, workers, s, t)
    ensures var mode, phase := jobs[t.job].mode, PhaseOf(s, t.job);
            var p, s' := PoolOf(s, mode), Apply(jobs, workers, s, t);
            && PhaseOf(s', t.job).Left?
            && (Quarantined(PoolOf(s', mode)) <==>
                  || p.cleanupError
                  || (mode.Instance? && !(phase.bodyOk && t.rolesOk && p.server.roles == phase.entry.before)))
  {
    ReachableInv(jobs, workers, s);
    assert InUse(s, t.job) && Served(jobs, s, t.job);
  }

  /** An instance case that fails to get its database quarantines the fault pool, unless it had not
      even read its roles. */
  lemma FailedEntryQuarantinesIff(jobs: seq<Job>, workers: nat, s: State, t: Step)
    requires Reachable(jobs, workers, s) && Enabled(jobs, workers, s, t) && (t.Check? || t.Prepare? || t.MakeOwn?)
    requires jobs[t.job].mode.Instance? && PhaseOf(Apply(jobs, workers, s, t), t.job).Left?
    ensures Quarantined(Apply(jobs, workers, s, t).fault) <==> !(t.Check? && !t.rolesOk)
  {
    ReachableInv(jobs, workers, s);
    assert InUse(s, t.job) && Served(jobs, s, t.job);
  }

  /** No answer of the environment is excluded, at any statement of a case. */
  lemma EveryAnswerIsPossible(jobs: seq<Job>, workers: nat, s: State, j: nat, ok: bool, roles: Roles,
                              profile: Profile, e: EnterEnv, tenants: set<Tenant>)
    requires j < |jobs|
    ensures var phase := PhaseOf(s, j);
            && (phase.Idle? && j in Running(s.log) && !jobs[j].mode.NoDatabase? ==>
                  Enabled(jobs, workers, s, Begin(j, e.start)))
            && (phase.Entering? && jobs[j].mode.Reuse? ==> Enabled(jobs, workers, s, Share(j, profile, e)))
            && (phase.Entering? && !jobs[j].mode.Reuse? ==> Enabled(jobs, workers, s, Check(j, profile, ok, e.start)))
            && (phase.Checked? ==> Enabled(jobs, workers, s, Prepare(j, e.start, e.clone)))
            && (phase.Based? ==> Enabled(jobs, workers, s, MakeOwn(j, e.clone)))
            && (phase.Granting? ==> Enabled(jobs, workers, s, Grant(j, ok)))
            && (phase.Using? ==> && Enabled(jobs, workers, s, Work(j, roles)) && Enabled(jobs, workers, s, Close(j, ok))
                                 && Enabled(jobs, workers, s, SeedCase(j, profile, tenants, ok)))
            && (phase.Ending? ==> Enabled(jobs, workers, s, DropOwn(j, ok)))
            && (phase.Failing? ==> Enabled(jobs, workers, s, Record(j, ok)))
            && (phase.Dropped? ==> Enabled(jobs, workers, s, Leave(j, ok)))
  {
  }
}
