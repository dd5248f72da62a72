/**
 What each operation of the database pool amounts to for its caller, in terms of
 the pool before it and the answers of the environment.
 */
module DatabaseOutcomes {
  import opened Dispatch
  import opened DatabasePool

  // ---------------------------------------------------------------- starting

  /** Nothing is remembered of the server, not even its failures. */
  ghost predicate Forgets(s: Pool) {
    && !s.dirty && !s.cleanupError && s.templates == map[] && s.templateErrors == {} && s.shared == map[]
    && s.seeded == map[] && s.server.dbs == {}
  }

  /** A due reset that succeeds starts over: a new generation on which nothing is remembered, unless
      the start fails, which is then all that is remembered. */
  lemma ResetStartsOver(s: Pool, e: StartEnv)
    requires s.dirty && e.resetOk
    ensures var r := Postgres(s, e);
            && Forgets(r.pool) && r.pool.resets == s.resets + 1 && r.pool.attempts == s.attempts + 1
            && r.pool.server.serial == s.server.serial
            && (if e.startOk then
                  && r.out == Ok(()) && r.pool.ready && !r.pool.startError && r.pool.generation == s.generation + 1
                  && r.pool.server.roles == r.pool.server.base == e.roles
                else
                  && r.out.Raised? && !r.pool.ready && r.pool.startError == e.published
                  && r.pool.generation == s.generation)
  {
  }

  /** A reset that fails is still due; all that changed is what it did to the server. */
  lemma FailedResetIsStillDue(s: Pool, e: StartEnv)
    requires s.dirty && !e.resetOk
    ensures var r := Postgres(s, e);
            && r.out.Raised? && r.pool.dirty && r.pool.resets == s.resets && r.pool.attempts == s.attempts + 1
            && r.pool == s.(attempts := r.pool.attempts, server := r.pool.server)
            && r.pool.server.dbs == s.server.dbs - e.lost && r.pool.server.roles == e.roles
  {
  }

  /** Without a due reset: recorded errors block, a ready server is used as it is, and otherwise it is
      started as a new generation. */
  lemma StartsWhenNeeded(s: Pool, e: StartEnv)
    requires !s.dirty
    ensures var r := Postgres(s, e);
            if s.cleanupError || s.startError then r.out.Blocked? && r.pool == s
            else if s.ready then r.out == Ok(()) && r.pool == s
            else if e.startOk then
              && r.out == Ok(()) && r.pool.ready && r.pool.generation == s.generation + 1
              && r.pool.server.roles == r.pool.server.base == e.roles && r.pool.server.dbs == s.server.dbs
              && r.pool == s.(ready := true, generation := r.pool.generation, server := r.pool.server)
            else r.out.Raised? && r.pool == s.(startError := e.published)
  {
  }

  // ---------------------------------------------------------------- databases

  /** The pool can serve: a running server without recorded errors. */
  ghost predicate Serving(s: Pool) {
    Current(s) && s.ready && !s.dirty && !s.cleanupError
  }

  /** A baseline that is cached is used, one that failed on record is refused, and any other is built
      under a new name. */
  lemma TemplateOutcome(s: Pool, profile: Profile, e: StartEnv, c: CloneEnv)
    requires Serving(s)
    ensures var r := Template(s, profile, e, c);
            if profile in s.templates then r == Reply(s, Ok(s.templates[profile]))
            else if profile in s.templateErrors then r.out.Blocked? && r.pool == s
            else if c.buildOk then
              && r.out.Ok? && r.out.value == Db(s.generation, s.server.serial)
              && r.pool.templates == s.templates[profile := r.out.value]
              && r.pool.templateErrors == s.templateErrors && r.pool.server.dbs == s.server.dbs + {r.out.value}
            else
              && r.out.Raised? && r.pool.templates == s.templates
              && r.pool.templateErrors == (if c.published then s.templateErrors + {profile} else s.templateErrors)
              && r.pool.server.dbs == s.server.dbs + if c.left then {Db(s.generation, s.server.serial)} else {}
  {
    ReadyPostgres(s, e);
  }

  /** The baseline of a profile can be had. */
  ghost predicate HasBase(s: Pool, profile: Profile, c: CloneEnv) {
    profile in s.templates || (profile !in s.templateErrors && c.buildOk)
  }

  lemma CloneOutcome(s: Pool, profile: Profile, e: StartEnv, c: CloneEnv)
    requires Serving(s)
    ensures var r := Clone(s, profile, e, c);
            && (r.out.Ok? <==> HasBase(s, profile, c) && c.cloneOk)
            && (r.out.Blocked? <==> profile !in s.templates && profile in s.templateErrors)
            && (r.out.Ok? ==> r.out.value in r.pool.server.dbs && r.out.value !in s.server.dbs)
            && r.pool.shared == s.shared
  {
    TemplateOutcome(s, profile, e, c);
    TemplateCurrent(s, profile, e, c);
  }

  /** A reusing case gets the shared database of its profile, which is cloned the first time. */
  lemma ReuseOutcome(s: Pool, profile: Profile, e: EnterEnv)
    requires Serving(s)
    ensures var r := Provide(s, profile, Reuse, e);
            && (r.out.Ok? <==> profile in s.shared || (HasBase(s, profile, e.clone) && e.clone.cloneOk))
            && (profile in s.shared && r.out.Ok? ==> r.pool == s && r.out.value.name == s.shared[profile])
            && (r.out.Ok? ==> profile in r.pool.shared && r.pool.shared == s.shared[profile := r.out.value.name])
            && (!r.out.Ok? ==> r.pool.shared == s.shared)
            && !r.pool.dirty && !r.pool.cleanupError
  {
    CloneOutcome(s, profile, e.start, e.clone);
    CloneCurrent(s, profile, e.start, e.clone);
  }

  /** When a case of its own database gets one, and what its failure to get one leaves: only an
      instance case that had read its roles makes a reset due, and only a failed drop of an empty
      database after a failed grant is put on record. */
  lemma OwnOutcome(s: Pool, profile: Profile, mode: Mode, e: EnterEnv)
    requires Serving(s) && !mode.Reuse?
    ensures var r := Provide(s, profile, mode, e);
            var empty := profile == EMPTY_PROFILE;
            var ungranted := empty && e.clone.cloneOk && !e.grantOk && (mode.Instance? ==> e.rolesOk);
            && (r.out.Ok? <==> && (mode.Instance? ==> e.rolesOk) && (empty || HasBase(s, profile, e.clone))
                               && e.clone.cloneOk && (empty ==> e.grantOk))
            && (r.pool.dirty <==> mode.Instance? && e.rolesOk && !r.out.Ok?)
            && (r.pool.cleanupError <==> ungranted && !e.drop.ok && e.drop.published)
            && (r.out.Ok? ==> r.out.value.before == s.server.roles && r.out.value.name in r.pool.server.dbs
                              && r.out.value.name !in s.server.dbs)
            && r.pool.shared == s.shared
  {
    ReadyPostgres(s, e.start);
    if profile != EMPTY_PROFILE {
      TemplateOutcome(s, profile, e.start, e.clone);
      TemplateCurrent(s, profile, e.start, e.clone);
    }
  }

  // ---------------------------------------------------------------- leaving

  /** A case that shares its database leaves the pool as it is; one that raised raises. */
  lemma ReuseExit(s: Pool, entry: Entry, bodyOk: bool, e: ExitEnv)
    ensures var r := Exit(s, Reuse, entry, bodyOk, e);
            r.pool == s && (r.out.Ok? <==> bodyOk) && !r.out.Blocked?
  {
  }

  /** A case with its own database passes exactly if it did not raise, its database was dropped and,
      for an instance case, its roles could be read and are as before. Anything else makes a reset due
      if it is an instance case. A successful drop removes the database and its seeds, a failed one
      changes nothing but the record. */
  lemma OwnExit(s: Pool, mode: Mode, entry: Entry, bodyOk: bool, e: ExitEnv)
    requires !mode.Reuse?
    ensures var r := Exit(s, mode, entry, bodyOk, e);
            var passed := bodyOk && e.drop.ok && (mode.Instance? ==> e.rolesOk && s.server.roles == entry.before);
            && (r.out.Ok? <==> passed) && !r.out.Blocked?
            && (r.pool.dirty <==> s.dirty || (mode.Instance? && !passed))
            && (r.pool.cleanupError <==> s.cleanupError || (!e.drop.ok && e.drop.published))
            && r.pool.server.dbs == (if e.drop.ok then s.server.dbs - {entry.name} else s.server.dbs)
            && r.pool.seeded == (if e.drop.ok then s.seeded - {entry.name} else s.seeded)
            && r.pool == s.(dirty := r.pool.dirty, cleanupError := r.pool.cleanupError, seeded := r.pool.seeded,
                            server := s.server.(dbs := r.pool.server.dbs))
  {
  }

  // ---------------------------------------------------------------- seeding

  /** Seeding touches the seeds of its own database only, and an empty database has none. */
  lemma SeedFrame(s: Pool, name: Db, profile: Profile, tenants: set<Tenant>, ok: bool, other: Db)
    requires other != name
    ensures var r := Seed(s, name, profile, tenants, ok);
            && r.pool == s.(seeded := r.pool.seeded) && !r.out.Blocked?
            && (other in r.pool.seeded <==> other in s.seeded)
            && (other in s.seeded ==> r.pool.seeded[other] == s.seeded[other])
            && (profile == EMPTY_PROFILE ==> r == Reply(s, Ok(())))
  {
    SeedMarks(s, name, profile, tenants, ok);
  }
}
