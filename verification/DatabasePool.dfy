/**
 The run-owned PostgreSQL pool: one server, replaced after a fault case leaves it
 unclean, with cached migration templates, shared databases and sticky errors.

 Calls into Docker and SQL are atomic and may fail; each operation takes the
 answers of its environment as a parameter. The functions give the new pool and
 the outcome of every operation; the class below performs them in place.
 */
module DatabasePool {
  import opened Dispatch

  type Profile = string
  type Tenant = string
  type Roles = string      // the comparable text of all roles, memberships and settings

  const EMPTY_PROFILE: Profile := "empty"

  /** A database name is fresh; the generation in it is the server it was created on. */
  datatype Db = Db(generation: nat, serial: nat)

  /** The server behind the pool; `base` is the role state its generation started with. */
  datatype Server = Server(roles: Roles, base: Roles, dbs: set<Db>, serial: nat)

  /** `Raised` is a failure of this very call, `Blocked` a recorded earlier one. */
  datatype Outcome<+T> = Ok(value: T) | Raised | Blocked

  datatype Pool = Pool(
    ready: bool, generation: nat, dirty: bool,
    startError: bool, cleanupError: bool,
    templates: map<Profile, Db>, templateErrors: set<Profile>,
    shared: map<Profile, Db>,
    seeded: map<Db, set<Tenant>>,
    resets: nat,      // resets that completed
    attempts: nat,    // resets that were begun
    server: Server)

  datatype Reply<+T> = Reply(pool: Pool, out: Outcome<T>)

  const INITIAL := Pool(false, 0, false, false, false, map[], {}, map[], map[], 0, 0, Server("", "", {}, 0))

  // ---------------------------------------------------------------- starting and resetting

  /** What the environment answers to a start or a reset: `roles` is the state found afterwards,
      `lost` the databases a failing reset has already destroyed, and `published` whether the
      failure file of a failing start could be written; the error is recorded only after it. */
  datatype StartEnv = StartEnv(resetOk: bool, startOk: bool, published: bool, roles: Roles, lost: set<Db>)

  function Forgotten(s: Pool): Pool {
    s.(templates := map[], templateErrors := {}, shared := map[], seeded := map[])
  }

  function Reset(s: Pool): Pool {
    Forgotten(s).(ready := false, startError := false, dirty := false, cleanupError := false,
                  resets := s.resets + 1, attempts := s.attempts + 1, server := s.server.(dbs := {}))
  }

  /** A reset that failed partway: still due, and already destructive. */
  function HalfReset(s: Pool, e: StartEnv): Pool {
    s.(attempts := s.attempts + 1, server := s.server.(roles := e.roles, dbs := s.server.dbs - e.lost))
  }

  function Postgres(s: Pool, e: StartEnv): Reply<()> {
    if s.dirty && !e.resetOk then Reply(HalfReset(s, e), Raised)
    else
      var s := if s.dirty then Reset(s) else s;
      if s.cleanupError || s.startError then Reply(s, Blocked)
      else if s.ready then Reply(s, Ok(()))
      else if !e.startOk then Reply(s.(startError := e.published), Raised)
      else
        Reply(s.(ready := true, generation := s.generation + 1,
                 server := s.server.(roles := e.roles, base := e.roles)), Ok(()))
  }

  // ---------------------------------------------------------------- databases

  function NewName(s: Pool): Db {
    Db(s.generation, s.server.serial)
  }

  /** CREATE DATABASE under a fresh name; `kept` says whether it exists afterwards. */
  function Create(s: Pool, kept: bool): Pool {
    s.(server := s.server.(serial := s.server.serial + 1,
                           dbs := if kept then s.server.dbs + {NewName(s)} else s.server.dbs))
  }

  /** `left`: whether a failing step leaves its partial database behind; `published`: whether the
      failure file of a failing baseline could be written. */
  datatype CloneEnv = CloneEnv(buildOk: bool, published: bool, cloneOk: bool, left: bool)

  /** Building a baseline: cached, or remembered as failed once its failure file is written. */
  function Baseline(s: Pool, profile: Profile, c: CloneEnv): Reply<Db> {
    var s', name := Create(s, c.buildOk || c.left), NewName(s);
    if c.buildOk then Reply(s'.(templates := s'.templates[profile := name]), Ok(name))
    else Reply(s'.(templateErrors := if c.published then s'.templateErrors + {profile} else s'.templateErrors), Raised)
  }

  function Template(s: Pool, profile: Profile, e: StartEnv, c: CloneEnv): Reply<Db> {
    if profile in s.templates then Reply(s, Ok(s.templates[profile]))
    else
      var r := Postgres(s, e);
      if !r.out.Ok? then Reply(r.pool, if r.out.Raised? then Raised else Blocked)
      else if profile in r.pool.templateErrors then Reply(r.pool, Blocked)
      else Baseline(r.pool, profile, c)
  }

  /** CREATE DATABASE for a case, with what a failure leaves behind. */
  function Copied(s: Pool, c: CloneEnv): Reply<Db> {
    if c.cloneOk then Reply(Create(s, true), Ok(NewName(s))) else Reply(Create(s, c.left), Raised)
  }

  function Clone(s: Pool, profile: Profile, e: StartEnv, c: CloneEnv): Reply<Db> {
    var t := Template(s, profile, e, c);
    if t.out.Ok? then Copied(t.pool, c) else t
  }

  /** The answer to DROP DATABASE, and whether the failure file of a failing one could be written. */
  datatype DropEnv = DropEnv(ok: bool, published: bool)

  /** The server no longer has the database. */
  function Removed(s: Pool, name: Db): Pool {
    s.(server := s.server.(dbs := s.server.dbs - {name}))
  }

  function Unseeded(s: Pool, name: Db): Pool {
    s.(seeded := s.seeded - {name})
  }

  /** A failing drop is recorded once its failure file is written. */
  function Recorded(s: Pool, published: bool): Pool {
    s.(cleanupError := s.cleanupError || published)
  }

  /** Dropping a case's database: success forgets its seeds, a published failure is sticky. */
  function Drop(s: Pool, name: Db, e: DropEnv): Pool {
    if e.ok then Unseeded(Removed(s, name), name) else Recorded(s, e.published)
  }

  // ---------------------------------------------------------------- one `database` context

  /** What entering yields; `before` is the role state an instance case must restore. */
  datatype Entry = Entry(name: Db, before: Roles)

  datatype EnterEnv = EnterEnv(start: StartEnv, rolesOk: bool, clone: CloneEnv, grantOk: bool, drop: DropEnv)

  /** What a disposable database is copied from; an empty one needs no baseline. */
  function Base(s: Pool, profile: Profile, e: StartEnv, c: CloneEnv): Reply<()> {
    if profile == EMPTY_PROFILE then Reply(s, Ok(()))
    else
      var r := Template(s, profile, e, c);
      Reply(r.pool, match r.out case Ok(_) => Ok(()) case Raised => Raised case Blocked => Blocked)
  }

  /** Creating a disposable database; an empty one is granted to its users, and dropped if that fails. */
  function Make(s: Pool, profile: Profile, e: EnterEnv): Reply<Db> {
    if !e.clone.cloneOk || profile != EMPTY_PROFILE || e.grantOk then Copied(s, e.clone)
    else Reply(Drop(Create(s, true), NewName(s), e.drop), Raised)
  }

  /** The body of `disposable` up to its `yield`. */
  function Disposable(s: Pool, profile: Profile, e: EnterEnv): Reply<Db> {
    var r := Postgres(s, e.start);
    if !r.out.Ok? then Reply(r.pool, if r.out.Raised? then Raised else Blocked)
    else
      var t := Base(r.pool, profile, e.start, e.clone);
      if !t.out.Ok? then Reply(t.pool, if t.out.Raised? then Raised else Blocked)
      else Make(t.pool, profile, e)
  }

  /** Everything in `database` between its first `postgres()` and its `yield`. */
  function Provide(s: Pool, profile: Profile, mode: Mode, e: EnterEnv): Reply<Entry> {
    if mode.Reuse? then
      if profile in s.shared then Reply(s, Ok(Entry(s.shared[profile], "")))
      else
        var r := Clone(s, profile, e.start, e.clone);
        if !r.out.Ok? then Reply(r.pool, if r.out.Raised? then Raised else Blocked)
        else Reply(r.pool.(shared := r.pool.shared[profile := r.out.value]), Ok(Entry(r.out.value, "")))
    else if mode.Instance? && !e.rolesOk then Reply(s, Raised)
    else
      var before := s.server.roles;
      var r := Disposable(s, profile, e);
      if r.out.Ok? then Reply(r.pool, Ok(Entry(r.out.value, before)))
      else Reply(r.pool.(dirty := r.pool.dirty || mode.Instance?), if r.out.Raised? then Raised else Blocked)
  }

  datatype ExitEnv = ExitEnv(drop: DropEnv, rolesOk: bool)

  /** Whether a case whose database is gone leaves nothing behind. */
  predicate Clean(s: Pool, mode: Mode, entry: Entry, bodyOk: bool, rolesOk: bool) {
    bodyOk && (mode.Instance? ==> rolesOk && s.server.roles == entry.before)
  }

  /** An exception inside the context of an instance case leaves its pool due for a reset. */
  function Settled(s: Pool, mode: Mode, clean: bool): Pool {
    s.(dirty := s.dirty || (mode.Instance? && !clean))
  }

  /** Leaving the context; `bodyOk` is false when the case raised. */
  function Exit(s: Pool, mode: Mode, entry: Entry, bodyOk: bool, e: ExitEnv): Reply<()> {
    if mode.Reuse? then Reply(s, if bodyOk then Ok(()) else Raised)
    else
      var s := Drop(s, entry.name, e.drop);
      var clean := e.drop.ok && Clean(s, mode, entry, bodyOk, e.rolesOk);
      Reply(Settled(s, mode, clean), if clean then Ok(()) else Raised)
  }

  /** Seeding records a tenant only after its transaction committed. */
  function Seed(s: Pool, name: Db, profile: Profile, tenants: set<Tenant>, ok: bool): Reply<()> {
    if profile == EMPTY_PROFILE then Reply(s, Ok(()))
    else
      var prepared := if name in s.seeded then s.seeded[name] else {};
      if ok || tenants <= prepared then Reply(s.(seeded := s.seeded[name := prepared + tenants]), Ok(()))
      else Reply(s.(seeded := s.seeded[name := prepared]), Raised)
  }

  // ---------------------------------------------------------------- invariants of every operation

  ghost predicate Cached(s: Pool, name: Db) {
    name.generation == s.generation && name.serial < s.server.serial && (s.dirty || name in s.server.dbs)
  }

  /** Every cached name belongs to the current generation, and, unless a reset is due, the cached
      databases exist on its server. */
  ghost predicate Current(s: Pool) {
    && (forall p | p in s.templates :: Cached(s, s.templates[p]))
    && (forall p | p in s.shared :: Cached(s, s.shared[p]))
    && (forall d | d in s.seeded :: d.generation == s.generation && d.serial < s.server.serial)
    && (!s.ready ==> s.templates == map[] && s.shared == map[] && s.seeded == map[])
    && (s.startError ==> !s.ready)
    && (forall d | d in s.server.dbs :: d.serial < s.server.serial)
  }

  /** `name` is a case's own database: nothing cached refers to it. */
  ghost predicate Private(s: Pool, name: Db) {
    && name.generation == s.generation && name.serial < s.server.serial
    && (forall p | p in s.templates :: s.templates[p] != name)
    && (forall p | p in s.shared :: s.shared[p] != name)
  }

  /** The name of a live case: on the current server, and handed out. */
  ghost predicate Live(s: Pool, name: Db) {
    s.ready && name.generation == s.generation && name.serial < s.server.serial
  }

  lemma PostgresCurrent(s: Pool, e: StartEnv)
    requires Current(s)
    ensures Current(Postgres(s, e).pool)
    ensures Postgres(s, e).out.Ok? ==>
              var s' := Postgres(s, e).pool;
              s'.ready && !s'.dirty && !s'.cleanupError && !s'.startError
    ensures s.ready && !s.dirty && Postgres(s, e).out.Ok? ==> Postgres(s, e).pool == s
  {
  }

  /** The same server generation, with more names handed out. */
  ghost predicate Grown(s: Pool, s': Pool) {
    && s'.ready == s.ready && s'.generation == s.generation && s'.resets == s.resets && s'.attempts == s.attempts
    && s'.seeded == s.seeded
    && s'.server.roles == s.server.roles && s'.server.base == s.server.base
    && (s.cleanupError ==> s'.cleanupError)
    && s.server.serial <= s'.server.serial
    && (forall p | p in s'.templates && p !in s.templates :: s.server.serial <= s'.templates[p].serial)
    && (forall p | p in s'.shared && p !in s.shared :: s.server.serial <= s'.shared[p].serial)
    && (forall p | p in s.templates :: p in s'.templates && s'.templates[p] == s.templates[p])
    && (forall p | p in s.shared :: p in s'.shared && s'.shared[p] == s.shared[p])
  }

  /** Only templates and databases were added. */
  ghost predicate Steady(s: Pool, s': Pool) {
    && Grown(s, s')
    && s'.dirty == s.dirty && s'.cleanupError == s.cleanupError && s'.startError == s.startError
    && s'.shared == s.shared && s.server.dbs <= s'.server.dbs
  }

  /** A private name stays private while others are handed out. */
  lemma PrivateGrows(s: Pool, s': Pool, name: Db)
    requires Private(s, name) && Grown(s, s')
    ensures Private(s', name)
  {
    forall p | p in s'.templates ensures s'.templates[p] != name {
      assert p in s.templates ==> s.templates[p] != name;
    }
    forall p | p in s'.shared ensures s'.shared[p] != name {
      assert p in s.shared ==> s.shared[p] != name;
    }
  }

  /** A fresh name is private: no cache refers to it, and no database had it. */
  lemma FreshName(s: Pool, kept: bool)
    requires Current(s) && s.ready
    ensures Current(Create(s, kept)) && Steady(s, Create(s, kept))
    ensures Private(Create(s, kept), NewName(s)) && NewName(s) !in s.server.dbs
  {
  }

  lemma ReadyPostgres(s: Pool, e: StartEnv)
    requires Current(s) && s.ready && !s.dirty
    ensures Postgres(s, e) == Reply(s, if s.cleanupError then Blocked else Ok(()))
  {
  }

  lemma CacheTemplate(s: Pool, s': Pool, profile: Profile)
    requires Current(s) && s.ready && profile !in s.templates
    requires s' == Create(s, true).(templates := s.templates[profile := NewName(s)])
    ensures Current(s') && Steady(s, s')
  {
  }

  lemma TemplateCurrent(s: Pool, profile: Profile, e: StartEnv, c: CloneEnv)
    requires Current(s) && s.ready && !s.dirty
    ensures Current(Template(s, profile, e, c).pool) && Steady(s, Template(s, profile, e, c).pool)
  {
    ReadyPostgres(s, e);
    if profile !in s.templates && !s.cleanupError && profile !in s.templateErrors {
      if c.buildOk {
        CacheTemplate(s, Template(s, profile, e, c).pool, profile);
      } else {
        FreshName(s, c.left);
      }
    }
  }

  lemma CloneCurrent(s: Pool, profile: Profile, e: StartEnv, c: CloneEnv)
    requires Current(s) && s.ready && !s.dirty
    ensures var r := Clone(s, profile, e, c);
            && Current(r.pool) && Steady(s, r.pool)
            && (r.out.Ok? ==> Private(r.pool, r.out.value) && r.out.value in r.pool.server.dbs
                              && s.server.serial <= r.out.value.serial)
  {
    var t := Template(s, profile, e, c);
    TemplateCurrent(s, profile, e, c);
    if t.out.Ok? {
      FreshName(t.pool, c.left);
      FreshName(t.pool, true);
    }
  }

  lemma CopiedCurrent(s: Pool, c: CloneEnv)
    requires Current(s) && s.ready && !s.dirty
    ensures var r := Copied(s, c);
            && Current(r.pool) && Steady(s, r.pool)
            && (r.out.Ok? ==> Private(r.pool, r.out.value) && Live(r.pool, r.out.value))
  {
    FreshName(s, c.left);
    FreshName(s, true);
  }

  lemma BaseCurrent(s: Pool, profile: Profile, e: StartEnv, c: CloneEnv)
    requires Current(s) && s.ready && !s.dirty
    ensures Current(Base(s, profile, e, c).pool) && Steady(s, Base(s, profile, e, c).pool)
  {
    TemplateCurrent(s, profile, e, c);
  }

  /** An empty database whose grant fails is taken away again, or left with a recorded error. */
  lemma UngrantedCurrent(s: Pool, e: DropEnv)
    requires Current(s) && s.ready && !s.dirty
    ensures var s' := Drop(Create(s, true), NewName(s), e);
            Current(s') && Grown(s, s') && !s'.dirty && s'.shared == s.shared
  {
    FreshName(s, true);
    DropCurrent(Create(s, true), NewName(s), e);
    assert NewName(s) !in s.seeded;
    assert s.seeded - {NewName(s)} == s.seeded;
  }

  /** A disposable database is new and private. */
  lemma MakeCurrent(s: Pool, profile: Profile, e: EnterEnv)
    requires Current(s) && s.ready && !s.dirty
    ensures var r := Make(s, profile, e);
            && Current(r.pool) && Grown(s, r.pool) && !r.pool.dirty && r.pool.shared == s.shared
            && (r.out.Ok? ==> Private(r.pool, r.out.value) && r.pool.cleanupError == s.cleanupError)
  {
    CopiedCurrent(s, e.clone);
    UngrantedCurrent(s, e.drop);
  }

  lemma GrownTwice(a: Pool, b: Pool, c: Pool)
    requires Steady(a, b) && Grown(b, c)
    ensures Grown(a, c)
  {
    forall p | p in c.templates && p !in a.templates ensures a.server.serial <= c.templates[p].serial {
      assert p in b.templates ==> c.templates[p] == b.templates[p];
    }
    forall p | p in a.templates ensures p in c.templates && c.templates[p] == a.templates[p] {
      assert p in b.templates && b.templates[p] == a.templates[p];
    }
  }

  lemma DisposableCurrent(s: Pool, profile: Profile, e: EnterEnv)
    requires Current(s) && s.ready && !s.dirty
    ensures var r := Disposable(s, profile, e);
            && Current(r.pool) && Grown(s, r.pool) && !r.pool.dirty && r.pool.shared == s.shared
            && (r.out.Ok? ==> !r.pool.cleanupError && Private(r.pool, r.out.value))
  {
    ReadyPostgres(s, e.start);
    if !s.cleanupError {
      var t := Base(s, profile, e.start, e.clone);
      BaseCurrent(s, profile, e.start, e.clone);
      if t.out.Ok? {
        MakeCurrent(t.pool, profile, e);
        GrownTwice(s, t.pool, Make(t.pool, profile, e).pool);
      }
    }
  }

  /** Entering keeps the caches current, and hands out a database of the current generation:
      a private one unless the case shares it. */
  lemma ProvideCurrent(s: Pool, profile: Profile, mode: Mode, e: EnterEnv)
    requires Current(s) && s.ready && !s.dirty
    ensures var r := Provide(s, profile, mode, e);
            && Current(r.pool) && Grown(s, r.pool)
            && (r.pool.dirty ==> mode.Instance? && !r.out.Ok?)
            && (r.out.Ok? ==> r.out.value.name.generation == s.generation
                              && r.out.value.name.serial < r.pool.server.serial)
            && (r.out.Ok? && mode.Instance? ==> r.out.value.before == s.server.roles)
            && (r.out.Ok? && !mode.Reuse? ==> !r.pool.cleanupError && Private(r.pool, r.out.value.name))
  {
    if mode.Reuse? {
      if profile !in s.shared {
        CloneCurrent(s, profile, e.start, e.clone);
        var r := Clone(s, profile, e.start, e.clone);
        if r.out.Ok? {
          CacheShared(r.pool, Provide(s, profile, mode, e).pool, profile, r.out.value);
        }
      }
    } else if !(mode.Instance? && !e.rolesOk) {
      DisposableCurrent(s, profile, e);
    }
  }

  lemma CacheShared(s: Pool, s': Pool, profile: Profile, name: Db)
    requires Current(s) && s.ready && name in s.server.dbs && name.generation == s.generation
    requires s' == s.(shared := s.shared[profile := name])
    ensures Current(s')
  {
  }

  lemma DropCurrent(s: Pool, name: Db, e: DropEnv)
    requires Current(s) && Private(s, name)
    ensures Current(Drop(s, name, e))
  {
  }

  // ---------------------------------------------------------------- what is remembered

  /** A failed start blocks every later call until a reset, whatever the server would answer, exactly
      when its failure file was written; otherwise the next call tries again. */
  lemma StartFailureSticksIff(s: Pool, e: StartEnv, again: StartEnv)
    requires Current(s) && !s.dirty && Postgres(s, e).out.Raised?
    ensures var s' := Postgres(s, e).pool;
            && (Postgres(s', again).out.Blocked? <==> e.published)
            && (e.published ==> Postgres(s', again).pool == s')
  {
  }

  /** A prepared baseline is handed out again for the whole generation, and a failed one is refused
      without another attempt exactly when its failure was recorded, before or by this call. */
  lemma BaselineIsPreparedOnce(s: Pool, profile: Profile, e: StartEnv, c: CloneEnv, e': StartEnv, c': CloneEnv)
    requires Current(s) && s.ready && !s.dirty && !s.cleanupError
    ensures var r := Template(s, profile, e, c);
            var again := Template(r.pool, profile, e', c');
            && (r.out.Ok? ==> again == r)
            && (!r.out.Ok? ==> (again.out.Blocked? <==> profile in s.templateErrors || c.published))
            && (again.out.Blocked? ==> again.pool == r.pool)
  {
    TemplateCurrent(s, profile, e, c);
    ReadyPostgres(s, e);
    ReadyPostgres(Template(s, profile, e, c).pool, e');
  }

  /** Cases that reuse a profile share one database for the whole generation. */
  lemma SharedDatabaseIsOne(s: Pool, profile: Profile, e: EnterEnv, e': EnterEnv)
    requires Provide(s, profile, Reuse, e).out.Ok?
    ensures var r := Provide(s, profile, Reuse, e);
            Provide(r.pool, profile, Reuse, e') == r
  {
  }

  /** Tenants count as prepared exactly when prepared before or committed by this call, and the
      call succeeds exactly when all of them are. */
  lemma SeedsAreCommitted(s: Pool, name: Db, profile: Profile, tenants: set<Tenant>, ok: bool)
    requires profile != EMPTY_PROFILE
    ensures var r := Seed(s, name, profile, tenants, ok);
            && name in r.pool.seeded
            && (forall t :: t in r.pool.seeded[name] <==>
                  (name in s.seeded && t in s.seeded[name]) || (ok && t in tenants))
            && (r.out.Ok? <==> tenants <= r.pool.seeded[name])
  {
  }

  /** Once prepared, the same tenants need no further transaction. */
  lemma SeedingIsIdempotent(s: Pool, name: Db, profile: Profile, tenants: set<Tenant>, ok: bool, again: bool)
    requires Seed(s, name, profile, tenants, ok).out.Ok?
    ensures var r := Seed(s, name, profile, tenants, ok);
            Seed(r.pool, name, profile, tenants, again) == r
  {
    var s' := Seed(s, name, profile, tenants, ok).pool;
    if profile != EMPTY_PROFILE {
      assert tenants <= s'.seeded[name];
      assert s'.seeded[name := s'.seeded[name]] == s'.seeded;
    }
  }

  // ---------------------------------------------------------------- what leaving and seeding touch

  /** Only databases, seeds and marks of trouble differ, and no mark was removed. */
  ghost predicate Marked(s: Pool, s': Pool) {
    && s' == s.(seeded := s'.seeded, cleanupError := s'.cleanupError, dirty := s'.dirty,
                server := s.server.(dbs := s'.server.dbs))
    && (s.cleanupError ==> s'.cleanupError) && (s.dirty ==> s'.dirty)
  }

  lemma SeedMarks(s: Pool, name: Db, profile: Profile, tenants: set<Tenant>, ok: bool)
    ensures var s' := Seed(s, name, profile, tenants, ok).pool;
            s' == s.(seeded := s'.seeded)
  {
  }

  // ---------------------------------------------------------------- from any state

  lemma TemplateKeeps(s: Pool, profile: Profile, e: StartEnv, c: CloneEnv)
    requires Current(s)
    ensures Current(Template(s, profile, e, c).pool)
    ensures Template(s, profile, e, c).out.Ok? ==> Template(s, profile, e, c).pool.ready
  {
    var r := Postgres(s, e);
    PostgresCurrent(s, e);
    if profile !in s.templates && r.out.Ok? {
      ReadyPostgres(r.pool, e);
      assert Template(s, profile, e, c) == Template(r.pool, profile, e, c);
      TemplateCurrent(r.pool, profile, e, c);
    }
  }

  lemma CloneKeeps(s: Pool, profile: Profile, e: StartEnv, c: CloneEnv)
    requires Current(s)
    ensures Current(Clone(s, profile, e, c).pool)
    ensures var r := Clone(s, profile, e, c);
            r.out.Ok? ==>
              r.pool.ready && r.out.value in r.pool.server.dbs && r.out.value.generation == r.pool.generation
  {
    var t := Template(s, profile, e, c);
    TemplateKeeps(s, profile, e, c);
    if t.out.Ok? {
      FreshName(t.pool, c.left);
      FreshName(t.pool, true);
    }
  }

  lemma DisposableKeeps(s: Pool, profile: Profile, e: EnterEnv)
    requires Current(s)
    ensures Current(Disposable(s, profile, e).pool)
  {
    var r := Postgres(s, e.start);
    PostgresCurrent(s, e.start);
    if r.out.Ok? {
      ReadyPostgres(r.pool, e.start);
      assert Disposable(s, profile, e) == Disposable(r.pool, profile, e);
      DisposableCurrent(r.pool, profile, e);
    }
  }

  lemma ProvideKeeps(s: Pool, profile: Profile, mode: Mode, e: EnterEnv)
    requires Current(s)
    ensures Current(Provide(s, profile, mode, e).pool)
  {
    if mode.Reuse? {
      var r := Clone(s, profile, e.start, e.clone);
      CloneKeeps(s, profile, e.start, e.clone);
      if profile !in s.shared && r.out.Ok? {
        CacheShared(r.pool, Provide(s, profile, mode, e).pool, profile, r.out.value);
      }
    } else {
      DisposableKeeps(s, profile, e);
      DirtyKeeps(Disposable(s, profile, e).pool);
    }
  }

  lemma DirtyKeeps(s: Pool)
    requires Current(s)
    ensures Current(s.(dirty := true))
  {
    assert forall name | Cached(s, name) :: Cached(s.(dirty := true), name);
  }

  lemma RemovedCurrent(s: Pool, name: Db)
    requires Current(s) && Private(s, name)
    ensures Current(Removed(s, name)) && Marked(s, Removed(s, name))
  {
  }

  /** Settling after seeds were forgotten or an error was recorded. */
  lemma SettledCurrent(s: Pool, s1: Pool, mode: Mode, clean: bool)
    requires Current(s) && Marked(s, s1) && s1.server == s.server && s1.seeded.Keys <= s.seeded.Keys
    ensures var s' := Settled(s1, mode, clean);
            Current(s') && Marked(s, s') && (!mode.Instance? ==> s'.dirty == s1.dirty)
  {
    assert forall name | Cached(s, name) :: Cached(Settled(s1, mode, clean), name);
  }

  lemma ExitKeeps(s: Pool, mode: Mode, entry: Entry, bodyOk: bool, e: ExitEnv)
    requires Current(s) && (mode.Reuse? || Private(s, entry.name))
    ensures Current(Exit(s, mode, entry, bodyOk, e).pool)
  {
    if !mode.Reuse? {
      DropCurrent(s, entry.name, e.drop);
      DirtyKeeps(Drop(s, entry.name, e.drop));
    }
  }

  lemma SeedKeeps(s: Pool, name: Db, profile: Profile, tenants: set<Tenant>, ok: bool)
    requires Current(s) && Live(s, name)
    ensures Current(Seed(s, name, profile, tenants, ok).pool)
  {
    var s' := Seed(s, name, profile, tenants, ok).pool;
    assert forall d | Cached(s, d) :: Cached(s', d);
  }

  // ---------------------------------------------------------------- the pool object

  /** The pool as the runner holds it: fields updated in place by each operation. Every operation
      keeps the caches current, from any state in which they are. */
  class RunPool {
    var ready: bool
    var generation: nat
    var dirty: bool
    var startError: bool
    var cleanupError: bool
    var templates: map<Profile, Db>
    var templateErrors: set<Profile>
    var shared: map<Profile, Db>
    var seeded: map<Db, set<Tenant>>
    var resets: nat
    var attempts: nat
    var server: Server

    constructor ()
      ensures State() == INITIAL && Current(State())
    {
      ready, generation, dirty, startError, cleanupError := false, 0, false, false, false;
      templates, templateErrors, shared, seeded := map[], {}, map[], map[];
      resets, attempts, server := 0, 0, Server("", "", {}, 0);
    }

    ghost function State(): Pool
      reads this
    {
      Pool(ready, generation, dirty, startError, cleanupError, templates, templateErrors, shared, seeded,
           resets, attempts, server)
    }

    method ForgetDatabases()
      modifies this
      ensures State() == Forgotten(old(State()))
    {
      templates, templateErrors := map[], {};
      shared, seeded := map[], map[];
    }

    /** Everything known about a server that is gone. */
    method ForgetServer()
      modifies this
      ensures State() == Reset(old(State())).(attempts := old(attempts))
    {
      ForgetDatabases();
      ready, startError, dirty, cleanupError := false, false, false, false;
      resets, server := resets + 1, server.(dbs := {});
    }

    method BeginReset(e: StartEnv)
      modifies this`attempts, this`server
      ensures State() == if e.resetOk then old(State()).(attempts := old(attempts) + 1) else HalfReset(old(State()), e)
    {
      attempts := attempts + 1;
      if !e.resetOk {
        server := server.(roles := e.roles, dbs := server.dbs - e.lost);
      }
    }

    /** The part of `postgres()` that replaces an unclean server. */
    method ReplaceServer(e: StartEnv) returns (ok: bool)
      modifies this
      ensures ok <==> !old(dirty) || e.resetOk
      ensures State() == if !old(dirty) then old(State())
                         else if ok then Reset(old(State()))
                         else HalfReset(old(State()), e)
    {
      ok := true;
      if dirty {
        BeginReset(e);
        ok := e.resetOk;
        if ok { ForgetServer(); }
      }
    }

    method EnsurePostgres(e: StartEnv) returns (out: Outcome<()>)
      modifies this
      ensures State() == Postgres(old(State()), e).pool && out == Postgres(old(State()), e).out
      ensures old(Current(State())) ==> Current(State())
    {
      if Current(State()) { PostgresCurrent(State(), e); }
      var replaced := ReplaceServer(e);
      if !replaced { return Raised; }
      if cleanupError { return Blocked; }
      if startError { return Blocked; }
      if !ready {
        if !e.startOk {
          startError := e.published;
          return Raised;
        }
        server := server.(roles := e.roles, base := e.roles);
        ready := true;
        generation := generation + 1;
      }
      return Ok(());
    }

    method CreateDatabase(kept: bool) returns (name: Db)
      modifies this`server
      ensures State() == Create(old(State()), kept) && name == NewName(old(State()))
    {
      name := Db(generation, server.serial);
      server := server.(serial := server.serial + 1, dbs := if kept then server.dbs + {name} else server.dbs);
    }

    method BuildBaseline(profile: Profile, c: CloneEnv) returns (out: Outcome<Db>)
      modifies this
      ensures State() == Baseline(old(State()), profile, c).pool && out == Baseline(old(State()), profile, c).out
    {
      var name := CreateDatabase(c.buildOk || c.left);
      if !c.buildOk {
        if c.published { templateErrors := templateErrors + {profile}; }
        return Raised;
      }
      templates := templates[profile := name];
      return Ok(name);
    }

    method EnsureTemplate(profile: Profile, e: StartEnv, c: CloneEnv) returns (out: Outcome<Db>)
      modifies this
      ensures State() == Template(old(State()), profile, e, c).pool
      ensures out == Template(old(State()), profile, e, c).out
      ensures old(Current(State())) ==> Current(State())
    {
      if Current(State()) { TemplateKeeps(State(), profile, e, c); }
      if profile in templates {
        return Ok(templates[profile]);
      }
      var started := EnsurePostgres(e);
      if started.Raised? { return Raised; }
      if started.Blocked? { return Blocked; }
      if profile in templateErrors { return Blocked; }
      started := EnsurePostgres(e);         // asked again inside the `try`
      out := BuildBaseline(profile, c);
    }

    method CloneTemplate(profile: Profile, e: StartEnv, c: CloneEnv) returns (out: Outcome<Db>)
      modifies this
      ensures State() == Clone(old(State()), profile, e, c).pool && out == Clone(old(State()), profile, e, c).out
      ensures old(Current(State())) ==> Current(State())
    {
      if Current(State()) { CloneKeeps(State(), profile, e, c); }
      out := EnsureTemplate(profile, e, c);
      if out.Ok? {
        var name := CreateDatabase(c.cloneOk || c.left);
        out := if c.cloneOk then Ok(name) else Raised;
      }
    }

    method DropDatabase(name: Db, e: DropEnv)
      modifies this
      ensures State() == Drop(old(State()), name, e)
      ensures old(Current(State()) && Private(State(), name)) ==> Current(State())
    {
      if Current(State()) && Private(State(), name) { DropCurrent(State(), name, e); }
      if e.ok {
        server := server.(dbs := server.dbs - {name});
        seeded := seeded - {name};
      } else if e.published {
        cleanupError := true;
      }
    }

    method OpenDisposable(profile: Profile, e: EnterEnv) returns (out: Outcome<Db>)
      modifies this
      ensures State() == Disposable(old(State()), profile, e).pool && out == Disposable(old(State()), profile, e).out
      ensures old(Current(State())) ==> Current(State())
    {
      if Current(State()) { DisposableKeeps(State(), profile, e); }
      var started := EnsurePostgres(e.start);
      if started.Raised? { return Raised; }
      if started.Blocked? { return Blocked; }
      if profile != EMPTY_PROFILE {
        out := CloneTemplate(profile, e.start, e.clone);
        return;
      }
      var name := CreateDatabase(e.clone.cloneOk || e.clone.left);
      if !e.clone.cloneOk { return Raised; }
      if !e.grantOk {
        DropDatabase(name, e.drop);
        return Raised;
      }
      return Ok(name);
    }

    /** `database` after its first `postgres()`, up to its `yield`. */
    method OpenDatabase(profile: Profile, mode: Mode, e: EnterEnv) returns (out: Outcome<Entry>)
      modifies this
      ensures State() == Provide(old(State()), profile, mode, e).pool
      ensures out == Provide(old(State()), profile, mode, e).out
      ensures old(Current(State())) ==> Current(State())
    {
      if Current(State()) { ProvideKeeps(State(), profile, mode, e); }
      if mode.Reuse? {
        if profile !in shared {
          var cloned := CloneTemplate(profile, e.start, e.clone);
          if cloned.Raised? { return Raised; }
          if cloned.Blocked? { return Blocked; }
          shared := shared[profile := cloned.value];
        }
        return Ok(Entry(shared[profile], ""));
      }
      if mode.Instance? && !e.rolesOk { return Raised; }
      var before := server.roles;
      var given := OpenDisposable(profile, e);
      if given.Ok? { return Ok(Entry(given.value, before)); }
      if mode.Instance? { dirty := true; }
      return if given.Raised? then Raised else Blocked;
    }

    /** All of `database` up to its `yield`: what a case is given is of the current generation,
        and its own unless it shares it. */
    method EnterDatabase(profile: Profile, mode: Mode, first: StartEnv, e: EnterEnv) returns (out: Outcome<Entry>)
      requires Current(State())
      modifies this
      ensures Current(State())
      ensures out.Ok? ==> Live(State(), out.value.name) && (mode.Reuse? || Private(State(), out.value.name))
      ensures out.Ok? && old(cleanupError) ==> resets > old(resets)
    {
      PostgresCurrent(State(), first);
      var started := EnsurePostgres(first);
      if started.Raised? { return Raised; }
      if started.Blocked? { return Blocked; }
      ProvideCurrent(State(), profile, mode, e);
      out := OpenDatabase(profile, mode, e);
    }

    method CloseDatabase(mode: Mode, entry: Entry, bodyOk: bool, e: ExitEnv) returns (out: Outcome<()>)
      modifies this
      ensures State() == Exit(old(State()), mode, entry, bodyOk, e).pool
      ensures out == Exit(old(State()), mode, entry, bodyOk, e).out
      ensures old(Current(State()) && (mode.Reuse? || Private(State(), entry.name))) ==> Current(State())
    {
      if Current(State()) && (mode.Reuse? || Private(State(), entry.name)) {
        ExitKeeps(State(), mode, entry, bodyOk, e);
      }
      if mode.Reuse? { return if bodyOk then Ok(()) else Raised; }
      DropDatabase(entry.name, e.drop);
      var clean := IsClean(mode, entry, bodyOk, e.rolesOk);
      out := Settle(mode, e.drop.ok && clean);
    }

    method IsClean(mode: Mode, entry: Entry, bodyOk: bool, rolesOk: bool) returns (clean: bool)
      ensures clean == Clean(State(), mode, entry, bodyOk, rolesOk)
    {
      clean := bodyOk;
      if clean && mode.Instance? {
        clean := rolesOk && server.roles == entry.before;
      }
    }

    method Settle(mode: Mode, clean: bool) returns (out: Outcome<()>)
      modifies this`dirty
      ensures State() == Settled(old(State()), mode, clean) && out == (if clean then Ok(()) else Raised)
    {
      if clean { return Ok(()); }
      if mode.Instance? { dirty := true; }
      return Raised;
    }

    /** Prepare and record the tenants that a database lacks. */
    method SeedMissing(name: Db, tenants: set<Tenant>, ok: bool) returns (out: Outcome<()>)
      modifies this`seeded
      ensures var prepared := if name in old(seeded) then old(seeded)[name] else {};
              && out == (if ok || tenants <= prepared then Ok(()) else Raised)
              && seeded == old(seeded)[name := if out.Ok? then prepared + tenants else prepared]
    {
      var prepared := if name in seeded then seeded[name] else {};
      seeded := seeded[name := prepared];
      var missing := tenants - prepared;
      if missing == {} {
        assert forall t | t in tenants :: t in prepared || t in missing;
        assert prepared + tenants == prepared;
        return Ok(());
      }
      if !ok { return Raised; }
      seeded := seeded[name := prepared + missing];
      assert prepared + missing == prepared + tenants;
      return Ok(());
    }

    method SeedTenants(name: Db, profile: Profile, tenants: set<Tenant>, ok: bool) returns (out: Outcome<()>)
      modifies this`seeded
      ensures State() == Seed(old(State()), name, profile, tenants, ok).pool
      ensures out == Seed(old(State()), name, profile, tenants, ok).out
      ensures old(Current(State()) && Live(State(), name)) ==> Current(State())
    {
      if Current(State()) && Live(State(), name) { SeedKeeps(State(), name, profile, tenants, ok); }
      if profile == EMPTY_PROFILE { return Ok(()); }
      out := SeedMissing(name, tenants, ok);
    }
  }
}
