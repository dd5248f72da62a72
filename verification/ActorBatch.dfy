/**
 Actor-preparation batching. Cases that share a database enqueue an item each; one
 of the waiting threads elects itself leader, takes the whole queue, prepares it
 outside the lock, and publishes the results or one sticky failure.

 Each step is one critical section, or one statement outside the lock, of
 `prepare_identity`; threads interleave freely.
 */
module ActorBatch {
  import opened Options
  import opened Sequences

  type Job = nat
  type Error = string

  /** How a call ends. */
  datatype Report =
    | Returned
    | Original(error: Error)           // re-raises the error itself
    | DependencyBlocked(error: Error)  // reports somebody else's recorded error
    | Cancelled                        // its own cancellation check raised while waiting

  datatype Phase =
    | Arriving                                 // before the admission section
    | Looping                                  // before testing its `done` flag
    | Polled                                   // flag seen clear, before the election section
    | Leading                                  // elected, batch not yet taken
    | Preparing(batch: seq<Job>)               // working outside the lock
    | Marking(batch: seq<Job>, next: nat)      // failed: writing the error into each member
    | Publishing(batch: seq<Job>)              // before the final section
    | Finished(report: Report)

  /** The shared record for one database; `busy` also remembers who set the flag. */
  datatype State = State(
    pending: seq<Job>,
    busy: Option<Job>,
    error: Option<Error>,
    origin: Option<Job>,
    admitted: set<Job>,
    done: set<Job>,
    failed: map<Job, Error>,       // members whose item carries an error
    spared: set<Job>,              // history: what was finished when preparation failed
    threads: map<Job, Phase>)

  const IDLE := State([], None, None, None, {}, {}, map[], {}, map[])

  datatype Step =
    | Arrive(job: Job)
    | Admit(job: Job)
    | Poll(job: Job)
    | Cancel(job: Job)
    | Elect(job: Job)
    | Take(job: Job)
    | Succeed(job: Job)
    | Fail(job: Job, cause: Error)
    | Mark(job: Job)
    | Publish(job: Job)
    | Finish(job: Job)

  predicate Enabled(s: State, t: Step) {
    if t.Arrive? then t.job !in s.threads
    else
      && t.job in s.threads
      && var phase := s.threads[t.job];
         match t
         case Admit(_) => phase.Arriving?
         case Poll(j) => phase.Looping? && j !in s.done
         case Cancel(j) => phase.Looping? && j !in s.done
         case Elect(_) => phase.Polled?
         case Take(_) => phase.Leading?
         case Succeed(_) => phase.Preparing?
         case Fail(_, _) => phase.Preparing?
         case Mark(_) => phase.Marking? && s.error.Some?
         case Publish(_) => phase.Publishing?
         case Finish(j) => phase.Looping? && j in s.done
  }

  function To(s: State, j: Job, phase: Phase): State {
    s.(threads := s.threads[j := phase])
  }

  function ReportOf(s: State, j: Job): Report {
    if j !in s.failed then Returned
    else if s.origin == Some(j) then Original(s.failed[j])
    else DependencyBlocked(s.failed[j])
  }

  function Apply(s: State, t: Step): State
    requires Enabled(s, t)
  {
    match t
    case Arrive(j) => To(s, j, Arriving)
    case Admit(j) =>
      if s.error.Some? then To(s, j, Finished(DependencyBlocked(s.error.value)))
      else To(s, j, Looping).(pending := s.pending + [j], admitted := s.admitted + {j})
    case Poll(j) => To(s, j, Polled)
    case Cancel(j) => To(s, j, Finished(Cancelled))
    case Elect(j) =>
      if s.busy.None? && s.pending != [] then To(s, j, Leading).(busy := Some(j)) else To(s, j, Looping)
    case Take(j) => To(s, j, Preparing(s.pending)).(pending := [])
    case Succeed(j) => To(s, j, Publishing(s.threads[j].batch))
    case Fail(j, e) =>
      To(s, j, Marking(s.threads[j].batch + s.pending, 0))
      .(origin := Some(j), error := Some(e), pending := [], spared := s.done)
    case Mark(j) =>
      var m := s.threads[j];
      if m.next < |m.batch| then
        To(s, j, m.(next := m.next + 1)).(failed := s.failed[m.batch[m.next] := s.error.value])
      else To(s, j, Publishing(m.batch))
    case Publish(j) =>
      To(s, j, Looping).(busy := None, done := s.done + Elements(s.threads[j].batch))
    case Finish(j) => To(s, j, Finished(ReportOf(s, j)))
  }

  predicate Run(s: State, trace: seq<Step>, end: State)
    decreases |trace|
  {
    if trace == [] then s == end
    else Enabled(s, trace[0]) && Run(Apply(s, trace[0]), trace[1..], end)
  }

  ghost predicate Reachable(s: State) {
    exists trace :: Run(IDLE, trace, s)
  }

  // ---------------------------------------------------------------- invariant

  predicate IsLeader(phase: Phase) {
    phase.Leading? || phase.Preparing? || phase.Marking? || phase.Publishing?
  }

  /** The batch the active leader has taken. */
  function ActiveBatch(s: State): seq<Job> {
    if s.busy.Some? && s.busy.value in s.threads then
      match s.threads[s.busy.value]
      case Preparing(b) => b
      case Marking(b, _) => b
      case Publishing(b) => b
      case _ => []
    else []
  }

  /** Each admitted item is, once, in the queue, in the active batch, or finished. */
  ghost predicate Partition(s: State) {
    multiset(s.pending) + multiset(ActiveBatch(s)) + multiset(s.done) == multiset(s.admitted)
  }

  ghost predicate OneLeader(s: State) {
    && (forall j | j in s.threads && IsLeader(s.threads[j]) :: s.busy == Some(j))
    && (s.busy.Some? ==> s.busy.value in s.threads && IsLeader(s.threads[s.busy.value]))
  }

  /** What the phase of a thread says about the shared record. */
  ghost predicate Local(s: State, j: Job)
    requires j in s.threads
  {
    match s.threads[j]
    case Arriving => j !in s.admitted
    case Leading => s.pending != [] && s.error.None? && j in s.admitted
    case Preparing(b) => b != [] && s.error.None? && j in s.admitted
    case Marking(b, k) =>
      && b != [] && k <= |b| && s.error.Some? && s.origin == Some(j) && j in s.admitted
      && (forall i | 0 <= i < k :: b[i] in s.failed)
    case Publishing(b) =>
      b != [] && j in s.admitted && (s.error.Some? ==> forall i | i in b :: i in s.failed)
    case Finished(Returned) => j in s.done && j !in s.failed
    case Finished(Original(e)) => s.origin == Some(j) && s.error == Some(e) && j in s.failed
    case Finished(DependencyBlocked(e)) => s.error == Some(e) && s.origin.Some? && s.origin != Some(j)
    case _ => j in s.admitted
  }

  ghost predicate Inv(s: State) {
    && OneLeader(s)
    && Partition(s)
    && s.admitted <= s.threads.Keys
    && (s.error.Some? ==> s.pending == [] && s.origin.Some?)
    && (s.error.None? ==> s.failed == map[] && s.origin.None?)
    && (s.origin.Some? ==> s.origin.value in s.admitted)
    && (forall j | j in s.failed :: s.error == Some(s.failed[j]) && (j in s.done || j in ActiveBatch(s)))
    && (forall j | j in s.threads :: Local(s, j))
  }

  // ---------------------------------------------------------------- preservation

  /** Finishing a batch moves its members, once each. */
  lemma BatchIsDistinct(batch: seq<Job>, done: set<Job>, rest: multiset<Job>, all: set<Job>)
    requires rest + multiset(batch) + multiset(done) == multiset(all)
    ensures rest + multiset(done + Elements(batch)) == multiset(all)
    ensures forall j | j in batch :: j !in done
  {
    forall j ensures (rest + multiset(done + Elements(batch)))[j] == multiset(all)[j] {
      assert (rest + multiset(batch) + multiset(done))[j] == rest[j] + multiset(batch)[j] + multiset(done)[j];
      assert multiset(all)[j] <= 1;
      assert j in multiset(batch) <==> j in batch;
    }
    forall j | j in batch ensures j !in done {
      assert j in multiset(batch) && multiset(all)[j] <= 1;
      assert (rest + multiset(batch) + multiset(done))[j] == rest[j] + multiset(batch)[j] + multiset(done)[j];
    }
  }

  /** An item in one place is in no other. */
  lemma Disjoint(s: State, j: Job)
    requires Inv(s)
    ensures !(j in s.pending && j in s.done) && !(j in s.pending && j in ActiveBatch(s))
    ensures !(j in ActiveBatch(s) && j in s.done)
    ensures j in s.admitted <==> j in s.pending || j in ActiveBatch(s) || j in s.done
  {
    var p, b, d := multiset(s.pending), multiset(ActiveBatch(s)), multiset(s.done);
    assert (p + b + d)[j] == p[j] + b[j] + d[j] == multiset(s.admitted)[j] <= 1;
    assert j in s.pending <==> p[j] > 0;
    assert j in ActiveBatch(s) <==> b[j] > 0;
    assert j in s.done <==> d[j] > 0;
  }

  lemma KeepWaiting(s: State, t: Step)
    requires Inv(s) && (t.Arrive? || t.Poll? || t.Cancel? || t.Finish?) && Enabled(s, t)
    ensures Inv(Apply(s, t))
  {
    var s' := Apply(s, t);
    Disjoint(s, t.job);
    assert ActiveBatch(s') == ActiveBatch(s);
    forall j | j in s'.threads ensures Local(s', j) {
      if j != t.job { assert Local(s, j); }
      else if !t.Arrive? { assert Local(s, j); }
    }
  }

  lemma AdmitOne(pending: seq<Job>, batch: multiset<Job>, done: multiset<Job>, admitted: set<Job>, j: Job)
    requires multiset(pending) + batch + done == multiset(admitted) && j !in admitted
    ensures multiset(pending + [j]) + batch + done == multiset(admitted + {j})
  {
    assert multiset(pending + [j]) == multiset(pending) + multiset{j};
    assert multiset(admitted + {j}) == multiset(admitted) + multiset{j};
  }

  lemma KeepAdmit(s: State, t: Step)
    requires Inv(s) && t.Admit? && Enabled(s, t)
    ensures Inv(Apply(s, t))
  {
    var s' := Apply(s, t);
    assert Local(s, t.job);
    assert ActiveBatch(s') == ActiveBatch(s);
    if s.error.None? {
      AdmitOne(s.pending, multiset(ActiveBatch(s)), multiset(s.done), s.admitted, t.job);
    }
    forall j | j in s'.threads && j != t.job ensures Local(s', j) {
      assert Local(s, j);
    }
  }

  lemma KeepElect(s: State, t: Step)
    requires Inv(s) && t.Elect? && Enabled(s, t)
    ensures Inv(Apply(s, t))
  {
    var s' := Apply(s, t);
    assert Local(s, t.job);
    assert ActiveBatch(s') == ActiveBatch(s);
    forall j | j in s'.threads && j != t.job ensures Local(s', j) {
      assert Local(s, j);
    }
  }

  lemma KeepTake(s: State, t: Step)
    requires Inv(s) && (t.Take? || t.Succeed?) && Enabled(s, t)
    ensures Inv(Apply(s, t))
  {
    var s' := Apply(s, t);
    assert Local(s, t.job) && s.busy == Some(t.job);
    assert t.Take? ==> ActiveBatch(s) == [] && ActiveBatch(s') == s.pending;
    assert t.Succeed? ==> ActiveBatch(s') == ActiveBatch(s);
    forall j | j in s'.threads && j != t.job ensures Local(s', j) {
      assert Local(s, j);
    }
  }

  lemma KeepFail(s: State, t: Step)
    requires Inv(s) && t.Fail? && Enabled(s, t)
    ensures Inv(Apply(s, t))
  {
    var s' := Apply(s, t);
    assert Local(s, t.job) && s.busy == Some(t.job);
    assert ActiveBatch(s') == ActiveBatch(s) + s.pending;
    assert multiset(ActiveBatch(s')) == multiset(ActiveBatch(s)) + multiset(s.pending);
    forall j | j in s'.threads && j != t.job ensures Local(s', j) {
      assert Local(s, j);
    }
  }

  lemma KeepMark(s: State, t: Step)
    requires Inv(s) && t.Mark? && Enabled(s, t)
    ensures Inv(Apply(s, t))
  {
    var s', m := Apply(s, t), s.threads[t.job];
    assert Local(s, t.job) && s.busy == Some(t.job);
    assert ActiveBatch(s') == ActiveBatch(s) == m.batch;
    if m.next < |m.batch| {
      assert m.batch[m.next] in ActiveBatch(s);
      Disjoint(s, m.batch[m.next]);
    }
    forall j | j in s'.threads && j != t.job ensures Local(s', j) {
      assert Local(s, j);
    }
  }

  lemma KeepPublish(s: State, t: Step)
    requires Inv(s) && t.Publish? && Enabled(s, t)
    ensures Inv(Apply(s, t))
  {
    var s', batch := Apply(s, t), s.threads[t.job].batch;
    assert Local(s, t.job) && s.busy == Some(t.job);
    BatchIsDistinct(batch, s.done, multiset(s.pending), s.admitted);
    assert ActiveBatch(s') == [];
    forall j | j in s'.threads && j != t.job ensures Local(s', j) {
      assert Local(s, j);
    }
  }

  lemma KeepStep(s: State, t: Step)
    requires Inv(s) && Enabled(s, t)
    ensures Inv(Apply(s, t))
  {
    match t
    case Arrive(_) | Poll(_) | Cancel(_) | Finish(_) => KeepWaiting(s, t);
    case Admit(_) => KeepAdmit(s, t);
    case Elect(_) => KeepElect(s, t);
    case Take(_) | Succeed(_) => KeepTake(s, t);
    case Fail(_, _) => KeepFail(s, t);
    case Mark(_) => KeepMark(s, t);
    case Publish(_) => KeepPublish(s, t);
  }

  lemma {:induction false} KeepRun(s: State, trace: seq<Step>, end: State)
    requires Inv(s) && Run(s, trace, end)
    ensures Inv(end)
    decreases |trace|
  {
    if trace != [] {
      KeepStep(s, trace[0]);
      KeepRun(Apply(s, trace[0]), trace[1..], end);
    }
  }

  lemma ReachableInv(s: State)
    requires Reachable(s)
    ensures Inv(s)
  {
    var trace :| Run(IDLE, trace, s);
    KeepRun(IDLE, trace, s);
  }

  // ---------------------------------------------------------------- theorems

  predicate HasBatch(phase: Phase) {
    phase.Preparing? || phase.Marking? || phase.Publishing?
  }

  /** In every interleaving each admitted item is in exactly one of the queue, the single active
      leader's batch, or the finished set; and a leader's batch is never empty. */
  lemma ItemsArePartitioned(s: State)
    requires Reachable(s)
    ensures multiset(s.pending) + multiset(ActiveBatch(s)) + multiset(s.done) == multiset(s.admitted)
    ensures forall i, j | i in s.threads && j in s.threads && IsLeader(s.threads[i]) && IsLeader(s.threads[j]) :: i == j
    ensures forall j | j in s.threads && HasBatch(s.threads[j]) :: s.threads[j].batch != []
  {
    ReachableInv(s);
    forall j | j in s.threads && HasBatch(s.threads[j]) ensures s.threads[j].batch != [] {
      assert Local(s, j);
    }
  }

  lemma {:induction false} FailureSticks(s: State, trace: seq<Step>, end: State)
    requires Inv(s) && Run(s, trace, end) && s.error.Some?
    ensures end.error == s.error && end.origin == s.origin && end.pending == [] && end.admitted == s.admitted
    decreases |trace|
  {
    if trace != [] {
      var t := trace[0];
      assert t.job in s.threads ==> Local(s, t.job);
      KeepStep(s, t);
      FailureSticks(Apply(s, t), trace[1..], end);
    }
  }

  /** After a failure the queue is and stays empty, nobody is admitted any more, and the recorded
      error never changes, however the run continues. */
  lemma FailureIsSticky(s: State, trace: seq<Step>, end: State)
    requires Reachable(s) && Run(s, trace, end) && s.error.Some?
    ensures s.pending == [] && end.pending == [] && end.admitted == s.admitted && end.error == s.error
  {
    ReachableInv(s);
    FailureSticks(s, trace, end);
  }

  /** At most one job re-raises the original error; every other failed job reports that same error
      as a dependency, and a job that returned did not fail. */
  lemma OneOriginalFailure(s: State, i: Job, j: Job)
    requires Reachable(s) && i in s.threads && j in s.threads
    requires s.threads[i].Finished? && s.threads[j].Finished?
    ensures var a, b := s.threads[i].report, s.threads[j].report;
            && (a.Original? && b.Original? ==> i == j)
            && (a.Original? ==> s.error == Some(a.error))
            && (a.DependencyBlocked? ==> s.error == Some(a.error))
            && (a.Returned? ==> i in s.done && i !in s.failed)
            && (a.Original? && b.DependencyBlocked? ==> i != j && a.error == b.error)
  {
    ReachableInv(s);
    assert Local(s, i) && Local(s, j);
  }
}
