/**
 The case scheduler. `Dispatch` starts cases on a bounded worker pool, never two
 "instance" (fault) cases at once, and yields every invocation. Its log records
 what it did; the environment decides which running cases complete and when the
 run is cancelled.
 */
module Dispatch {
  import opened Sequences

  /** A case's database policy; only `Instance` cases disturb the whole server. */
  datatype Mode = NoDatabase | Reuse | Fresh | Instance

  datatype Job = Job(name: string, mode: Mode)

  datatype Event =
    | Start(job: nat)                 // submitted to a worker
    | Cancel                          // the scheduler found the run cancelled
    | Wait                            // the scheduler blocks; a worker may idle
    | Finish(job: nat)                // completed and yielded with its outcome
    | NeverStarted(job: nat)          // yielded as cancelled before start
    | Lost(job: nat)                  // its result raised, or it was awaited after another's had

  /** What the scheduler did, latest event last. */
  datatype Log = Empty | Then(before: Log, event: Event)

  // ---------------------------------------------------------------- replay

  function Started(log: Log): set<nat> {
    match log
    case Empty => {}
    case Then(before, e) => Started(before) + if e.Start? then {e.job} else {}
  }

  function Yielded(log: Log): set<nat> {
    match log
    case Empty => {}
    case Then(before, e) => Yielded(before) + if e.Finish? || e.NeverStarted? then {e.job} else {}
  }

  /** Yielded as cancelled before start. */
  function GivenUp(log: Log): set<nat> {
    match log
    case Empty => {}
    case Then(before, e) => GivenUp(before) + if e.NeverStarted? then {e.job} else {}
  }

  predicate Cancelled(log: Log) {
    log.Then? && (log.event.Cancel? || Cancelled(log.before))
  }

  /** Ended without being yielded: the first one raised out of the scheduler. */
  function Dropped(log: Log): set<nat> {
    match log
    case Empty => {}
    case Then(before, e) => Dropped(before) + if e.Lost? then {e.job} else {}
  }

  function Running(log: Log): set<nat> {
    match log
    case Empty => {}
    case Then(before, Start(j)) => Running(before) + {j}
    case Then(before, Finish(j)) => Running(before) - {j}
    case Then(before, Lost(j)) => Running(before) - {j}
    case Then(before, _) => Running(before)
  }

  predicate FaultActive(jobs: seq<Job>, running: set<nat>) {
    exists j | j in running :: j < |jobs| && jobs[j].mode.Instance?
  }

  /** The reason a queued case is passed over. */
  predicate Blocked(jobs: seq<Job>, running: set<nat>, j: nat)
    requires j < |jobs|
  {
    jobs[j].mode.Instance? && FaultActive(jobs, running)
  }

  /** Each invocation starts and ends at most once, nothing starts after cancellation and nothing is
      given up without it, and nothing but waiting for the rest follows a raised result. */
  ghost predicate Orderly(jobs: seq<Job>, log: Log, e: Event) {
    match e
    case Start(j) =>
      Dropped(log) == {} && !Cancelled(log) && j < |jobs| && j !in Started(log) && j !in Yielded(log)
    case Cancel => Dropped(log) == {} && !Cancelled(log)
    case Wait => Dropped(log) == {}
    case Finish(j) => Dropped(log) == {} && j in Running(log)
    case NeverStarted(j) =>
      Dropped(log) == {} && Cancelled(log) && j < |jobs| && j !in Started(log) && j !in Yielded(log)
    case Lost(j) => j in Running(log)
  }

  ghost predicate OrderlyLog(jobs: seq<Job>, log: Log) {
    log.Then? ==> OrderlyLog(jobs, log.before) && Orderly(jobs, log.before, log.event)
  }

  /** The scheduling policy: bounds, queue order, and no idling without need. */
  ghost predicate Scheduled(
    jobs: seq<Job>, workers: nat, cancelled: bool, started: set<nat>, yielded: set<nat>, running: set<nat>, e: Event)
  {
    match e
    case Start(j) =>
      && j < |jobs| && |running| < workers && !Blocked(jobs, running, j)
      && (forall i | 0 <= i < j && i !in started :: Blocked(jobs, running, i))
    case Wait =>
      && running != {}
      && (|running| < workers && !cancelled ==>
            forall i | 0 <= i < |jobs| && i !in started :: Blocked(jobs, running, i))
    case NeverStarted(j) => running == {} && forall i | 0 <= i < j && i !in started :: i in yielded
    case _ => true
  }

  /** What the scheduler may do after `log`. */
  ghost predicate Legal(jobs: seq<Job>, workers: nat, log: Log, e: Event) {
    && Orderly(jobs, log, e)
    && Scheduled(jobs, workers, Cancelled(log), Started(log), Yielded(log), Running(log), e)
  }

  ghost predicate LegalLog(jobs: seq<Job>, workers: nat, log: Log) {
    log.Then? ==> LegalLog(jobs, workers, log.before) && Legal(jobs, workers, log.before, log.event)
  }

  /** What the scheduler meets: whether it finds the run cancelled once its log stands so, and whose
      result raises. */
  datatype World = World(flag: Log -> bool, raises: nat -> bool)

  /** Nothing is started with the flag set, and it is reported only then; only results that do not
      raise are yielded, and the first one lost is one that does. */
  ghost predicate Obeys(w: World, log: Log) {
    log.Then? ==>
      && Obeys(w, log.before)
      && match log.event
         case Start(_) => !w.flag(log.before)
         case Cancel => w.flag(log.before)
         case Finish(j) => !w.raises(j)
         case Lost(j) => Dropped(log.before) == {} ==> w.raises(j)
         case _ => true
  }

  lemma LegalStep(jobs: seq<Job>, workers: nat, log: Log, e: Event)
    requires LegalLog(jobs, workers, log) && Legal(jobs, workers, log, e)
    ensures LegalLog(jobs, workers, Then(log, e))
  {
  }

  // ---------------------------------------------------------------- scheduler

  predicate Increasing(xs: seq<nat>) {
    forall a, b | 0 <= a < b < |xs| :: xs[a] < xs[b]
  }

  function Upto(n: nat): (r: set<nat>)
    ensures forall j: nat :: j in r <==> j < n
  {
    if n == 0 then {} else Upto(n - 1) + {n - 1}
  }

  function All(jobs: seq<Job>): set<nat> {
    Upto(|jobs|)
  }

  function Queued(jobs: seq<Job>, log: Log): set<nat> {
    All(jobs) - Started(log) - Yielded(log)
  }

  /** The scheduler's variables between two statements agree with what it did so far: `pending`
      is, in queue order, what was neither started nor yielded. */
  ghost predicate Consistent(jobs: seq<Job>, workers: nat, log: Log, pending: seq<nat>, running: set<nat>) {
    && LegalLog(jobs, workers, log)
    && Increasing(pending) && Elements(pending) == Queued(jobs, log)
    && Dropped(log) == {} && running == Running(log) && |running| <= workers
    && running <= Started(log) && Yielded(log) <= Started(log) <= All(jobs)
  }

  lemma InRange(jobs: seq<Job>, log: Log, pending: seq<nat>)
    requires Elements(pending) == Queued(jobs, log)
    ensures forall k | 0 <= k < |pending| :: pending[k] < |jobs|
  {
    forall k | 0 <= k < |pending| ensures pending[k] < |jobs| {
      assert pending[k] in Elements(pending);
    }
  }

  /** The first queued case that may run, as `next(...)` finds it. */
  method FirstRunnable(jobs: seq<Job>, pending: seq<nat>, faultActive: bool) returns (index: nat)
    requires forall k | 0 <= k < |pending| :: pending[k] < |jobs|
    ensures index <= |pending|
    ensures index < |pending| ==> !(jobs[pending[index]].mode.Instance? && faultActive)
    ensures forall k | 0 <= k < index :: jobs[pending[k]].mode.Instance? && faultActive
    ensures index > 0 ==> faultActive
  {
    index := 0;
    while index < |pending| && jobs[pending[index]].mode.Instance? && faultActive
      invariant index <= |pending|
      invariant forall k | 0 <= k < index :: jobs[pending[k]].mode.Instance? && faultActive
      invariant index > 0 ==> faultActive
    {
      index := index + 1;
    }
  }

  lemma RemoveAt(xs: seq<nat>, index: nat, rest: seq<nat>)
    requires Increasing(xs) && index < |xs| && rest == xs[..index] + xs[index + 1..]
    ensures Increasing(rest) && Elements(rest) == Elements(xs) - {xs[index]} && xs[index] in Elements(xs)
  {
    forall x | x in xs && x != xs[index] ensures x in rest {
      var k :| 0 <= k < |xs| && xs[k] == x;
      assert rest[if k < index then k else k - 1] == x;
    }
  }

  lemma FirstIsScheduled(
    jobs: seq<Job>, workers: nat, started: set<nat>, yielded: set<nat>, pending: seq<nat>, running: set<nat>,
    index: nat)
    requires Increasing(pending) && Elements(pending) == All(jobs) - started - yielded && yielded <= started
    requires |running| < workers && index < |pending| && forall k | 0 <= k < |pending| :: pending[k] < |jobs|
    requires !Blocked(jobs, running, pending[index])
    requires forall k | 0 <= k < index :: Blocked(jobs, running, pending[k])
    ensures Scheduled(jobs, workers, false, started, yielded, running, Start(pending[index]))
    ensures pending[index] !in started && pending[index] !in yielded
  {
    assert pending[index] in Elements(pending);
    forall i | 0 <= i < pending[index] && i !in started ensures Blocked(jobs, running, i) {
      assert i in Elements(pending);
      var k :| 0 <= k < |pending| && pending[k] == i;
    }
  }

  lemma StartIsLegal(jobs: seq<Job>, workers: nat, log: Log, pending: seq<nat>, running: set<nat>, index: nat)
    requires Consistent(jobs, workers, log, pending, running) && |running| < workers && !Cancelled(log)
    requires index < |pending| && forall k | 0 <= k < |pending| :: pending[k] < |jobs|
    requires !Blocked(jobs, running, pending[index])
    requires forall k | 0 <= k < index :: Blocked(jobs, running, pending[k])
    ensures Legal(jobs, workers, log, Start(pending[index]))
  {
    FirstIsScheduled(jobs, workers, Started(log), Yielded(log), pending, running, index);
  }

  lemma FaultAfterStart(jobs: seq<Job>, running: set<nat>, j: nat)
    requires j < |jobs|
    ensures FaultActive(jobs, running + {j}) <==> FaultActive(jobs, running) || jobs[j].mode.Instance?
  {
    assert j in running + {j};
    if FaultActive(jobs, running) {
      var f :| f in running && f < |jobs| && jobs[f].mode.Instance?;
      assert f in running + {j};
    }
  }

  lemma StartedSets(all: set<nat>, started: set<nat>, yielded: set<nat>, running: set<nat>, j: nat)
    requires running <= started && yielded <= started <= all && j in all && j !in started
    ensures all - (started + {j}) - yielded == (all - started - yielded) - {j}
    ensures running + {j} <= started + {j} && yielded <= started + {j} <= all && |running + {j}| == |running| + 1
  {
  }

  lemma StartedLog(log: Log, j: nat)
    ensures var log' := Then(log, Start(j));
            && Dropped(log') == Dropped(log) && Running(log') == Running(log) + {j}
            && Started(log') == Started(log) + {j} && Yielded(log') == Yielded(log)
  {
  }

  lemma AfterStart(jobs: seq<Job>, workers: nat, log: Log, pending: seq<nat>, running: set<nat>, j: nat,
                   rest: seq<nat>)
    requires Consistent(jobs, workers, log, pending, running) && Legal(jobs, workers, log, Start(j))
    requires Increasing(rest) && Elements(rest) == Elements(pending) - {j}
    ensures Consistent(jobs, workers, Then(log, Start(j)), rest, running + {j})
  {
    StartedSets(All(jobs), Started(log), Yielded(log), running, j);
    StartedLog(log, j);
    LegalStep(jobs, workers, log, Start(j));
  }

  lemma AfterCancel(jobs: seq<Job>, workers: nat, log: Log, pending: seq<nat>, running: set<nat>)
    requires Consistent(jobs, workers, log, pending, running) && !Cancelled(log)
    ensures Consistent(jobs, workers, Then(log, Cancel), pending, running)
  {
    LegalStep(jobs, workers, log, Cancel);
    Unchanged(log, Cancel);
  }

  /** The inner loop: submit while a worker is free, a case is runnable and nobody cancelled. */
  method Fill(
    w: World, jobs: seq<Job>, workers: nat, log0: Log, pending0: seq<nat>, running0: set<nat>, cancelled0: bool)
    returns (log: Log, pending: seq<nat>, running: set<nat>, cancelled: bool)
    requires workers > 0 && Consistent(jobs, workers, log0, pending0, running0) && cancelled0 == Cancelled(log0)
    requires Obeys(w, log0)
    ensures Obeys(w, log)
    ensures Consistent(jobs, workers, log, pending, running) && cancelled == Cancelled(log)
    ensures |pending| + |running| == |pending0| + |running0|
    ensures cancelled0 ==> log == log0 && pending == pending0 && running == running0
    ensures running == {} && pending != [] ==> cancelled     // nothing blocks a case when nothing runs
    ensures |running| < workers && !cancelled ==> forall j | j in Queued(jobs, log) :: Blocked(jobs, running, j)
  {
    log, pending, running, cancelled := log0, pending0, running0, cancelled0;
    var faultActive := FaultActive(jobs, running);
    while pending != [] && |running| < workers && !cancelled
      invariant Consistent(jobs, workers, log, pending, running) && cancelled == Cancelled(log) && Obeys(w, log)
      invariant |pending| + |running| == |pending0| + |running0|
      invariant faultActive == FaultActive(jobs, running)
      invariant cancelled0 ==> log == log0 && pending == pending0 && running == running0
      decreases |pending|, !cancelled
    {
      cancelled := w.flag(log);         // another thread may set it at any time
      if cancelled {
        AfterCancel(jobs, workers, log, pending, running);
        log := Then(log, Cancel);
        break;
      }
      InRange(jobs, log, pending);
      var index := FirstRunnable(jobs, pending, faultActive);
      if index == |pending| {
        assert forall j | j in Elements(pending) :: Blocked(jobs, running, j);
        break;
      }
      log, pending, running, faultActive := Submit(w, jobs, workers, log, pending, running, index, faultActive);
    }
  }

  /** Take the case at `index` out of the queue and hand it to a worker. */
  method Submit(ghost w: World, jobs: seq<Job>, workers: nat, log0: Log, pending0: seq<nat>, running0: set<nat>,
                index: nat, fault0: bool)
    returns (log: Log, pending: seq<nat>, running: set<nat>, faultActive: bool)
    requires Consistent(jobs, workers, log0, pending0, running0) && |running0| < workers && !Cancelled(log0)
    requires index < |pending0| && (forall k | 0 <= k < |pending0| :: pending0[k] < |jobs|)
    requires !Blocked(jobs, running0, pending0[index])
    requires forall k | 0 <= k < index :: Blocked(jobs, running0, pending0[k])
    requires fault0 == FaultActive(jobs, running0) && Obeys(w, log0) && !w.flag(log0)
    ensures Consistent(jobs, workers, log, pending, running) && Obeys(w, log) && !Cancelled(log)
    ensures log == Then(log0, Start(pending0[index])) && running == running0 + {pending0[index]}
    ensures |pending| == |pending0| - 1 && |running| == |running0| + 1
    ensures faultActive == FaultActive(jobs, running)
  {
    var job := pending0[index];
    pending := pending0[..index] + pending0[index + 1..];
    StartIsLegal(jobs, workers, log0, pending0, running0, index);
    RemoveAt(pending0, index, pending);
    AfterStart(jobs, workers, log0, pending0, running0, job, pending);
    FaultAfterStart(jobs, running0, job);
    faultActive := fault0 || jobs[job].mode.Instance?;
    running := running0 + {job};
    log := Then(log0, Start(job));
  }

  lemma WaitIsScheduled(
    jobs: seq<Job>, workers: nat, cancelled: bool, started: set<nat>, yielded: set<nat>, running: set<nat>)
    requires running != {} && yielded <= started
    requires |running| < workers && !cancelled ==>
               forall j | j in All(jobs) - started - yielded :: Blocked(jobs, running, j)
    ensures Scheduled(jobs, workers, cancelled, started, yielded, running, Wait)
  {
    forall i | 0 <= i < |jobs| && i !in started ensures i in All(jobs) - started - yielded {
    }
  }

  lemma AfterWait(jobs: seq<Job>, workers: nat, log: Log, pending: seq<nat>, running: set<nat>)
    requires Consistent(jobs, workers, log, pending, running) && running != {}
    requires |running| < workers && !Cancelled(log) ==> forall j | j in Queued(jobs, log) :: Blocked(jobs, running, j)
    ensures Consistent(jobs, workers, Then(log, Wait), pending, running)
  {
    WaitIsScheduled(jobs, workers, Cancelled(log), Started(log), Yielded(log), running);
    LegalStep(jobs, workers, log, Wait);
    Unchanged(log, Wait);
  }

  /** These events start and end nothing. */
  lemma Unchanged(log: Log, e: Event)
    requires e.Wait? || e.Cancel?
    ensures var log' := Then(log, e);
            && Started(log') == Started(log) && Yielded(log') == Yielded(log)
            && Dropped(log') == Dropped(log) && Running(log') == Running(log)
  {
  }

  /** The scheduler has raised; `running` is what its executor still waits for. */
  ghost predicate Abandoned(jobs: seq<Job>, workers: nat, log: Log, running: set<nat>) {
    LegalLog(jobs, workers, log) && Dropped(log) != {} && running == Running(log)
  }

  lemma FinishedSets(all: set<nat>, started: set<nat>, yielded: set<nat>, running: set<nat>, j: nat)
    requires running <= started && yielded <= started && j in running
    ensures all - started - (yielded + {j}) == all - started - yielded
    ensures yielded + {j} <= started && running - {j} <= started && |running - {j}| <= |running|
  {
  }

  lemma FinishedLog(jobs: seq<Job>, workers: nat, log: Log, j: nat)
    requires Dropped(log) == {} && j in Running(log)
    ensures Legal(jobs, workers, log, Finish(j))
    ensures var log' := Then(log, Finish(j));
            && Dropped(log') == {} && Running(log') == Running(log) - {j}
            && Started(log') == Started(log) && Yielded(log') == Yielded(log) + {j}
  {
  }

  lemma AfterFinish(jobs: seq<Job>, workers: nat, log: Log, pending: seq<nat>, running: set<nat>, j: nat)
    requires Consistent(jobs, workers, log, pending, running) && j in running
    ensures Consistent(jobs, workers, Then(log, Finish(j)), pending, running - {j})
  {
    FinishedSets(All(jobs), Started(log), Yielded(log), running, j);
    FinishedLog(jobs, workers, log, j);
    LegalStep(jobs, workers, log, Finish(j));
  }

  lemma AfterLost(jobs: seq<Job>, workers: nat, log: Log, running: set<nat>, j: nat)
    requires LegalLog(jobs, workers, log) && running == Running(log) && j in running
    ensures Abandoned(jobs, workers, Then(log, Lost(j)), running - {j})
  {
    LegalStep(jobs, workers, log, Lost(j));
    assert j in Dropped(Then(log, Lost(j)));
  }

  /** Every invocation, and nothing else, has been yielded. */
  ghost predicate AllYielded(jobs: seq<Job>, log: Log) {
    Yielded(log) == All(jobs)
  }

  /** Nothing runs, and `rest` is what remains to be yielded. */
  ghost predicate Remaining(jobs: seq<Job>, workers: nat, log: Log, rest: set<nat>) {
    && LegalLog(jobs, workers, log)
    && Dropped(log) == Running(log) == {} && Started(log) <= Yielded(log)
    && Yielded(log) !! rest && Yielded(log) + rest == All(jobs)
  }

  lemma NothingRuns(all: set<nat>, started: set<nat>, yielded: set<nat>)
    requires yielded <= started <= all && started <= yielded
    ensures started == yielded
    ensures yielded !! all - started - yielded && yielded + (all - started - yielded) == all
  {
  }

  lemma Idle(jobs: seq<Job>, workers: nat, log: Log, pending: seq<nat>)
    requires Consistent(jobs, workers, log, pending, {})
    ensures Remaining(jobs, workers, log, Elements(pending))
  {
    LegalIsOrderly(jobs, workers, log);
    forall j: nat | j in Started(log) ensures j in Yielded(log) {
      RunningIsUnended(jobs, log, j);
    }
    NothingRuns(All(jobs), Started(log), Yielded(log));
  }

  lemma {:induction false} LegalIsOrderly(jobs: seq<Job>, workers: nat, log: Log)
    requires LegalLog(jobs, workers, log)
    ensures OrderlyLog(jobs, log)
    decreases log
  {
    if log.Then? {
      LegalIsOrderly(jobs, workers, log.before);
    }
  }

  /** What runs has been started and has not ended, and nothing ends in two ways. */
  lemma {:induction false} RunningIsUnended(jobs: seq<Job>, log: Log, j: nat)
    requires OrderlyLog(jobs, log)
    ensures j in Running(log) <==> j in Started(log) && j !in Yielded(log) && j !in Dropped(log)
    ensures j in Dropped(log) ==> j in Started(log) && j !in Yielded(log)
    ensures j in Started(log) ==> j < |jobs|
    decreases log
  {
    if log.Then? {
      RunningIsUnended(jobs, log.before, j);
    }
  }

  lemma Moved(all: set<nat>, yielded: set<nat>, rest: set<nat>, j: nat)
    requires yielded !! rest && yielded + rest == all && j in rest
    ensures j in all && j !in yielded
    ensures yielded + {j} !! rest - {j} && (yielded + {j}) + (rest - {j}) == all
  {
  }

  lemma LeastIsScheduled(jobs: seq<Job>, workers: nat, started: set<nat>, yielded: set<nat>, rest: set<nat>, j: nat)
    requires started <= yielded && yielded !! rest && yielded + rest == All(jobs)
    requires j in rest && forall i | i in rest :: j <= i
    ensures Scheduled(jobs, workers, true, started, yielded, {}, NeverStarted(j))
    ensures j < |jobs| && j !in started && j !in yielded
  {
    assert j in All(jobs);
    forall i | 0 <= i < j && i !in started ensures i in yielded {
      assert i in All(jobs);
    }
  }

  lemma GiveUpIsLegal(jobs: seq<Job>, workers: nat, log: Log, rest: set<nat>, j: nat)
    requires Remaining(jobs, workers, log, rest) && Cancelled(log) && j in rest && forall i | i in rest :: j <= i
    ensures Legal(jobs, workers, log, NeverStarted(j))
  {
    LeastIsScheduled(jobs, workers, Started(log), Yielded(log), rest, j);
  }

  lemma AfterGiveUp(jobs: seq<Job>, workers: nat, log: Log, rest: set<nat>, j: nat)
    requires Remaining(jobs, workers, log, rest) && Cancelled(log) && j in rest && forall i | i in rest :: j <= i
    ensures Remaining(jobs, workers, Then(log, NeverStarted(j)), rest - {j})
    ensures Started(Then(log, NeverStarted(j))) == Started(log)
  {
    Moved(All(jobs), Yielded(log), rest, j);
    GiveUpIsLegal(jobs, workers, log, rest, j);
    GivenUpLog(log, j);
    LegalStep(jobs, workers, log, NeverStarted(j));
  }

  lemma GivenUpLog(log: Log, j: nat)
    ensures var log' := Then(log, NeverStarted(j));
            && Dropped(log') == Dropped(log) && Running(log') == Running(log)
            && Started(log') == Started(log) && Yielded(log') == Yielded(log) + {j}
  {
  }

  lemma Head(rest: seq<nat>)
    requires Increasing(rest) && rest != []
    ensures Increasing(rest[1..]) && Elements(rest[1..]) == Elements(rest) - {rest[0]} && rest[0] in Elements(rest)
    ensures forall i | i in Elements(rest) :: rest[0] <= i
  {
    assert rest[1..] == rest[..0] + rest[1..];
    RemoveAt(rest, 0, rest[1..]);
  }

  /** The cancelled remainder: every queued case is yielded without having run. */
  method GiveUp(ghost w: World, jobs: seq<Job>, workers: nat, log0: Log, pending: seq<nat>) returns (log: Log)
    requires Remaining(jobs, workers, log0, Elements(pending)) && Increasing(pending)
    requires (pending != [] ==> Cancelled(log0)) && Obeys(w, log0)
    ensures Obeys(w, log)
    ensures Remaining(jobs, workers, log, {}) && Started(log) == Started(log0) && Cancelled(log) == Cancelled(log0)
    ensures pending == [] ==> log == log0
  {
    log := log0;
    var rest := pending;
    while rest != []
      invariant Remaining(jobs, workers, log, Elements(rest)) && Increasing(rest) && Obeys(w, log)
      invariant Started(log) == Started(log0) && Cancelled(log) == Cancelled(log0)
      invariant pending == [] ==> log == log0 && rest == []
      decreases |rest|
    {
      Head(rest);
      AfterGiveUp(jobs, workers, log, Elements(rest), rest[0]);
      log, rest := Then(log, NeverStarted(rest[0])), rest[1..];
    }
    assert Elements<nat>([]) == {};
  }

  lemma Initially(jobs: seq<Job>, workers: nat, pending: seq<nat>)
    requires |pending| == |jobs| && forall k | 0 <= k < |pending| :: pending[k] == k
    ensures Consistent(jobs, workers, Empty, pending, {})
  {
    forall j | j in All(jobs) ensures j in Elements(pending) {
      assert pending[j] == j;
    }
  }

  lemma Drained(jobs: seq<Job>, workers: nat, log: Log)
    requires Consistent(jobs, workers, log, [], {})
    ensures AllYielded(jobs, log) && Started(log) == Yielded(log)
  {
    Idle(jobs, workers, log, []);
    assert Elements<nat>([]) == {};
  }

  /** Collect the completed futures in whatever order the set gives them; the first whose result
      raises ends the scheduler. */
  method Collect(
    w: World, jobs: seq<Job>, workers: nat, log0: Log, pending: seq<nat>, running0: set<nat>, done0: set<nat>)
    returns (log: Log, running: set<nat>, raised: bool)
    requires Consistent(jobs, workers, log0, pending, running0) && done0 <= running0 && Obeys(w, log0)
    ensures Obeys(w, log)
    ensures !raised ==> Consistent(jobs, workers, log, pending, running) && running == running0 - done0
    ensures !raised ==> Cancelled(log) == Cancelled(log0)
    ensures raised ==> Abandoned(jobs, workers, log, running)
  {
    var done;
    log, running, done, raised := log0, running0, done0, false;
    while done != {}
      invariant Consistent(jobs, workers, log, pending, running) && Obeys(w, log)
      invariant done <= running && running - done == running0 - done0 && Cancelled(log) == Cancelled(log0)
      decreases |done|
    {
      var j :| j in done;
      raised := w.raises(j);
      if raised {
        AfterLost(jobs, workers, log, running, j);
        log, running := Then(log, Lost(j)), running - {j};
        return;
      }
      OneLess(running, done, j);
      AfterFinish(jobs, workers, log, pending, running, j);
      done, running, log := done - {j}, running - {j}, Then(log, Finish(j));
    }
    raised := false;
  }

  lemma OneLess(running: set<nat>, done: set<nat>, j: nat)
    requires done <= running && j in done
    ensures done - {j} <= running - {j} && (running - {j}) - (done - {j}) == running - done && |done - {j}| < |done|
  {
  }

  /** Leaving the executor waits for every case that still runs; none of them is yielded. */
  method Abandon(ghost w: World, jobs: seq<Job>, workers: nat, log0: Log, running0: set<nat>) returns (log: Log)
    requires Abandoned(jobs, workers, log0, running0) && Obeys(w, log0)
    ensures Abandoned(jobs, workers, log, {}) && Obeys(w, log)
  {
    log := log0;
    var running := running0;
    while running != {}
      invariant Abandoned(jobs, workers, log, running) && Obeys(w, log)
      decreases |running|
    {
      var j :| j in running;
      AfterLost(jobs, workers, log, running, j);
      log, running := Then(log, Lost(j)), running - {j};
    }
  }

  /** How the run ended: with every invocation yielded, or by a result that raised. */
  ghost predicate Ended(jobs: seq<Job>, log: Log, raised: bool) {
    && Running(log) == {}
    && (raised <==> Dropped(log) != {})
    && (!raised ==> AllYielded(jobs, log))
    && (!raised && !Cancelled(log) ==> Started(log) == Yielded(log))
  }

  /** The whole run: every decision in the log was legal when taken, nothing is left running, and
      unless a result raised, each invocation was yielded, and none was given up without cancellation. */
  method Dispatch(w: World, jobs: seq<Job>, workers: nat) returns (log: Log, raised: bool)
    requires workers > 0
    ensures LegalLog(jobs, workers, log) && Ended(jobs, log, raised) && Obeys(w, log)
  {
    log, raised := Empty, false;
    var cancelled := false;
    var pending: seq<nat> := seq(|jobs|, i requires 0 <= i => i as nat);
    var running: set<nat> := {};
    Initially(jobs, workers, pending);
    while pending != [] || running != {}
      invariant Consistent(jobs, workers, log, pending, running) && cancelled == Cancelled(log) && !raised
      invariant Obeys(w, log)
      decreases |pending| + |running|
    {
      log, pending, running, cancelled := Fill(w, jobs, workers, log, pending, running, cancelled);
      if running == {} {
        log := Conclude(w, jobs, workers, log, pending);
        return;
      }
      log, running, raised := AwaitSome(w, jobs, workers, log, pending, running);
      if raised {
        log := Abandon(w, jobs, workers, log, running);
        return;
      }
    }
    Drained(jobs, workers, log);
  }

  /** Nothing runs: what is still queued is given up, which happens only under cancellation. */
  method Conclude(ghost w: World, jobs: seq<Job>, workers: nat, log0: Log, pending: seq<nat>) returns (log: Log)
    requires Consistent(jobs, workers, log0, pending, {}) && (pending != [] ==> Cancelled(log0)) && Obeys(w, log0)
    ensures LegalLog(jobs, workers, log) && Ended(jobs, log, false) && Obeys(w, log)
  {
    if pending == [] {
      Drained(jobs, workers, log0);
    }
    Idle(jobs, workers, log0, pending);
    log := GiveUp(w, jobs, workers, log0, pending);
  }

  /** Block until something completes, then collect it. */
  method AwaitSome(w: World, jobs: seq<Job>, workers: nat, log0: Log, pending: seq<nat>, running0: set<nat>)
    returns (log: Log, running: set<nat>, raised: bool)
    requires Consistent(jobs, workers, log0, pending, running0) && running0 != {} && Obeys(w, log0)
    ensures Obeys(w, log)
    requires |running0| < workers && !Cancelled(log0) ==>
               forall j | j in Queued(jobs, log0) :: Blocked(jobs, running0, j)
    ensures !raised ==> Consistent(jobs, workers, log, pending, running) && |running| < |running0|
    ensures !raised ==> Cancelled(log) == Cancelled(log0)
    ensures raised ==> Abandoned(jobs, workers, log, running)
  {
    AfterWait(jobs, workers, log0, pending, running0);
    var done: set<nat> :| done <= running0 && done != {};
    assert |running0 - done| < |running0|;
    log, running, raised := Collect(w, jobs, workers, Then(log0, Wait), pending, running0, done);
  }

  // ---------------------------------------------------------------- what legality means

  /** `early` is what the log had recorded at some moment. */
  ghost predicate Prefix(early: Log, log: Log) {
    early == log || (log.Then? && Prefix(early, log.before))
  }

  /** The invocation ends: yielded, or lost to a result that raised. */
  ghost predicate Ends(e: Event, j: nat) {
    (e.Finish? || e.NeverStarted? || e.Lost?) && e.job == j
  }

  /** Every moment of a legal run was legal, and later moments only add to what was started or yielded. */
  lemma {:induction false} Earlier(jobs: seq<Job>, workers: nat, early: Log, log: Log)
    requires LegalLog(jobs, workers, log) && Prefix(early, log)
    ensures LegalLog(jobs, workers, early)
    ensures Started(early) <= Started(log) && Yielded(early) <= Yielded(log) && Dropped(early) <= Dropped(log)
    ensures Cancelled(early) ==> Cancelled(log) && Started(log) == Started(early)
    decreases log
  {
    if early != log {
      Earlier(jobs, workers, early, log.before);
    }
  }

  /** No invocation is yielded twice, or both yielded and lost. */
  lemma YieldedOnce(jobs: seq<Job>, workers: nat, early: Log, e: Event, log: Log, e': Event, j: nat)
    requires LegalLog(jobs, workers, Then(log, e')) && Prefix(Then(early, e), log)
    requires Ends(e, j)
    ensures !Ends(e', j)
  {
    Earlier(jobs, workers, Then(early, e), log);
    LegalIsOrderly(jobs, workers, log);
    RunningIsUnended(jobs, log, j);
  }

  /** A case reported as cancelled before start had not run, and never starts later. */
  lemma NeverStartedNeverRan(jobs: seq<Job>, workers: nat, early: Log, e: Event, log: Log, e': Event, j: nat)
    requires LegalLog(jobs, workers, Then(log, e')) && Prefix(Then(early, e), log)
    ensures !(e == Start(j) && e' == NeverStarted(j)) && !(e == NeverStarted(j) && e' == Start(j))
  {
    Earlier(jobs, workers, Then(early, e), log);
  }

  /** Overtaking: a case starts after a later-queued one only if it is an instance case and the
      other is not; so ordinary cases keep queue order, and so do instance cases among themselves. */
  lemma OnlyBlockedCasesAreOvertaken(jobs: seq<Job>, workers: nat, early: Log, log: Log, later: nat, sooner: nat)
    requires LegalLog(jobs, workers, Then(log, Start(sooner))) && Prefix(Then(early, Start(later)), log)
    requires sooner < later < |jobs|
    ensures jobs[sooner].mode.Instance? && !jobs[later].mode.Instance?
  {
    Earlier(jobs, workers, Then(early, Start(later)), log);
  }

  /** Once the scheduler has found the run cancelled it starts nothing more. */
  lemma CancelStopsSubmission(jobs: seq<Job>, workers: nat, early: Log, log: Log, e: Event)
    requires LegalLog(jobs, workers, Then(log, e)) && Prefix(Then(early, Cancel), log)
    ensures !e.Start?
  {
    Earlier(jobs, workers, Then(early, Cancel), log);
  }

  lemma {:induction false} YieldedIsStartedOrGivenUp(jobs: seq<Job>, log: Log, j: nat)
    requires OrderlyLog(jobs, log)
    ensures j in Yielded(log) <==> (j in Started(log) && j !in Running(log) && j !in Dropped(log)) || j in GivenUp(log)
    decreases log
  {
    RunningIsUnended(jobs, log, j);
    if log.Then? {
      YieldedIsStartedOrGivenUp(jobs, log.before, j);
      RunningIsUnended(jobs, log.before, j);
    }
  }

  /** No case is started at a moment when the flag is set, and only those whose result does not raise
      are yielded with it. */
  lemma {:induction false} FlagIsObeyed(w: World, early: Log, e: Event, log: Log)
    requires Obeys(w, log) && Prefix(Then(early, e), log)
    ensures e.Start? ==> !w.flag(early)
    ensures e.Cancel? ==> w.flag(early)
    ensures e.Finish? ==> !w.raises(e.job)
    ensures e.Lost? && Dropped(early) == {} ==> w.raises(e.job)
    decreases log
  {
    if log != Then(early, e) {
      FlagIsObeyed(w, early, e, log.before);
    }
  }

  /** Then everything still queued is yielded as cancelled before start, unless a result raises. */
  lemma CancelledAreGivenUp(jobs: seq<Job>, workers: nat, early: Log, log: Log, j: nat)
    requires LegalLog(jobs, workers, log) && Ended(jobs, log, false) && Prefix(Then(early, Cancel), log)
    requires j in Queued(jobs, early)
    ensures j in GivenUp(log) && j !in Started(log)
  {
    Earlier(jobs, workers, Then(early, Cancel), log);
    LegalIsOrderly(jobs, workers, log);
    YieldedIsStartedOrGivenUp(jobs, log, j);
    assert Started(Then(early, Cancel)) == Started(early);
  }

  lemma GivingUp(jobs: seq<Job>, workers: nat, log: Log, j: nat, i: nat)
    requires LegalLog(jobs, workers, Then(log, NeverStarted(j)))
    ensures Cancelled(log) && j !in Started(log) && j !in Yielded(log)
    ensures i < j && i !in Started(log) ==> i in Yielded(log)
  {
  }

  /** Cases are given up in queue order, and only under cancellation. */
  lemma GivenUpInOrder(jobs: seq<Job>, workers: nat, early: Log, log: Log, first: nat, second: nat)
    requires LegalLog(jobs, workers, Then(log, NeverStarted(second))) && Prefix(Then(early, NeverStarted(first)), log)
    ensures first < second && Cancelled(log)
  {
    var mid := Then(early, NeverStarted(first));
    Earlier(jobs, workers, mid, log);
    GivingUp(jobs, workers, early, first, second);
    GivingUp(jobs, workers, log, second, first);
    assert Started(early) <= Started(mid) && Yielded(early) <= Yielded(mid) && first in Yielded(mid);
  }

  /** A worker idles only under cancellation, or while one instance case runs and nothing but
      instance cases is queued. */
  lemma IdleOnlyWhenBlocked(jobs: seq<Job>, workers: nat, early: Log, log: Log, j: nat)
    requires LegalLog(jobs, workers, log) && Prefix(Then(early, Wait), log)
    requires |Running(early)| < workers && !Cancelled(early) && j in Queued(jobs, early)
    ensures jobs[j].mode.Instance?
    ensures exists f :: f in Running(early) && f < |jobs| && jobs[f].mode.Instance?
  {
    Earlier(jobs, workers, Then(early, Wait), log);
    assert Blocked(jobs, Running(early), j);
  }

  lemma RunningStep(log: Log, e: Event)
    ensures var running, running' := Running(log), Running(Then(log, e));
            if e.Start? then running' == running + {e.job} && |running'| <= |running| + 1
            else running' <= running && |running'| <= |running|
  {
  }

  /** At every moment at most `workers` cases run, and at most one of them is an instance case. */
  lemma {:induction false} ConcurrencyBound(jobs: seq<Job>, workers: nat, log: Log)
    requires LegalLog(jobs, workers, log)
    ensures |Running(log)| <= workers
    ensures forall j | j in Running(log) :: j < |jobs|
    ensures forall i, j | i in Running(log) && j in Running(log) ::
              jobs[i].mode.Instance? && jobs[j].mode.Instance? ==> i == j
    decreases log
  {
    if log.Then? {
      var e := log.event;
      ConcurrencyBound(jobs, workers, log.before);
      RunningStep(log.before, e);
      if e.Start? && jobs[e.job].mode.Instance? {
        assert forall i | i in Running(log.before) :: !jobs[i].mode.Instance?;
      }
    }
  }
}
