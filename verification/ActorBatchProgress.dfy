/**
 Actor batching makes progress: an elected leader finishes what it took, and every
 admitted item is finished by the present leader or the next one.
 */
module ActorBatchProgress {
  import opened Options
  import opened ActorBatch

  // ---------------------------------------------------------------- the leader's steps

  lemma Prepend(s: State, t: Step, trace: seq<Step>, end: State)
    requires Enabled(s, t) && Run(Apply(s, t), trace, end)
    ensures Run(s, [t] + trace, end)
  {
    assert ([t] + trace)[1..] == trace;
  }

  lemma {:induction false} Append(s: State, first: seq<Step>, mid: State, second: seq<Step>, end: State)
    requires Run(s, first, mid) && Run(mid, second, end)
    ensures Run(s, first + second, end)
    decreases |first|
  {
    if first == [] {
      assert first + second == second;
    } else {
      Append(Apply(s, first[0]), first[1..], mid, second, end);
      assert (first + second)[1..] == first[1..] + second;
    }
  }

  function Remaining(phase: Phase): nat {
    match phase
    case Leading => 3
    case Preparing(_) => 2
    case Marking(b, k) => if k <= |b| then |b| - k + 2 else 2
    case _ => 1
  }

  /** What the leader has taken or is about to take. */
  function Taken(s: State, l: Job): seq<Job>
    requires l in s.threads
  {
    if s.threads[l].Leading? then s.pending else ActiveBatch(s)
  }

  function LeaderStep(phase: Phase, l: Job): Step {
    match phase
    case Leading => Take(l)
    case Preparing(_) => Succeed(l)
    case Marking(_, _) => Mark(l)
    case _ => Publish(l)
  }

  lemma LeaderAdvances(s: State, l: Job)
    requires Inv(s) && s.busy == Some(l) && l in s.threads
    ensures var t := LeaderStep(s.threads[l], l);
            && Enabled(s, t)
            && var s' := Apply(s, t);
               && l in s'.threads && s'.threads == s.threads[l := s'.threads[l]]
               && s'.admitted == s.admitted && s.done <= s'.done
               && (if t.Publish? then
                     s'.busy.None? && s'.threads[l].Looping? && forall j | j in Taken(s, l) :: j in s'.done
                   else
                     s'.busy == Some(l) && Taken(s', l) == Taken(s, l)
                     && Remaining(s'.threads[l]) < Remaining(s.threads[l]))
  {
    assert IsLeader(s.threads[l]) && Local(s, l);
  }

  /** An active leader can always go through with its batch, undisturbed by waiting threads. */
  lemma {:induction false} LeaderFinishes(s: State, l: Job) returns (trace: seq<Step>, end: State)
    requires Inv(s) && s.busy == Some(l) && l in s.threads
    ensures Run(s, trace, end) && Inv(end) && end.busy.None? && end.admitted == s.admitted && s.done <= end.done
    ensures forall j | j in Taken(s, l) :: j in end.done
    ensures end.threads == s.threads[l := Looping]
    decreases Remaining(s.threads[l])
  {
    var t := LeaderStep(s.threads[l], l);
    LeaderAdvances(s, l);
    KeepStep(s, t);
    var next := Apply(s, t);
    if t.Publish? {
      trace, end := [], next;
    } else {
      trace, end := LeaderFinishes(next, l);
    }
    Prepend(s, t, trace, end);
    trace := [t] + trace;
  }

  // ---------------------------------------------------------------- finishing is forced

  /** How far a leader has come, at least, in steps of its own. */
  function Spent(phase: Phase): nat {
    match phase
    case Preparing(_) => 1
    case Marking(_, k) => k + 2
    case Publishing(b) => |b| + 3
    case _ => 0
  }

  function OwnSteps(trace: seq<Step>, l: Job): nat {
    if trace == [] then 0 else OwnSteps(trace[1..], l) + if trace[0].job == l then 1 else 0
  }

  lemma SpentIsBounded(s: State, l: Job)
    requires Inv(s) && s.busy == Some(l) && l in s.threads
    ensures Spent(s.threads[l]) <= |s.admitted| + 3
  {
    assert Local(s, l);
    assert |s.pending| + |ActiveBatch(s)| + |s.done|
        == |multiset(s.pending) + multiset(ActiveBatch(s)) + multiset(s.done)|
        == |multiset(s.admitted)| == |s.admitted|;
  }

  ghost predicate Within(a: seq<Job>, b: seq<Job>) {
    forall j | j in a :: j in b
  }

  /** Whatever the leader does next, failing included, brings it nearer to publishing. */
  lemma LeaderStepSpends(s: State, t: Step, l: Job)
    requires Inv(s) && s.busy == Some(l) && l in s.threads && Enabled(s, t) && t.job == l
    ensures var s' := Apply(s, t);
            if t.Publish? then forall j | j in Taken(s, l) :: j in s'.done
            else s'.busy == Some(l) && l in s'.threads && Within(Taken(s, l), Taken(s', l))
                 && Spent(s'.threads[l]) > Spent(s.threads[l])
  {
    assert IsLeader(s.threads[l]) && Local(s, l);
  }

  /** No other thread can hold the leader up or take items from it. */
  lemma OthersLeaveLeader(s: State, t: Step, l: Job)
    requires Inv(s) && s.busy == Some(l) && l in s.threads && Enabled(s, t) && t.job != l
    ensures var s' := Apply(s, t);
            s'.busy == Some(l) && l in s'.threads && s'.threads[l] == s.threads[l] && Within(Taken(s, l), Taken(s', l))
  {
    assert t.job in s.threads ==> !IsLeader(s.threads[t.job]);
  }

  lemma {:induction false} DoneStays(s: State, trace: seq<Step>, end: State)
    requires Run(s, trace, end)
    ensures s.done <= end.done
    decreases |trace|
  {
    if trace != [] {
      DoneStays(Apply(s, trace[0]), trace[1..], end);
    }
  }

  lemma {:induction false} LeaderSpends(s: State, trace: seq<Step>, end: State, l: Job)
    requires Inv(s) && Run(s, trace, end) && s.busy == Some(l) && l in s.threads
    ensures (forall j | j in Taken(s, l) :: j in end.done)
            || (Inv(end) && end.busy == Some(l) && l in end.threads
                && Spent(end.threads[l]) >= Spent(s.threads[l]) + OwnSteps(trace, l))
    decreases |trace|
  {
    if trace != [] {
      var t := trace[0];
      var next := Apply(s, t);
      KeepStep(s, t);
      if t.job != l {
        OthersLeaveLeader(s, t, l);
        LeaderSpends(next, trace[1..], end, l);
      } else {
        LeaderStepSpends(s, t, l);
        if t.Publish? {
          DoneStays(next, trace[1..], end);
        } else {
          LeaderSpends(next, trace[1..], end, l);
        }
      }
    }
  }

  /** In every run, whatever the other threads do and whether or not preparation fails, a leader has
      finished what it took within a bounded number of its own steps. */
  lemma LeaderMustFinish(s: State, trace: seq<Step>, end: State, l: Job)
    requires Reachable(s) && Run(s, trace, end) && s.busy == Some(l) && l in s.threads
    requires OwnSteps(trace, l) > |end.admitted| + 3
    ensures forall j | j in Taken(s, l) :: j in end.done
  {
    ReachableInv(s);
    LeaderSpends(s, trace, end, l);
    if Inv(end) && end.busy == Some(l) && l in end.threads {
      SpentIsBounded(end, l);
    }
  }

  /** A job never waits for nothing: somebody leads and can go on, or its own next look elects it. */
  lemma WaitingIsJustified(s: State, j: Job)
    requires Reachable(s) && j in s.admitted && j !in s.done
    requires j in s.threads && (s.threads[j].Looping? || s.threads[j].Polled?)
    ensures s.busy.Some? ==> s.busy.value in s.threads && Enabled(s, LeaderStep(s.threads[s.busy.value], s.busy.value))
    ensures s.busy.None? && s.threads[j].Looping? ==> Enabled(s, Poll(j))
    ensures s.busy.None? && s.threads[j].Polled? ==>
              Apply(s, Elect(j)).busy == Some(j) && j in Taken(Apply(s, Elect(j)), j)
  {
    ReachableInv(s);
    Disjoint(s, j);
    if s.busy.Some? {
      LeaderAdvances(s, s.busy.value);
    }
  }

  // ---------------------------------------------------------------- so is finishing every item

  /** A step of the leader, or one that elects one. */
  predicate Leads(s: State, t: Step)
    requires Enabled(s, t)
  {
    s.busy == Some(t.job) || (t.Elect? && Apply(s, t).busy == Some(t.job))
  }

  function LeaderSteps(s: State, trace: seq<Step>, end: State): nat
    requires Run(s, trace, end)
    decreases |trace|
  {
    if trace == [] then 0
    else LeaderSteps(Apply(s, trace[0]), trace[1..], end) + if Leads(s, trace[0]) then 1 else 0
  }

  /** Leader steps that can pass before item `j` is finished, while at most `n` items are admitted:
      the present leadership if there is one, and one more unless it already has the item. */
  function Distance(s: State, j: Job, n: nat): int {
    if s.busy.Some? && s.busy.value in s.threads then
      var left := n + 4 - Spent(s.threads[s.busy.value]);
      if j in Taken(s, s.busy.value) then left else left + n + 5
    else n + 5
  }

  lemma LeaderStepNears(s: State, t: Step, j: Job, n: nat)
    requires Inv(s) && Enabled(s, t) && s.busy == Some(t.job) && j in s.admitted && j !in s.done && |s.admitted| <= n
    ensures var s' := Apply(s, t);
            j in s'.done || Distance(s', j, n) < Distance(s, j, n)
  {
    var l := t.job;
    LeaderStepSpends(s, t, l);
    SpentIsBounded(s, l);
    Disjoint(s, j);
  }

  lemma ElectionNears(s: State, t: Step, j: Job, n: nat)
    requires Inv(s) && t.Elect? && Enabled(s, t) && s.busy.None? && j in s.admitted && j !in s.done
    ensures Distance(Apply(s, t), j, n) < Distance(s, j, n)
  {
    Disjoint(s, j);
  }

  lemma OtherStepKeepsDistance(s: State, t: Step, j: Job, n: nat)
    requires Inv(s) && Enabled(s, t) && !Leads(s, t) && j in s.admitted && j !in s.done
    ensures Distance(Apply(s, t), j, n) <= Distance(s, j, n)
  {
    Disjoint(s, j);
    if s.busy.Some? {
      OthersLeaveLeader(s, t, s.busy.value);
    } else {
      assert t.job in s.threads ==> !IsLeader(s.threads[t.job]);
    }
  }

  lemma {:induction false} AdmittedStay(s: State, trace: seq<Step>, end: State)
    requires Run(s, trace, end)
    ensures s.admitted <= end.admitted
    decreases |trace|
  {
    if trace != [] {
      AdmittedStay(Apply(s, trace[0]), trace[1..], end);
    }
  }

  lemma Smaller(a: set<Job>, b: set<Job>)
    requires a <= b
    ensures |a| <= |b|
  {
    assert b == a + (b - a);
  }

  lemma DistanceIsPositive(s: State, j: Job, n: nat)
    requires Inv(s) && |s.admitted| <= n
    ensures 0 < Distance(s, j, n) <= 2 * n + 9
  {
    if s.busy.Some? {
      SpentIsBounded(s, s.busy.value);
    }
  }

  lemma StepNears(s: State, t: Step, j: Job, n: nat)
    requires Inv(s) && Enabled(s, t) && j in s.admitted && j !in s.done && |s.admitted| <= n
    ensures var s' := Apply(s, t);
            && j in s'.admitted
            && (j in s'.done || Distance(s', j, n) + (if Leads(s, t) then 1 else 0) <= Distance(s, j, n))
  {
    if s.busy == Some(t.job) {
      LeaderStepNears(s, t, j, n);
    } else if Leads(s, t) {
      ElectionNears(s, t, j, n);
    } else {
      OtherStepKeepsDistance(s, t, j, n);
    }
  }

  lemma {:induction false} RunNears(s: State, trace: seq<Step>, end: State, j: Job, n: nat)
    requires Inv(s) && Run(s, trace, end) && j in s.admitted && |end.admitted| <= n
    ensures j in end.done || Distance(end, j, n) + LeaderSteps(s, trace, end) <= Distance(s, j, n)
    ensures Inv(end)
    decreases |trace|
  {
    AdmittedStay(s, trace, end);
    Smaller(s.admitted, end.admitted);
    if trace != [] {
      var next := Apply(s, trace[0]);
      KeepStep(s, trace[0]);
      DoneStays(s, trace, end);
      DoneStays(next, trace[1..], end);
      if j !in s.done {
        StepNears(s, trace[0], j, n);
      }
      RunNears(next, trace[1..], end, j, n);
    }
  }

  /** In every run, whoever leads and however preparation ends, an admitted item is finished after
      boundedly many leader steps: by the present leader or by the next one. */
  lemma ItemMustFinish(s: State, trace: seq<Step>, end: State, j: Job)
    requires Reachable(s) && Run(s, trace, end) && j in s.admitted
    requires LeaderSteps(s, trace, end) >= 2 * |end.admitted| + 9
    ensures j in end.done
  {
    ReachableInv(s);
    RunNears(s, trace, end, j, |end.admitted|);
    AdmittedStay(s, trace, end);
    Smaller(s.admitted, end.admitted);
    DistanceIsPositive(s, j, |end.admitted|);
    DistanceIsPositive(end, j, |end.admitted|);
  }

  /** And leader steps do come: while an item waits and nobody leads, two own steps of any waiting job
      that does not give up are enough for an election, its own or another's. */
  lemma {:induction false} SomebodyLeads(s: State, trace: seq<Step>, end: State, j: Job)
    requires Inv(s) && Run(s, trace, end) && s.busy.None? && j in s.threads && j in s.pending
    requires s.threads[j].Looping? || s.threads[j].Polled?
    requires Cancel(j) !in trace && OwnSteps(trace, j) >= if s.threads[j].Polled? then 1 else 2
    ensures LeaderSteps(s, trace, end) > 0
    decreases |trace|
  {
    var t := trace[0];
    var next := Apply(s, t);
    assert t in trace;
    Disjoint(s, j);
    if !Leads(s, t) {
      KeepStep(s, t);
      assert Local(s, j);
      assert forall x | x in trace[1..] :: x in trace;
      StillWaits(s, t, j);
      SomebodyLeads(next, trace[1..], end, j);
    }
  }

  lemma StillWaits(s: State, t: Step, j: Job)
    requires Inv(s) && Enabled(s, t) && !Leads(s, t) && s.busy.None? && t != Cancel(j)
    requires j in s.threads && j in s.pending && j !in s.done && (s.threads[j].Looping? || s.threads[j].Polled?)
    ensures var s' := Apply(s, t);
            && s'.busy.None? && j in s'.threads && j in s'.pending
            && (if t.job == j then s.threads[j].Looping? && s'.threads[j].Polled? else s'.threads[j] == s.threads[j])
  {
    assert t.job in s.threads ==> !IsLeader(s.threads[t.job]);
  }

  /** No item is stranded: whatever has happened, a waiting job's item can still be finished
      without any further arrival, by the active leader or by the waiting job itself. */
  lemma NoItemIsStranded(s: State, j: Job) returns (trace: seq<Step>, end: State)
    requires Reachable(s) && j in s.admitted && j !in s.done
    requires j in s.threads && !s.threads[j].Finished?
    ensures Run(s, trace, end) && j in end.done && end.admitted == s.admitted
  {
    ReachableInv(s);
    trace, end := [], s;
    if s.busy.Some? {
      trace, end := LeaderFinishes(s, s.busy.value);
    }
    if j !in end.done {
      assert Local(s, j);
      Disjoint(end, j);
      var tail, final := LeadOwn(end, j);
      Append(s, trace, end, tail, final);
      trace, end := trace + tail, final;
    }
  }

  /** A waiting job whose item is queued while nobody leads finishes it itself. */
  lemma LeadOwn(s: State, j: Job) returns (trace: seq<Step>, end: State)
    requires Inv(s) && s.busy.None? && j in s.pending && j in s.threads
    requires s.threads[j].Looping? || s.threads[j].Polled?
    ensures Run(s, trace, end) && j in end.done && end.admitted == s.admitted
  {
    Disjoint(s, j);
    var polled := s;
    if s.threads[j].Looping? {
      polled := Apply(s, Poll(j));
      KeepStep(s, Poll(j));
    }
    var elected := Apply(polled, Elect(j));
    KeepStep(polled, Elect(j));
    trace, end := LeaderFinishes(elected, j);
    Prepend(polled, Elect(j), trace, end);
    trace := [Elect(j)] + trace;
    if s.threads[j].Looping? {
      Prepend(s, Poll(j), trace, end);
      trace := [Poll(j)] + trace;
    }
  }
}
