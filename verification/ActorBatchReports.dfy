/**
 What each job is told when actor preparation fails: by whose error, and which
 jobs are spared because their items were already finished.
 */
module ActorBatchReports {
  import opened Options
  import opened ActorBatch

  /** Finished items either were finished before the failure or carry the error, never both. */
  ghost predicate Sorted(s: State) {
    if s.error.None? then s.spared == {}
    else
      && s.spared <= s.done && (forall j | j in s.spared :: j !in s.failed)
      && (forall j | j in s.done :: j in s.spared || j in s.failed)
  }

  lemma KeepSorted(s: State, t: Step)
    requires Inv(s) && Sorted(s) && Enabled(s, t)
    ensures Sorted(Apply(s, t))
  {
    assert t.job in s.threads ==> Local(s, t.job);
    if t.Mark? && s.threads[t.job].next < |s.threads[t.job].batch| {
      assert s.busy == Some(t.job);
      assert s.threads[t.job].batch[s.threads[t.job].next] in ActiveBatch(s);
      Disjoint(s, s.threads[t.job].batch[s.threads[t.job].next]);
    }
  }

  lemma {:induction false} SortedRun(s: State, trace: seq<Step>, end: State)
    requires Inv(s) && Sorted(s) && Run(s, trace, end)
    ensures Sorted(end)
    decreases |trace|
  {
    if trace != [] {
      KeepStep(s, trace[0]);
      KeepSorted(s, trace[0]);
      SortedRun(Apply(s, trace[0]), trace[1..], end);
    }
  }

  /** Once preparation has failed, a finished item carries the error exactly if it was not yet
      finished at the failure. */
  lemma FailedExactly(s: State, j: Job)
    requires Reachable(s) && s.error.Some? && j in s.done
    ensures j in s.failed <==> j !in s.spared
    ensures j in s.failed ==> s.error == Some(s.failed[j])
  {
    var trace :| Run(IDLE, trace, s);
    SortedRun(IDLE, trace, s);
    ReachableInv(s);
  }

  /** The failure takes the leader's batch and the whole queue with it, and spares what is finished. */
  lemma FailureTakesTheRest(s: State, t: Step)
    requires t.Fail? && Enabled(s, t)
    ensures var s' := Apply(s, t);
            && s'.spared == s.done && s'.error == Some(t.cause) && s'.origin == Some(t.job) && s'.pending == []
            && s'.threads[t.job] == Marking(s.threads[t.job].batch + s.pending, 0)
  {
  }

  /** A job is told: success exactly if its item carries no error, else its own error if it led, and
      else that error as a blocked dependency. */
  lemma FinishReports(s: State, j: Job)
    requires Enabled(s, Finish(j))
    ensures var report := Apply(s, Finish(j)).threads[j].report;
            && (report.Returned? <==> j !in s.failed)
            && (j in s.failed && s.origin == Some(j) ==> report == Original(s.failed[j]))
            && (j in s.failed && s.origin != Some(j) ==> report == DependencyBlocked(s.failed[j]))
  {
  }

  /** A leader takes the whole queue. */
  lemma TakesTheQueue(s: State, j: Job)
    requires Enabled(s, Take(j))
    ensures var s' := Apply(s, Take(j));
            s'.threads[j] == Preparing(s.pending) && s'.pending == [] && s'.busy == s.busy && s'.done == s.done
  {
  }

  /** Publishing finishes the batch, and only the batch, and lets another lead. */
  lemma PublishFinishesTheBatch(s: State, j: Job)
    requires Enabled(s, Publish(j))
    ensures var s' := Apply(s, Publish(j));
            && s'.busy.None? && s'.threads[j].Looping? && s'.pending == s.pending && s'.failed == s.failed
            && forall i :: i in s'.done <==> i in s.done || i in s.threads[j].batch
  {
  }

  /** A job that arrives after the failure is turned away with the recorded error; any other is queued
      last. */
  lemma AdmissionIff(s: State, j: Job)
    requires Enabled(s, Admit(j))
    ensures var s' := Apply(s, Admit(j));
            if s.error.Some? then
              s'.threads[j] == Finished(DependencyBlocked(s.error.value)) && s'.pending == s.pending
            else
              s'.threads[j].Looping? && s'.pending == s.pending + [j] && s'.admitted == s.admitted + {j}
  {
  }

  lemma ErrorStays(s: State, t: Step)
    requires Inv(s) && Enabled(s, t)
    ensures s.error.Some? ==> !t.Fail? && Apply(s, t).error == s.error && Apply(s, t).origin == s.origin
    ensures s.error.None? ==> Apply(s, t).error == (if t.Fail? then Some(t.cause) else None)
    ensures s.error.None? && t.Fail? ==> Apply(s, t).origin == Some(t.job)
  {
    assert t.job in s.threads ==> Local(s, t.job);
  }

  lemma {:induction false} NoMoreFailures(s: State, trace: seq<Step>, end: State)
    requires Inv(s) && Run(s, trace, end) && s.error.Some?
    ensures end.error == s.error && end.origin == s.origin && forall t | t in trace :: !t.Fail?
    decreases |trace|
  {
    if trace != [] {
      ErrorStays(s, trace[0]);
      KeepStep(s, trace[0]);
      NoMoreFailures(Apply(s, trace[0]), trace[1..], end);
      assert forall t | t in trace :: t == trace[0] || t in trace[1..];
    }
  }

  lemma {:induction false} CauseFrom(s: State, trace: seq<Step>, end: State)
    requires Inv(s) && Run(s, trace, end) && s.error.None?
    ensures end.error.Some? <==> exists k :: 0 <= k < |trace| && trace[k].Fail?
    ensures forall k | 0 <= k < |trace| && trace[k].Fail? ::
              end.error == Some(trace[k].cause) && end.origin == Some(trace[k].job)
    decreases |trace|
  {
    if trace != [] {
      var t, rest := trace[0], trace[1..];
      ErrorStays(s, t);
      KeepStep(s, t);
      forall k | 0 < k < |trace| ensures trace[k] == rest[k - 1] && trace[k] in rest {
      }
      if t.Fail? {
        NoMoreFailures(Apply(s, t), rest, end);
      } else {
        CauseFrom(Apply(s, t), rest, end);
        if k :| 0 <= k < |rest| && rest[k].Fail? {
          assert trace[k + 1].Fail?;
        }
      }
    }
  }

  /** The recorded error is the cause of the one failure of the run, and its origin the leader that
      failed. */
  lemma ErrorIsTheCause(trace: seq<Step>, s: State)
    requires Run(IDLE, trace, s)
    ensures s.error.Some? <==> exists k :: 0 <= k < |trace| && trace[k].Fail?
    ensures forall k | 0 <= k < |trace| && trace[k].Fail? ::
              s.error == Some(trace[k].cause) && s.origin == Some(trace[k].job)
  {
    CauseFrom(IDLE, trace, s);
  }

  /** Any job may arrive, any waiting job may give up, and any preparation may fail, for any cause. */
  lemma AnythingMayHappen(s: State, j: Job, cause: Error)
    ensures j !in s.threads ==> Enabled(s, Arrive(j))
    ensures j in s.threads && s.threads[j].Looping? && j !in s.done ==> Enabled(s, Cancel(j)) && Enabled(s, Poll(j))
    ensures j in s.threads && s.threads[j].Preparing? ==> Enabled(s, Fail(j, cause)) && Enabled(s, Succeed(j))
  {
  }
}
