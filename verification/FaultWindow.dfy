/**
 When a failed drop stops later cases. The drop, the failure file and the recorded
 error are separate statements outside the pool's lock, so calls can begin in
 between; this says exactly which ones may still get a database.
 */
module FaultWindow {
  import opened Dispatch
  import opened DatabasePool
  import opened FaultRun

  // ---------------------------------------------------------------- the fault pool

  /** While an instance case is in its context, no other one begins: the window is empty. */
  lemma FaultWindowIsEmpty(jobs: seq<Job>, workers: nat, s: State, i: nat, j: nat, e: StartEnv)
    requires Inv(jobs, workers, s) && i < |jobs| && jobs[i].mode.Instance? && InUse(s, i)
    requires j < |jobs| && jobs[j].mode.Instance?
    ensures !Enabled(jobs, workers, s, Begin(j, e))
  {
    if Enabled(jobs, workers, s, Begin(j, e)) {
      OneFaultUser(jobs, workers, s, i, j);
    }
  }

  /** A case whose drop failed goes nowhere but through its record. */
  lemma FailingStays(jobs: seq<Job>, workers: nat, s: State, t: Step, i: nat)
    requires Enabled(jobs, workers, s, t) && PhaseOf(s, i).Failing?
    ensures (t.Record? && t.job == i) || PhaseOf(Apply(jobs, workers, s, t), i).Failing?
  {
  }

  lemma RecordQuarantines(jobs: seq<Job>, workers: nat, s: State, t: Step)
    requires t.Record? && Enabled(jobs, workers, s, t) && (jobs[t.job].mode.Instance? || t.published)
    ensures Quarantined(PoolOf(Apply(jobs, workers, s, t), jobs[t.job].mode))
  {
  }

  lemma {:induction false} FaultDropSticks(
    jobs: seq<Job>, workers: nat, s: State, trace: seq<Step>, end: State, i: nat, j: nat)
    requires Inv(jobs, workers, s) && Run(jobs, workers, s, trace, end)
    requires i < |jobs| && jobs[i].mode.Instance? && PhaseOf(s, i).Failing?
    requires j < |jobs| && jobs[j].mode.Instance? && !InUse(s, j)
    ensures InUse(end, j) ==> end.fault.resets > s.fault.resets
    decreases |trace|
  {
    if trace != [] {
      var t := trace[0];
      var s1 := Apply(jobs, workers, s, t);
      KeepStep(jobs, workers, s, t);
      ResetsOnlyGrow(jobs, workers, s, t, Instance);
      NotBegun(jobs, workers, s, t, i, j);
      FailingStays(jobs, workers, s, t, i);
      if t.Record? && t.job == i {
        RecordQuarantines(jobs, workers, s, t);
        BlockedUntilReset(jobs, workers, s1, trace[1..], end, j);
      } else {
        FaultDropSticks(jobs, workers, s1, trace[1..], end, i, j);
      }
    }
  }

  lemma NotBegun(jobs: seq<Job>, workers: nat, s: State, t: Step, i: nat, j: nat)
    requires Inv(jobs, workers, s) && Enabled(jobs, workers, s, t)
    requires i < |jobs| && jobs[i].mode.Instance? && InUse(s, i)
    requires j < |jobs| && jobs[j].mode.Instance? && !InUse(s, j)
    ensures !InUse(Apply(jobs, workers, s, t), j)
  {
    if t.Begin? && t.job == j {
      FaultWindowIsEmpty(jobs, workers, s, i, j, t.start);
    } else if InUse(Apply(jobs, workers, s, t), j) {
      Unbegun(jobs, workers, s, t, j);
    }
  }

  /** On the fault pool a failing drop blocks every later call until a reset, from the moment it
      fails, recorded or not. */
  lemma FaultDropBlocksUntilReset(
    jobs: seq<Job>, workers: nat, s: State, t: Step, trace: seq<Step>, end: State, j: nat)
    requires Reachable(jobs, workers, s) && t.DropOwn? && !t.ok && Enabled(jobs, workers, s, t)
    requires Run(jobs, workers, Apply(jobs, workers, s, t), trace, end)
    requires jobs[t.job].mode.Instance? && j < |jobs| && jobs[j].mode.Instance? && !InUse(s, j)
    ensures InUse(end, j) ==> end.fault.resets > s.fault.resets
  {
    ReachableInv(jobs, workers, s);
    KeepStep(jobs, workers, s, t);
    ResetsOnlyGrow(jobs, workers, s, t, Instance);
    NotBegun(jobs, workers, s, t, t.job, j);
    FaultDropSticks(jobs, workers, Apply(jobs, workers, s, t), trace, end, t.job, j);
  }

  // ---------------------------------------------------------------- either pool

  /** A failed drop is put on record for the pool of `mode`. */
  ghost predicate Records(jobs: seq<Job>, t: Step, mode: Mode) {
    && t.Record? && t.job < |jobs| && jobs[t.job].mode.Instance? == mode.Instance?
    && (mode.Instance? || t.published)
  }

  /** The call of `j` began at step `k`, before any failed drop of the run was on record. */
  ghost predicate BeganUnrecorded(jobs: seq<Job>, trace: seq<Step>, j: nat, k: nat)
    requires j < |jobs|
  {
    && k < |trace| && trace[k].Begin? && trace[k].job == j
    && forall m | 0 <= m < k :: !Records(jobs, trace[m], jobs[j].mode)
  }

  lemma {:induction false} UnrecordedOrReset(
    jobs: seq<Job>, workers: nat, s: State, trace: seq<Step>, end: State, j: nat)
    requires Inv(jobs, workers, s) && Run(jobs, workers, s, trace, end) && j < |jobs|
    requires !InUse(s, j) && InUse(end, j)
    ensures PoolOf(end, jobs[j].mode).resets > PoolOf(s, jobs[j].mode).resets
            || exists k :: BeganUnrecorded(jobs, trace, j, k)
    decreases |trace|
  {
    if trace != [] {
      var t, rest := trace[0], trace[1..];
      var s1 := Apply(jobs, workers, s, t);
      KeepStep(jobs, workers, s, t);
      ResetsOnlyGrow(jobs, workers, s, t, jobs[j].mode);
      if t.Begin? && t.job == j {
        assert BeganUnrecorded(jobs, trace, j, 0);
      } else {
        if InUse(s1, j) {
          Unbegun(jobs, workers, s, t, j);
        }
        if Records(jobs, t, jobs[j].mode) {
          RecordQuarantines(jobs, workers, s, t);
          BlockedUntilReset(jobs, workers, s1, rest, end, j);
        } else {
          UnrecordedOrReset(jobs, workers, s1, rest, end, j);
          if k :| BeganUnrecorded(jobs, rest, j, k) {
            BeganLater(jobs, trace, j, k);
          }
        }
      }
    }
  }

  lemma BeganLater(jobs: seq<Job>, trace: seq<Step>, j: nat, k: nat)
    requires j < |jobs| && trace != [] && BeganUnrecorded(jobs, trace[1..], j, k)
    requires !Records(jobs, trace[0], jobs[j].mode)
    ensures BeganUnrecorded(jobs, trace, j, k + 1)
  {
    forall m | 0 <= m < k + 1 ensures !Records(jobs, trace[m], jobs[j].mode) {
      if m > 0 {
        assert trace[m] == trace[1..][m - 1];
      }
    }
  }

  /** After a failing drop, a call begun later gives its case a database only if it began before the
      failure was on record (one whose file cannot be written never is), or after a reset. */
  lemma FailedDropBlocksUnless(
    jobs: seq<Job>, workers: nat, s: State, t: Step, trace: seq<Step>, end: State, j: nat)
    requires Reachable(jobs, workers, s) && t.DropOwn? && !t.ok && Enabled(jobs, workers, s, t)
    requires Run(jobs, workers, Apply(jobs, workers, s, t), trace, end)
    requires j < |jobs| && !InUse(s, j) && InUse(end, j)
    ensures PoolOf(end, jobs[j].mode).resets > PoolOf(s, jobs[j].mode).resets
            || exists k :: BeganUnrecorded(jobs, trace, j, k)
  {
    var s1 := Apply(jobs, workers, s, t);
    ReachableInv(jobs, workers, s);
    KeepStep(jobs, workers, s, t);
    ResetsOnlyGrow(jobs, workers, s, t, jobs[j].mode);
    if InUse(s1, j) {
      Unbegun(jobs, workers, s, t, j);
    }
    UnrecordedOrReset(jobs, workers, s1, trace, end, j);
  }

  /** At the moment it begins, a call on a running server passes without a reset if and only if the
      pool is not quarantined. */
  lemma CallBeginsIff(jobs: seq<Job>, workers: nat, s: State, t: Step)
    requires Reachable(jobs, workers, s) && t.Begin? && Enabled(jobs, workers, s, t)
    requires PoolOf(s, jobs[t.job].mode).ready
    ensures var mode, s' := jobs[t.job].mode, Apply(jobs, workers, s, t);
            InUse(s', t.job) && PoolOf(s', mode).resets == PoolOf(s, mode).resets <==> !Quarantined(PoolOf(s, mode))
  {
    ReachableInv(jobs, workers, s);
    var p := PoolOf(s, jobs[t.job].mode);
    if Quarantined(p) {
      BeginSticks(p, t.start);
    } else {
      ReadyPostgres(p, t.start);
    }
  }

  // ---------------------------------------------------------------- calls that get through

  lemma RunStep(jobs: seq<Job>, workers: nat, s: State, t: Step, trace: seq<Step>, end: State)
    requires Enabled(jobs, workers, s, t) && Run(jobs, workers, Apply(jobs, workers, s, t), trace, end)
    ensures Run(jobs, workers, s, [t] + trace, end)
  {
    assert ([t] + trace)[1..] == trace;
  }

  const STARTS := StartEnv(true, true, true, "", {})
  const COPIES := CloneEnv(true, true, true, false)

  /** Nothing stands in the way of a call on the normal pool. */
  ghost predicate Open(s: State) {
    !s.normal.dirty && !s.normal.cleanupError && !s.normal.startError
  }

  /** Only `j` and the normal pool moved, and without a reset. */
  ghost predicate OnlyMoved(s: State, s': State, j: nat) {
    && s'.log == s.log && s'.fault == s.fault && s'.normal.resets == s.normal.resets
    && forall k: nat | k != j :: PhaseOf(s', k) == PhaseOf(s, k)
  }

  lemma BeginOpens(jobs: seq<Job>, workers: nat, s: State, j: nat) returns (s': State)
    requires Inv(jobs, workers, s) && j < |jobs| && jobs[j].mode.Fresh? && j in Running(s.log)
    requires PhaseOf(s, j).Idle? && Open(s)
    ensures Enabled(jobs, workers, s, Begin(j, STARTS)) && s' == Apply(jobs, workers, s, Begin(j, STARTS))
    ensures PhaseOf(s', j).Entering? && Open(s') && s'.normal.ready && OnlyMoved(s, s', j)
  {
    s' := Apply(jobs, workers, s, Begin(j, STARTS));
  }

  lemma CheckOpens(jobs: seq<Job>, workers: nat, s: State, j: nat) returns (s': State)
    requires Inv(jobs, workers, s) && j < |jobs| && jobs[j].mode.Fresh?
    requires PhaseOf(s, j).Entering? && Open(s) && s.normal.ready
    ensures var t := Check(j, EMPTY_PROFILE, true, STARTS);
            Enabled(jobs, workers, s, t) && s' == Apply(jobs, workers, s, t)
    ensures PhaseOf(s', j).Checked? && PhaseOf(s', j).profile == EMPTY_PROFILE && Open(s') && OnlyMoved(s, s', j)
  {
    ReadyPostgres(s.normal, STARTS);
    s' := Apply(jobs, workers, s, Check(j, EMPTY_PROFILE, true, STARTS));
  }

  lemma PrepareOpens(jobs: seq<Job>, workers: nat, s: State, j: nat) returns (s': State)
    requires j < |jobs| && jobs[j].mode.Fresh? && Open(s)
    requires PhaseOf(s, j).Checked? && PhaseOf(s, j).profile == EMPTY_PROFILE
    ensures var t := Prepare(j, STARTS, COPIES);
            Enabled(jobs, workers, s, t) && s' == Apply(jobs, workers, s, t)
    ensures PhaseOf(s', j).Based? && PhaseOf(s', j).profile == EMPTY_PROFILE && Open(s') && OnlyMoved(s, s', j)
  {
    s' := Apply(jobs, workers, s, Prepare(j, STARTS, COPIES));
  }

  lemma MakeOpens(jobs: seq<Job>, workers: nat, s: State, j: nat) returns (s': State, s'': State)
    requires j < |jobs| && jobs[j].mode.Fresh? && Open(s)
    requires PhaseOf(s, j).Based? && PhaseOf(s, j).profile == EMPTY_PROFILE
    ensures Enabled(jobs, workers, s, MakeOwn(j, COPIES)) && s' == Apply(jobs, workers, s, MakeOwn(j, COPIES))
    ensures Enabled(jobs, workers, s', Grant(j, true)) && s'' == Apply(jobs, workers, s', Grant(j, true))
    ensures PhaseOf(s'', j).Using? && Open(s'') && OnlyMoved(s, s'', j)
  {
    s' := Apply(jobs, workers, s, MakeOwn(j, COPIES));
    s'' := Apply(jobs, workers, s', Grant(j, true));
  }

  /** The steps of a case from its call to its database. */
  function EntrySteps(j: nat): (r: seq<Step>)
    ensures |r| == 5 && r[0] == Begin(j, STARTS)
  {
    [Begin(j, STARTS), Check(j, EMPTY_PROFILE, true, STARTS), Prepare(j, STARTS, COPIES), MakeOwn(j, COPIES),
     Grant(j, true)]
  }

  lemma RunEntry(jobs: seq<Job>, workers: nat, s: State, s1: State, s2: State, s3: State, s4: State, s5: State,
                 j: nat, rest: seq<Step>, end: State)
    requires Enabled(jobs, workers, s, Begin(j, STARTS)) && s1 == Apply(jobs, workers, s, Begin(j, STARTS))
    requires var t := Check(j, EMPTY_PROFILE, true, STARTS);
             Enabled(jobs, workers, s1, t) && s2 == Apply(jobs, workers, s1, t)
    requires Enabled(jobs, workers, s2, Prepare(j, STARTS, COPIES))
    requires s3 == Apply(jobs, workers, s2, Prepare(j, STARTS, COPIES))
    requires Enabled(jobs, workers, s3, MakeOwn(j, COPIES)) && s4 == Apply(jobs, workers, s3, MakeOwn(j, COPIES))
    requires Enabled(jobs, workers, s4, Grant(j, true)) && s5 == Apply(jobs, workers, s4, Grant(j, true))
    requires Run(jobs, workers, s5, rest, end)
    ensures Run(jobs, workers, s, EntrySteps(j) + rest, end)
  {
    var trace := rest;
    RunStep(jobs, workers, s4, Grant(j, true), trace, end);
    trace := [Grant(j, true)] + trace;
    RunStep(jobs, workers, s3, MakeOwn(j, COPIES), trace, end);
    trace := [MakeOwn(j, COPIES)] + trace;
    RunStep(jobs, workers, s2, Prepare(j, STARTS, COPIES), trace, end);
    trace := [Prepare(j, STARTS, COPIES)] + trace;
    RunStep(jobs, workers, s1, Check(j, EMPTY_PROFILE, true, STARTS), trace, end);
    trace := [Check(j, EMPTY_PROFILE, true, STARTS)] + trace;
    RunStep(jobs, workers, s, Begin(j, STARTS), trace, end);
    assert [Begin(j, STARTS)] + trace == EntrySteps(j) + rest;
  }

  /** As long as no error is on record, a waiting case can go all the way to its database, whatever
      the other cases are in the middle of; `rest` is whatever follows. */
  lemma CallGetsThrough(jobs: seq<Job>, workers: nat, s: State, j: nat) returns (s': State)
    requires Inv(jobs, workers, s) && j < |jobs| && jobs[j].mode.Fresh? && j in Running(s.log)
    requires PhaseOf(s, j).Idle? && Open(s)
    ensures PhaseOf(s', j).Using? && Open(s') && OnlyMoved(s, s', j)
    ensures forall rest, end | Run(jobs, workers, s', rest, end) :: Run(jobs, workers, s, EntrySteps(j) + rest, end)
  {
    var s1 := BeginOpens(jobs, workers, s, j);
    KeepStep(jobs, workers, s, Begin(j, STARTS));
    var s2 := CheckOpens(jobs, workers, s1, j);
    var s3 := PrepareOpens(jobs, workers, s2, j);
    var s4, s5 := MakeOpens(jobs, workers, s3, j);
    s' := s5;
    forall rest, end | Run(jobs, workers, s', rest, end) ensures Run(jobs, workers, s, EntrySteps(j) + rest, end) {
      RunEntry(jobs, workers, s, s1, s2, s3, s4, s5, j, rest, end);
    }
  }

  // ---------------------------------------------------------------- two cases that meet in the window

  const JOBS := [Job("a", Fresh), Job("b", Fresh)]

  lemma BothStart() returns (s: State)
    ensures Inv(JOBS, 2, s) && 0 in Running(s.log) && 1 in Running(s.log) && Open(s) && s.phases == map[]
    ensures forall rest, end | Run(JOBS, 2, s, rest, end) ::
              Run(JOBS, 2, INITIALLY, [Schedule(Start(0)), Schedule(Start(1))] + rest, end)
  {
    var start0, start1 := Schedule(Start(0)), Schedule(Start(1));
    var s1 := Apply(JOBS, 2, INITIALLY, start0);
    assert Running(s1.log) == {0} && Started(s1.log) == {0};
    assert Enabled(JOBS, 2, s1, start1);
    s := Apply(JOBS, 2, s1, start1);
    InitiallyInv(JOBS, 2);
    KeepStep(JOBS, 2, INITIALLY, start0);
    KeepStep(JOBS, 2, s1, start1);
    forall rest, end | Run(JOBS, 2, s, rest, end) ensures Run(JOBS, 2, INITIALLY, [start0, start1] + rest, end) {
      RunStep(JOBS, 2, s1, start1, rest, end);
      RunStep(JOBS, 2, INITIALLY, start0, [start1] + rest, end);
      assert [start0] + ([start1] + rest) == [start0, start1] + rest;
    }
  }

  lemma CloseThenDrop(s: State) returns (trace: seq<Step>, s': State)
    requires PhaseOf(s, 0).Using?
    ensures s'.log == s.log && s'.normal == s.normal && PhaseOf(s', 0).Failing? && PhaseOf(s', 1) == PhaseOf(s, 1)
    ensures Run(JOBS, 2, s, trace, s')
  {
    var close, drop := Close(0, true), DropOwn(0, false);
    var s1 := Apply(JOBS, 2, s, close);
    s' := Apply(JOBS, 2, s1, drop);
    RunStep(JOBS, 2, s1, drop, [], s');
    RunStep(JOBS, 2, s, close, [drop] + [], s');
    trace := [close] + ([drop] + []);
  }

  lemma RunToDrop(s0: State) returns (trace: seq<Step>, s: State)
    requires Inv(JOBS, 2, s0) && 0 in Running(s0.log) && PhaseOf(s0, 0).Idle? && Open(s0)
    ensures Run(JOBS, 2, s0, trace, s) && PhaseOf(s, 0).Failing? && PhaseOf(s, 1) == PhaseOf(s0, 1)
    ensures s.log == s0.log && Open(s)
  {
    var s1 := CallGetsThrough(JOBS, 2, s0, 0);
    var tail;
    tail, s := CloseThenDrop(s1);
    trace := EntrySteps(0) + tail;
  }

  /** A reachable state in which the drop of one case has just failed while another case waits. */
  lemma DropFails() returns (s: State)
    ensures Reachable(JOBS, 2, s) && PhaseOf(s, 0).Failing?
    ensures PhaseOf(s, 1).Idle? && 1 in Running(s.log) && Open(s)
  {
    var s0 := BothStart();
    var trace;
    trace, s := RunToDrop(s0);
    assert Run(JOBS, 2, INITIALLY, [Schedule(Start(0)), Schedule(Start(1))] + trace, s);
  }

  /** The window is real: a call begun after the drop failed gets its database although the failure is
      published and recorded in the end. */
  lemma WindowLetsCallThrough() returns (s: State, trace: seq<Step>, end: State)
    ensures Reachable(JOBS, 2, s) && PhaseOf(s, 0).Failing? && !InUse(s, 1)
    ensures trace == EntrySteps(1) + [Record(0, true)] && BeganUnrecorded(JOBS, trace, 1, 0)
    ensures Run(JOBS, 2, s, trace, end)
    ensures PhaseOf(end, 1).Using? && end.normal.cleanupError && end.normal.resets == s.normal.resets
  {
    s := DropFails();
    ReachableInv(JOBS, 2, s);
    var s1 := CallGetsThrough(JOBS, 2, s, 1);
    assert PhaseOf(s1, 0) == PhaseOf(s, 0);
    end := Apply(JOBS, 2, s1, Record(0, true));
    RunStep(JOBS, 2, s1, Record(0, true), [], end);
    assert [Record(0, true)] + [] == [Record(0, true)];
    trace := EntrySteps(1) + [Record(0, true)];
  }

  /** So is the other way through: when the failure file cannot be written, the failure is forgotten. */
  lemma UnpublishedFailureIsForgotten() returns (s: State, trace: seq<Step>, end: State)
    ensures Reachable(JOBS, 2, s) && PhaseOf(s, 0).Failing? && !InUse(s, 1)
    ensures trace == [Record(0, false)] + EntrySteps(1) && Run(JOBS, 2, s, trace, end)
    ensures PhaseOf(end, 1).Using? && !end.normal.cleanupError && end.normal.resets == s.normal.resets
  {
    s := DropFails();
    ReachableInv(JOBS, 2, s);
    var next := Apply(JOBS, 2, s, Record(0, false));
    KeepStep(JOBS, 2, s, Record(0, false));
    end := CallGetsThrough(JOBS, 2, next, 1);
    assert Run(JOBS, 2, end, [], end);
    assert EntrySteps(1) + [] == EntrySteps(1);
    RunStep(JOBS, 2, s, Record(0, false), EntrySteps(1), end);
    trace := [Record(0, false)] + EntrySteps(1);
  }
}
