/**
 What cancellation does to the processes it saw, and what the error record means.
 */
module ProcessSignals {
  import opened Options
  import opened Processes

  /** The cancellation numbered `k` has signalled child `c`. */
  ghost predicate Signalled(s: State, k: nat, c: Child) {
    Sent(k, c, true) in s.sent || Sent(k, c, false) in s.sent
  }

  /** A running cancellation has signalled whatever of its snapshot is not left to do. */
  ghost predicate PhaseKept(s: State, t: Thread, phase: Phase) {
    phase.Signalling? ==>
      && phase.cut < |s.cuts| && s.cuts[phase.cut].taker == t && phase.todo <= s.cuts[phase.cut].seen
      && forall c | c in s.cuts[phase.cut].seen :: c in phase.todo || Signalled(s, phase.cut, c)
  }

  ghost predicate FrameKept(s: State, t: Thread, f: Frame) {
    && (f.handler.Some? ==> PhaseKept(s, t, f.handler.value))
    && (f.call.Cancelling? ==> PhaseKept(s, t, f.call.phase))
    && (f.call.Failed? ==> f.call.child in s.failures)
  }

  /** The record holds exactly the signals that failed, and stops that failed. */
  ghost predicate RecordKept(s: State) {
    && (forall k: nat, c: Child | Sent(k, c, false) in s.sent :: (c, Cancel) in s.errors)
    && (forall c: Child | (c, Cancel) in s.errors :: exists k: nat :: Sent(k, c, false) in s.sent)
    && (forall c: Child | (c, Stop) in s.errors :: c in s.failures)
    && (forall x | x in s.sent :: x.cut < |s.cuts| && x.child in s.cuts[x.cut].seen)
  }

  ghost predicate Kept(s: State) {
    RecordKept(s) && forall t | t in s.frames :: FrameKept(s, t, s.frames[t])
  }

  /** Histories only grow. */
  ghost predicate Later(s: State, s': State) {
    && s.sent <= s'.sent && s.errors <= s'.errors && s.failures <= s'.failures
    && |s.cuts| <= |s'.cuts| && forall k | 0 <= k < |s.cuts| :: s'.cuts[k] == s.cuts[k]
  }

  lemma StepIsLater(s: State, step: Step)
    requires Enabled(s, step)
    ensures Later(s, Apply(s, step))
  {
  }

  lemma LaterKeepsFrame(s: State, s': State, t: Thread, f: Frame)
    requires Later(s, s') && FrameKept(s, t, f)
    ensures FrameKept(s', t, f)
  {
  }

  lemma KeepOwnFrame(s: State, step: Step)
    requires Kept(s) && Enabled(s, step)
    ensures FrameKept(Apply(s, step), step.t, Apply(s, step).frames[step.t])
  {
    StepIsLater(s, step);
    assert FrameKept(s, step.t, s.frames[step.t]);
    if !step.Snapshot? && !step.Signal? {
      LaterKeepsFrame(s, Apply(s, step), step.t, s.frames[step.t]);
    }
  }

  lemma KeepRecord(s: State, step: Step)
    requires Kept(s) && Enabled(s, step)
    ensures RecordKept(Apply(s, step))
  {
    var s' := Apply(s, step);
    assert FrameKept(s, step.t, s.frames[step.t]);
    if step.Signal? {
      var phase := Active(s.frames[step.t]).value;
      forall c: Child | (c, Cancel) in s'.errors ensures exists k: nat :: Sent(k, c, false) in s'.sent {
        if (c, Cancel) in s.errors {
          var k: nat :| Sent(k, c, false) in s.sent;
          assert Sent(k, c, false) in s'.sent;
        } else {
          assert Sent(phase.cut, c, false) in s'.sent;
        }
      }
    }
  }

  lemma KeepStepped(s: State, step: Step)
    requires Kept(s) && Enabled(s, step)
    ensures Kept(Apply(s, step))
  {
    var s' := Apply(s, step);
    KeepRecord(s, step);
    StepIsLater(s, step);
    forall t | t in s'.frames ensures FrameKept(s', t, s'.frames[t]) {
      if t == step.t {
        KeepOwnFrame(s, step);
      } else {
        LaterKeepsFrame(s, s', t, s.frames[t]);
      }
    }
  }

  lemma {:induction false} KeptRun(start: State, steps: seq<Step>, end: State)
    requires Kept(start) && Run(start, steps, end)
    ensures Kept(end)
    decreases |steps|
  {
    if steps != [] {
      KeepStepped(start, steps[0]);
      KeptRun(Apply(start, steps[0]), steps[1..], end);
    }
  }

  lemma ReachableKept(s: State)
    requires Reachable(s)
    ensures Kept(s)
  {
    var threads, steps :| Run(Init(threads), steps, s);
    KeptRun(Init(threads), steps, s);
  }

  // ---------------------------------------------------------------- theorems

  /** When a cancellation returns, it has signalled every child that was registered when it took its
      snapshot, and the ones it could not signal are on record. */
  lemma CancelSignalsEveryChild(s: State, t: Thread, c: Child)
    requires Reachable(s) && Enabled(s, EndCancel(t))
    ensures var k := Active(s.frames[t]).value.cut;
            && k < |s.cuts| && s.cuts[k].taker == t
            && (c in s.cuts[k].seen ==> Sent(k, c, true) in s.sent || Sent(k, c, false) in s.sent)
            && (Sent(k, c, false) in s.sent ==> (c, Cancel) in s.errors)
  {
    ReachableKept(s);
    assert FrameKept(s, t, s.frames[t]);
  }

  /** Its snapshot is what was registered at that moment. */
  lemma SnapshotIsTheRegistry(s: State, t: Thread)
    requires Enabled(s, Snapshot(t))
    ensures var s' := Apply(s, Snapshot(t));
            && |s'.cuts| == |s.cuts| + 1 && s'.cuts[|s.cuts|].seen == s.children && s'.cuts[|s.cuts|].taker == t
            && Active(s'.frames[t]).Some? && Active(s'.frames[t]).value.Signalling?
            && Active(s'.frames[t]).value.cut == |s.cuts|
  {
  }

  /** Only children of the snapshot are signalled. */
  lemma OnlySeenAreSignalled(s: State, x: Sent)
    requires Reachable(s) && x in s.sent
    ensures x.cut < |s.cuts| && x.child in s.cuts[x.cut].seen
  {
    ReachableKept(s);
  }

  /** Every recorded error is the failure it names. */
  lemma ErrorsAreReal(s: State, c: Child)
    requires Reachable(s)
    ensures (c, Cancel) in s.errors <==> exists k: nat :: Sent(k, c, false) in s.sent
    ensures (c, Stop) in s.errors ==> c in s.failures
  {
    ReachableKept(s);
  }

  /** A spawn gets past the check if and only if the run is not cancelled or the check is waived, and
      then holds the lock; otherwise nothing happens. */
  lemma SpawnPassesIff(s: State, t: Thread, exempt: bool)
    requires Enabled(s, Enter(t, exempt))
    ensures var s' := Apply(s, Enter(t, exempt));
            && (s'.frames[t].call == Spawning(exempt) && s'.lock == Some(t) <==> exempt || !s.cancelled)
            && (s.cancelled && !exempt ==> s' == s)
  {
  }

  /** A started child is registered at once. */
  lemma StartedIsRegistered(s: State, t: Thread)
    requires Enabled(s, Popen(t, true))
    ensures var s' := Apply(s, Popen(t, true));
            && s'.spawns == s.spawns + [Spawn(t, s.frames[t].call.exempt)]
            && s'.children == s.children + {|s.spawns|} && s'.lock.None? && s'.frames[t].call.Idle?
  {
  }

  /** The cancellation flag is never taken back. */
  lemma {:induction false} CancelledStays(start: State, steps: seq<Step>, end: State)
    requires Run(start, steps, end) && start.cancelled
    ensures end.cancelled
    decreases |steps|
  {
    if steps != [] {
      CancelledStays(Apply(start, steps[0]), steps[1..], end);
    }
  }

  /** A handler may interrupt any call; any start, stop or signal may fail. */
  lemma AnythingMayHappen(s: State, t: Thread, c: Child, ok: bool, exempt: bool)
    requires t in s.frames && s.frames[t].handler.None?
    ensures Enabled(s, Interrupt(t))
    ensures s.frames[t].call.Spawning? ==> Enabled(s, Popen(t, ok))
    ensures s.frames[t].call.Stopping? ==> Enabled(s, EndStop(t, ok))
    ensures s.frames[t].call.Idle? && s.frames[t].close.None? && s.lock.None? ==>
              Enabled(s, Enter(t, exempt)) && Enabled(s, Release(t, c)) && Enabled(s, SetFlag(t, ok))
    ensures (&& s.lock.None? && s.frames[t].call.Cancelling? && s.frames[t].call.phase.Signalling?
             && c in s.frames[t].call.phase.todo)
            ==> Enabled(s, Signal(t, c, ok))
  {
  }

  // ---------------------------------------------------------------- cancel and close return

  /** Each signal leaves one child less to signal, and the return leads back to what was interrupted,
      or to the caller. */
  lemma CancelDescends(s: State, step: Step)
    requires Enabled(s, step) && (step.Signal? || step.EndCancel?)
    ensures var f, f' := s.frames[step.t], Apply(s, step).frames[step.t];
            && (step.Signal? ==> Active(f').Some? && Active(f').value.Signalling?
                                 && Active(f').value.todo == Active(f).value.todo - {step.c}
                                 && Active(f').value.cut == Active(f).value.cut)
            && (step.EndCancel? && f.handler.Some? ==> f' == f.(handler := None))
            && (step.EndCancel? && f.handler.None? ==>
                  f' == f.(call := if f.call.closing then Listing else Idle) && Active(f').None?)
  {
  }

  /** The own steps that the loop of `close` has left at most. */
  function StepsLeft(f: Frame): nat {
    if f.close.None? then 0
    else
      4 * |f.close.value.todo| + match f.call
                                 case Stopping(_) => 4
                                 case Stopped(_) => 3
                                 case Failed(_) => 3
                                 case _ => 1
  }

  lemma OneLess(todo: set<Child>, c: Child)
    requires c in todo
    ensures |todo - {c}| == |todo| - 1
  {
  }

  lemma NextDescends(s: State, step: Step)
    requires Enabled(s, step) && step.Next?
    ensures StepsLeft(Apply(s, step).frames[step.t]) < StepsLeft(s.frames[step.t])
  {
    OneLess(s.frames[step.t].close.value.todo, step.c);
  }

  lemma ReleaseDescends(s: State, step: Step)
    requires Enabled(s, step) && s.frames[step.t].close.Some?
    requires step.EndStop? || step.Record? || step.Discard? || step.EndClose?
    ensures StepsLeft(Apply(s, step).frames[step.t]) < StepsLeft(s.frames[step.t])
  {
  }

  /** Only these steps are possible inside the loop. */
  lemma StepsOfClose(s: State, step: Step)
    requires Inv(s) && Enabled(s, step) && !step.Interrupt?
    requires s.frames[step.t].close.Some? && s.frames[step.t].handler.None?
    ensures step.Next? || step.EndStop? || step.Record? || step.Discard? || step.EndClose?
  {
  }

  /** Whatever fails, each own step inside the loop of `close` brings its end nearer, and no other
      thread can put it off. */
  lemma CloseDescends(s: State, step: Step, t: Thread)
    requires Reachable(s) && Enabled(s, step) && t in s.frames && s.frames[t].close.Some? && s.frames[t].handler.None?
    requires !step.Interrupt?
    ensures var f, f' := s.frames[t], Apply(s, step).frames[t];
            if step.t == t then StepsLeft(f') < StepsLeft(f) else f' == f
  {
    if step.t != t {
      OtherStep(s, step, t);
    } else {
      ReachableInv(s);
      StepsOfClose(s, step);
      if step.Next? {
        NextDescends(s, step);
      } else {
        ReleaseDescends(s, step);
      }
    }
  }
}
