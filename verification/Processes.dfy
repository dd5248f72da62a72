/**
 The registry of owned process groups: several threads spawn, release, cancel
 and close, and a signal handler may run `cancel` on a thread in the middle of
 any of its other calls. Children are numbered in the order they were started.

 The lock is re-entrant, so a handler passes it while its own thread is spawning.
 Only a spawn keeps the lock over more than one step; every other critical section
 touches the shared fields once and is one step.
 */
module Processes {
  import opened Options

  type Thread = nat
  type Child = nat

  datatype Action = Stop | Cancel

  /** A started child: who started it, and whether the cancellation check was waived. */
  datatype Spawn = Spawn(owner: Thread, exempt: bool)

  /** `cancel` after it set the flag: before its snapshot, or signalling what it saw there; `cut` is
      the number of that snapshot. */
  datatype Phase = Flagged | Signalling(todo: set<Child>, cut: nat)

  /** One signal that a cancellation sent, and whether it got through. */
  datatype Sent = Sent(cut: nat, child: Child, ok: bool)

  datatype Call =
    | Idle
    | Spawning(exempt: bool)                  // lock held, check passed, before Popen
    | Stopping(child: Child)                  // release found the child, stop is running
    | Stopped(child: Child)                   // before discarding
    | Failed(child: Child)                    // stop raised, before recording the error
    | Cancelling(phase: Phase, closing: bool) // `cancel`, called directly or by `close`
    | Listing                                 // `close` before its own snapshot

  /** The loop of `close`; `mark` counts the children started before its snapshot. */
  datatype Close = Close(mark: nat, todo: set<Child>, failures: set<Child>)

  datatype Frame = Frame(call: Call, close: Option<Close>, handler: Option<Phase>)

  /** One snapshot taken by `cancel`; `interrupted` when its thread was inside a spawn. */
  datatype Cut = Cut(taker: Thread, seen: set<Child>, mark: nat, interrupted: bool)

  datatype State = State(
    cancelled: bool, children: set<Child>, lock: Option<Thread>, errors: set<(Child, Action)>,
    frames: map<Thread, Frame>,
    spawns: seq<Spawn>,     // history: every child ever started
    stopped: set<Child>,    // history: children whose stop completed
    failures: set<Child>,   // history: children of which a stop failed
    cuts: seq<Cut>,         // history: every snapshot of `cancel`
    sent: set<Sent>)        // history: every signal of `cancel`

  datatype Step =
    | Enter(t: Thread, exempt: bool)          // take the lock and check
    | Popen(t: Thread, ok: bool)              // start, register and unlock, or raise
    | Release(t: Thread, c: Child)
    | EndStop(t: Thread, ok: bool)
    | Record(t: Thread)
    | Discard(t: Thread)
    | SetFlag(t: Thread, closing: bool)
    | Interrupt(t: Thread)                    // the signal handler starts on this thread
    | Snapshot(t: Thread)
    | Signal(t: Thread, c: Child, ok: bool)
    | EndCancel(t: Thread)
    | List(t: Thread)
    | Next(t: Thread, c: Child)
    | EndClose(t: Thread)

  const IDLE := Frame(Idle, None, None)

  function Init(threads: set<Thread>): State {
    State(false, {}, None, {}, map t | t in threads :: IDLE, [], {}, {}, [], {})
  }

  // ---------------------------------------------------------------- steps

  /** The cancellation a thread is executing: its handler goes first. */
  function Active(f: Frame): Option<Phase> {
    if f.handler.Some? then f.handler
    else if f.call.Cancelling? then Some(f.call.phase) else None
  }

  function WithPhase(f: Frame, p: Phase): Frame
    requires Active(f).Some?
  {
    if f.handler.Some? then f.(handler := Some(p)) else f.(call := f.call.(phase := p))
  }

  /** Return from the running cancellation. */
  function Returned(f: Frame): Frame
    requires Active(f).Some?
  {
    if f.handler.Some? then f.(handler := None)
    else f.(call := if f.call.closing then Listing else Idle)
  }

  predicate Passes(s: State, t: Thread) {
    s.lock == None || s.lock == Some(t)
  }

  predicate Calling(s: State, t: Thread) {
    t in s.frames && s.frames[t].handler.None?
  }

  predicate Enabled(s: State, step: Step) {
    match step
    case Enter(t, _) => Calling(s, t) && s.frames[t].call == Idle && s.frames[t].close.None? && Passes(s, t)
    case Popen(t, _) => Calling(s, t) && s.frames[t].call.Spawning?
    case Release(t, _) => Calling(s, t) && s.frames[t].call == Idle && s.frames[t].close.None? && Passes(s, t)
    case EndStop(t, _) => Calling(s, t) && s.frames[t].call.Stopping?
    case Record(t) => Calling(s, t) && s.frames[t].call.Failed? && Passes(s, t)
    case Discard(t) => Calling(s, t) && s.frames[t].call.Stopped? && Passes(s, t)
    case SetFlag(t, _) => Calling(s, t) && s.frames[t].call == Idle && s.frames[t].close.None?
    case Interrupt(t) => Calling(s, t)
    case Snapshot(t) => t in s.frames && Active(s.frames[t]) == Some(Flagged) && Passes(s, t)
    case Signal(t, c, ok) =>
      && t in s.frames && Active(s.frames[t]).Some? && Active(s.frames[t]).value.Signalling?
      && c in Active(s.frames[t]).value.todo && (ok || Passes(s, t))
    case EndCancel(t) =>
      t in s.frames && Active(s.frames[t]).Some? && Active(s.frames[t]).value.Signalling?
      && Active(s.frames[t]).value.todo == {}
    case List(t) => Calling(s, t) && s.frames[t].call == Listing && Passes(s, t)
    case Next(t, c) =>
      && Calling(s, t) && s.frames[t].call == Idle && s.frames[t].close.Some?
      && c in s.frames[t].close.value.todo && Passes(s, t)
    case EndClose(t) =>
      Calling(s, t) && s.frames[t].call == Idle && s.frames[t].close.Some? && s.frames[t].close.value.todo == {}
  }

  function At(s: State, t: Thread, f: Frame): State {
    s.(frames := s.frames[t := f])
  }

  function Called(s: State, t: Thread, call: Call): State
    requires t in s.frames
  {
    At(s, t, s.frames[t].(call := call))
  }

  /** The membership test at the head of `release`. */
  function Released(s: State, t: Thread, c: Child): State
    requires t in s.frames
  {
    if c in s.children then Called(s, t, Stopping(c)) else s
  }

  /** A failed stop is recorded and raised; `close` goes on with the next child. */
  function Recorded(s: State, t: Thread): State
    requires t in s.frames && s.frames[t].call.Failed?
  {
    var f := s.frames[t];
    var close := if f.close.None? then None
                 else Some(f.close.value.(failures := f.close.value.failures + {f.call.child}));
    At(s, t, f.(call := Idle, close := close)).(errors := s.errors + {(f.call.child, Stop)})
  }

  function Apply(s: State, step: Step): State
    requires Enabled(s, step)
  {
    match step
    case Enter(t, exempt) =>
      if exempt || !s.cancelled then Called(s, t, Spawning(exempt)).(lock := Some(t)) else s
    case Popen(t, ok) =>
      var s' := Called(s, t, Idle).(lock := None);
      if ok then s'.(children := s.children + {|s.spawns|},
                     spawns := s.spawns + [Spawn(t, s.frames[t].call.exempt)])
      else s'
    case Release(t, c) => Released(s, t, c)
    case EndStop(t, ok) =>
      var c := s.frames[t].call.child;
      if ok then Called(s, t, Stopped(c)).(stopped := s.stopped + {c})
      else Called(s, t, Failed(c)).(failures := s.failures + {c})
    case Record(t) => Recorded(s, t)
    case Discard(t) => Called(s, t, Idle).(children := s.children - {s.frames[t].call.child})
    case SetFlag(t, closing) => Called(s, t, Cancelling(Flagged, closing)).(cancelled := true)
    case Interrupt(t) => At(s, t, s.frames[t].(handler := Some(Flagged))).(cancelled := true)
    case Snapshot(t) =>
      var cut := Cut(t, s.children, |s.spawns|, s.frames[t].call.Spawning?);
      At(s, t, WithPhase(s.frames[t], Signalling(s.children, |s.cuts|))).(cuts := s.cuts + [cut])
    case Signal(t, c, ok) =>
      var phase := Active(s.frames[t]).value;
      var s' := At(s, t, WithPhase(s.frames[t], phase.(todo := phase.todo - {c})))
                .(sent := s.sent + {Sent(phase.cut, c, ok)});
      if ok then s' else s'.(errors := s.errors + {(c, Cancel)})
    case EndCancel(t) => At(s, t, Returned(s.frames[t]))
    case List(t) => At(s, t, s.frames[t].(call := Idle, close := Some(Close(|s.spawns|, s.children, {}))))
    case Next(t, c) =>
      var close := s.frames[t].close.value;
      Released(At(s, t, s.frames[t].(close := Some(close.(todo := close.todo - {c})))), t, c)
    case EndClose(t) => At(s, t, s.frames[t].(close := None))
  }

  /** `end` follows from `start` by the steps in order. */
  ghost predicate Run(start: State, steps: seq<Step>, end: State)
    decreases |steps|
  {
    if steps == [] then start == end
    else Enabled(start, steps[0]) && Run(Apply(start, steps[0]), steps[1..], end)
  }

  ghost predicate Reachable(s: State) {
    exists threads, steps :: Run(Init(threads), steps, s)
  }

  // ---------------------------------------------------------------- invariant

  /** A child was registered and, once gone, its stop has completed. */
  ghost predicate LeftStopped(s: State) {
    && (forall c | c in s.children :: c < |s.spawns|)
    && (forall c: nat :: c < |s.spawns| ==> c in s.children || c in s.stopped)
    && (forall t | t in s.frames && s.frames[t].call.Stopped? :: s.frames[t].call.child in s.stopped)
  }

  ghost predicate Locked(s: State) {
    forall t | t in s.frames ::
      && (s.frames[t].call.Spawning? <==> s.lock == Some(t))
      && (s.frames[t].call.Spawning? ==> s.frames[t].close.None?)
  }

  /** Everything that follows setting the flag still sees it set; `close` is not nested. */
  ghost predicate FlagKept(s: State) {
    && (s.cuts != [] ==> s.cancelled)
    && forall t | t in s.frames ::
         var f := s.frames[t];
         && (f.handler.Some? || f.call.Cancelling? || f.call.Listing? || f.close.Some? ==> s.cancelled)
         && (f.call.Cancelling? || f.call.Listing? ==> f.close.None?)
  }

  /** A spawn that passed the check before the flag was set, at thread `u`. */
  ghost predicate Pending(s: State, u: Thread) {
    u in s.frames && s.frames[u].call == Spawning(false)
  }

  /** Which child a snapshot can have missed. */
  ghost predicate Missed(s: State, cut: Cut, c: Child)
    requires c < |s.spawns|
  {
    s.spawns[c].exempt || (cut.interrupted && c == cut.mark && s.spawns[c].owner == cut.taker)
  }

  ghost predicate CutKept(s: State, cut: Cut) {
    && cut.mark <= |s.spawns|
    && (forall c | c in cut.seen :: c < cut.mark)
    && (forall c: nat :: c < cut.mark ==> c in cut.seen || c !in s.children)
    && (forall c: nat :: cut.mark <= c < |s.spawns| ==> Missed(s, cut, c))
    && (forall u | Pending(s, u) :: u == cut.taker && cut.interrupted && |s.spawns| == cut.mark)
  }

  predicate Handling(call: Call, c: Child) {
    (call.Stopping? || call.Stopped? || call.Failed?) && call.child == c
  }

  /** No spawn outside cleanup mode completed since the children were listed, or still can. */
  ghost predicate Quiet(s: State, mark: nat) {
    && mark <= |s.spawns|
    && (forall c: nat :: mark <= c < |s.spawns| ==> s.spawns[c].exempt)
    && (forall u :: !Pending(s, u))
  }

  /** Every listed child is still to be released, being released, gone, or failed on the record. */
  ghost predicate Progress(s: State, f: Frame)
    requires f.close.Some?
  {
    var cl := f.close.value;
    && (forall c | c in s.children && c < cl.mark :: c in cl.todo || c in cl.failures || Handling(f.call, c))
    && (forall c | c in cl.failures :: (c, Stop) in s.errors)
  }

  ghost predicate CloseKept(s: State, f: Frame)
    requires f.close.Some?
  {
    Quiet(s, f.close.value.mark) && Progress(s, f)
  }

  ghost predicate Inv(s: State) {
    && LeftStopped(s) && Locked(s) && FlagKept(s)
    && (forall cut | cut in s.cuts :: CutKept(s, cut))
    && (forall t | t in s.frames && s.frames[t].close.Some? :: CloseKept(s, s.frames[t]))
  }

  lemma KeepLeft(s: State, step: Step)
    requires LeftStopped(s) && Enabled(s, step)
    ensures LeftStopped(Apply(s, step))
  {
  }

  lemma KeepLock(s: State, step: Step)
    requires Locked(s) && Enabled(s, step)
    ensures Locked(Apply(s, step))
  {
  }

  lemma KeepFlag(s: State, step: Step)
    requires FlagKept(s) && Enabled(s, step)
    ensures FlagKept(Apply(s, step))
  {
  }

  /** After the flag is set, no thread newly passes the check without the exemption. */
  lemma NoNewPending(s: State, step: Step, u: Thread)
    requires s.cancelled && Enabled(s, step) && Pending(Apply(s, step), u)
    ensures Pending(s, u)
  {
  }

  /** While one thread is pending, no other thread starts a child. */
  lemma PendingAlone(s: State, step: Step, u: Thread)
    requires Locked(s) && Enabled(s, step) && Pending(s, u) && Pending(Apply(s, step), u)
    ensures Apply(s, step).spawns == s.spawns
  {
  }

  lemma KeepCut(s: State, step: Step, cut: Cut)
    requires Inv(s) && Enabled(s, step) && cut in s.cuts
    ensures CutKept(Apply(s, step), cut)
  {
    var s' := Apply(s, step);
    assert CutKept(s, cut);
    forall u | Pending(s', u) ensures u == cut.taker && cut.interrupted && |s'.spawns| == cut.mark {
      NoNewPending(s, step, u);
      PendingAlone(s, step, u);
    }
    forall c: nat | cut.mark <= c < |s'.spawns| ensures Missed(s', cut, c) {
      if c < |s.spawns| {
        assert Missed(s, cut, c) && s'.spawns[c] == s.spawns[c];
      } else {
        assert !s.frames[step.t].call.exempt ==> Pending(s, step.t);
      }
    }
  }

  lemma NewCut(s: State, t: Thread)
    requires Inv(s) && Enabled(s, Snapshot(t))
    ensures CutKept(Apply(s, Snapshot(t)), Cut(t, s.children, |s.spawns|, s.frames[t].call.Spawning?))
  {
  }

  lemma KeepQuiet(s: State, step: Step, mark: nat)
    requires s.cancelled && Quiet(s, mark) && Enabled(s, step)
    ensures Quiet(Apply(s, step), mark)
  {
    var s' := Apply(s, step);
    forall u ensures !Pending(s', u) {
      if Pending(s', u) {
        NoNewPending(s, step, u);
      }
    }
    if step.Popen? && step.ok {
      assert !Pending(s, step.t);
    }
  }

  /** A step of another thread changes neither this frame nor what was recorded, and adds only
      a child with a new number. */
  lemma OtherStep(s: State, step: Step, t: Thread)
    requires Enabled(s, step) && t in s.frames && step.t != t
    ensures Apply(s, step).frames[t] == s.frames[t] && Apply(s, step).errors >= s.errors
    ensures Apply(s, step).children <= s.children + {|s.spawns|}
  {
  }

  /** The steps a thread can take inside the loop of `close`. */
  lemma ClosingStep(s: State, step: Step)
    requires FlagKept(s) && Enabled(s, step)
    requires s.frames[step.t].close.Some? && Apply(s, step).frames[step.t].close.Some?
    requires !step.Popen? && Progress(s, s.frames[step.t])
    ensures Apply(s, step).frames[step.t].close.value.mark == s.frames[step.t].close.value.mark
    ensures Progress(Apply(s, step), Apply(s, step).frames[step.t])
  {
  }

  lemma KeepProgress(s: State, step: Step, t: Thread)
    requires Inv(s) && Enabled(s, step) && t in s.frames && s.frames[t].close.Some?
    requires Apply(s, step).frames[t].close.Some?
    ensures Apply(s, step).frames[t].close.value.mark == s.frames[t].close.value.mark
    ensures Progress(Apply(s, step), Apply(s, step).frames[t])
  {
    assert CloseKept(s, s.frames[t]);
    if step.t != t {
      OtherStep(s, step, t);
    } else {
      ClosingStep(s, step);
    }
  }

  lemma NewClose(s: State, t: Thread)
    requires Inv(s) && Enabled(s, List(t))
    ensures CloseKept(Apply(s, List(t)), Apply(s, List(t)).frames[t])
  {
  }

  lemma KeepStep(s: State, step: Step)
    requires Inv(s) && Enabled(s, step)
    ensures Inv(Apply(s, step))
  {
    var s' := Apply(s, step);
    KeepLeft(s, step);
    KeepLock(s, step);
    KeepFlag(s, step);
    forall cut | cut in s'.cuts ensures CutKept(s', cut) {
      if cut in s.cuts {
        KeepCut(s, step, cut);
      } else {
        NewCut(s, step.t);
      }
    }
    forall t | t in s'.frames && s'.frames[t].close.Some? ensures CloseKept(s', s'.frames[t]) {
      if s.frames[t].close.Some? {
        KeepQuiet(s, step, s.frames[t].close.value.mark);
        KeepProgress(s, step, t);
      } else {
        NewClose(s, t);
      }
    }
  }

  lemma {:induction false} KeepRun(start: State, steps: seq<Step>, end: State)
    requires Inv(start) && Run(start, steps, end)
    ensures Inv(end)
    decreases |steps|
  {
    if steps != [] {
      KeepStep(start, steps[0]);
      KeepRun(Apply(start, steps[0]), steps[1..], end);
    }
  }

  lemma ReachableInv(s: State)
    requires Reachable(s)
    ensures Inv(s)
  {
    var threads, steps :| Run(Init(threads), steps, s);
    KeepRun(Init(threads), steps, s);
  }

  // ---------------------------------------------------------------- theorems

  /** In every reachable state a child that left the registry has been stopped. */
  lemma LeavesOnlyStopped(s: State, c: Child)
    requires Reachable(s) && c < |s.spawns| && c !in s.children
    ensures c in s.stopped
  {
    ReachableInv(s);
  }

  /** Of what is registered after a cancellation took its snapshot, the snapshot missed exactly the
      children started in cleanup mode afterwards, and the one child whose spawn the signal handler
      that cancels had interrupted. */
  lemma CancelSeesEveryChild(s: State, cut: Cut, c: Child)
    requires Reachable(s) && cut in s.cuts && c in s.children
    ensures c < |s.spawns|
    ensures c !in cut.seen <==>
              || (c >= cut.mark && s.spawns[c].exempt)
              || (cut.interrupted && c == cut.mark && s.spawns[c].owner == cut.taker)
  {
    ReachableInv(s);
    assert CutKept(s, cut);
    if c >= cut.mark {
      assert Missed(s, cut, c);
    }
  }

  /** A spawn of another thread, outside cleanup mode, was refused, released or seen. */
  lemma OtherThreadsAreSeen(s: State, cut: Cut, c: Child)
    requires Reachable(s) && cut in s.cuts && c < |s.spawns|
    requires s.spawns[c].owner != cut.taker && !s.spawns[c].exempt
    ensures c in cut.seen || (c !in s.children && c in s.stopped)
  {
    if c in s.children {
      CancelSeesEveryChild(s, cut, c);
    } else {
      LeavesOnlyStopped(s, c);
    }
  }

  /** When `close` is about to return, every registered child is one whose stop failed with a
      recorded error, or was started in cleanup mode after `close` listed the children. */
  lemma CloseOutcome(s: State, t: Thread, c: Child)
    requires Reachable(s) && Enabled(s, EndClose(t)) && c in s.children
    ensures c < |s.spawns|
    ensures var cl := s.frames[t].close.value;
            || (c in cl.failures && (c, Stop) in s.errors)
            || (c >= cl.mark && s.spawns[c].exempt)
  {
    ReachableInv(s);
    var cl := s.frames[t].close.value;
    assert CloseKept(s, s.frames[t]) && !Handling(s.frames[t].call, c);
    if c < cl.mark {
      assert c in cl.failures;
      assert (c, Stop) in s.errors;
    } else {
      assert s.spawns[c].exempt;
    }
  }

  /** With no cleanup-mode spawn since `close` listed the children, a normal return leaves none
      and an exceptional one leaves only children with a recorded error. */
  lemma CloseLeavesRecordedErrors(s: State, t: Thread)
    requires Reachable(s) && Enabled(s, EndClose(t))
    requires forall c: nat :: s.frames[t].close.value.mark <= c < |s.spawns| ==> !s.spawns[c].exempt
    ensures s.frames[t].close.value.failures == {} ==> s.children == {}
    ensures forall c | c in s.children :: (c, Stop) in s.errors
  {
    forall c | c in s.children ensures c in s.frames[t].close.value.failures && (c, Stop) in s.errors {
      CloseOutcome(s, t, c);
    }
  }

  lemma RunStep(s: State, step: Step, rest: seq<Step>, end: State)
    requires Enabled(s, step) && Run(Apply(s, step), rest, end)
    ensures Run(s, [step] + rest, end)
  {
    assert ([step] + rest)[1..] == rest;
  }

  /** One thread that has started nothing yet. */
  function Lone(cancelled: bool, lock: Option<Thread>, f: Frame, cuts: seq<Cut>): State {
    State(cancelled, {}, lock, {}, map[0 := f], [], {}, {}, cuts, {})
  }

  const ESCAPED :=
    State(true, {0}, None, {}, map[0 := IDLE], [Spawn(0, false)], {}, {}, [Cut(0, {}, 0, true)], {})

  lemma InterruptDuringSpawn()
    ensures Enabled(Init({0}), Enter(0, false))
    ensures Apply(Init({0}), Enter(0, false)) == Lone(false, Some(0), Frame(Spawning(false), None, None), [])
    ensures Apply(Lone(false, Some(0), Frame(Spawning(false), None, None), []), Interrupt(0))
         == Lone(true, Some(0), Frame(Spawning(false), None, Some(Flagged)), [])
  {
    assert Init({0}) == Lone(false, None, IDLE, []);
    assert map[0 := IDLE][0 := Frame(Spawning(false), None, None)] == map[0 := Frame(Spawning(false), None, None)];
  }

  lemma HandlerCancels()
    ensures var s := Lone(true, Some(0), Frame(Spawning(false), None, Some(Flagged)), []);
            && Enabled(s, Snapshot(0))
            && Apply(s, Snapshot(0))
               == Lone(true, Some(0), Frame(Spawning(false), None, Some(Signalling({}, 0))), [Cut(0, {}, 0, true)])
  {
  }

  lemma SpawnResumes()
    ensures var cuts := [Cut(0, {}, 0, true)];
            var s := Lone(true, Some(0), Frame(Spawning(false), None, Some(Signalling({}, 0))), cuts);
            && Enabled(s, EndCancel(0))
            && Apply(s, EndCancel(0)) == Lone(true, Some(0), Frame(Spawning(false), None, None), cuts)
            && Apply(Lone(true, Some(0), Frame(Spawning(false), None, None), cuts), Popen(0, true)) == ESCAPED
  {
  }

  /** The exception is real: a handler that cancels inside its own thread's spawn misses the child. */
  lemma InterruptedSpawnEscapes()
    ensures Reachable(ESCAPED)
    ensures exists cut :: cut in ESCAPED.cuts && 0 !in cut.seen && 0 in ESCAPED.children && !ESCAPED.spawns[0].exempt
  {
    InterruptDuringSpawn();
    HandlerCancels();
    SpawnResumes();
    var spawning, cuts := Spawning(false), [Cut(0, {}, 0, true)];
    RunStep(Lone(true, Some(0), Frame(spawning, None, None), cuts), Popen(0, true), [], ESCAPED);
    var steps := [Popen(0, true)];
    RunStep(Lone(true, Some(0), Frame(spawning, None, Some(Signalling({}, 0))), cuts), EndCancel(0), steps, ESCAPED);
    steps := [EndCancel(0)] + steps;
    RunStep(Lone(true, Some(0), Frame(spawning, None, Some(Flagged)), []), Snapshot(0), steps, ESCAPED);
    steps := [Snapshot(0)] + steps;
    RunStep(Lone(false, Some(0), Frame(spawning, None, None), []), Interrupt(0), steps, ESCAPED);
    steps := [Interrupt(0)] + steps;
    RunStep(Init({0}), Enter(0, false), steps, ESCAPED);
    assert Run(Init({0}), [Enter(0, false)] + steps, ESCAPED);
    assert Cut(0, {}, 0, true) in ESCAPED.cuts;
  }
}
