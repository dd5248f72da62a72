/**
 Health of the issuing certificate: saturating 64-bit arithmetic classifies the
 time left, and a loop reports the level whenever it changes.
 */
module Health {
  import opened Options

  const MIN: int := -0x8000_0000_0000_0000
  const MAX: int := 0x7fff_ffff_ffff_ffff

  type Seconds = x: int | MIN <= x <= MAX

  const DAY: int := 86400

  datatype Lifetime = Standard | Development(days: nat)

  /** The accepted lifetimes; the configuration holds at most 65535 days. */
  function Days(l: Lifetime): Option<nat> {
    match l
    case Standard => Some(365)
    case Development(days) => if 1 <= days <= 3650 then Some(days) else None
  }

  /** A year by default; a development lifetime of one day to ten years. */
  lemma AcceptedLifetimes(days: nat)
    ensures Days(Standard) == Some(365)
    ensures Days(Development(days)).Some? <==> 1 <= days <= 3650
    ensures 1 <= days <= 3650 ==> Days(Development(days)) == Some(days)
  {
  }

  function Required(l: Lifetime): (r: Seconds)
    requires Days(l).Some?
  {
    Days(l).value * DAY
  }

  function SaturatingSub(a: Seconds, b: Seconds): Seconds {
    if a - b < MIN then MIN else if a - b > MAX then MAX else a - b
  }

  datatype Level = Expired | IssuanceUnavailable | Critical | RenewSoon | Healthy | ClockUnavailable

  function Classify(remaining: int, margin: int): Level {
    if remaining <= 0 then Expired
    else if margin < 0 then IssuanceUnavailable
    else if margin <= 7 * DAY then Critical
    else if margin <= 30 * DAY then RenewSoon
    else Healthy
  }

  /** The level as computed, with both subtractions saturating. */
  function LevelAt(expires: Seconds, now: Seconds, required: Seconds): Level {
    var remaining := SaturatingSub(expires, now);
    Classify(remaining, SaturatingSub(remaining, required))
  }

  predicate IssuanceReady(expires: Seconds, now: Seconds, required: Seconds) {
    var level := LevelAt(expires, now, required);
    level != Expired && level != IssuanceUnavailable
  }

  // ---------------------------------------------------------------- arithmetic

  /** The level exact integers give. */
  function ExactLevel(expires: int, now: int, required: int): Level {
    Classify(expires - now, expires - now - required)
  }

  /** Saturation changes no level, for any expiry and clock, exactly when the largest remaining
      time leaves more than the widest margin above the requirement. */
  lemma SaturationIsHarmlessIff(required: Seconds)
    ensures (forall expires: Seconds, now: Seconds ::
               LevelAt(expires, now, required) == ExactLevel(expires, now, required))
       <==> required < MAX - 30 * DAY
  {
    if required >= MAX - 30 * DAY {
      var expires, now: Seconds := MAX, MIN;
      assert LevelAt(expires, now, required) != Healthy && ExactLevel(expires, now, required) == Healthy;
    }
  }

  lemma AcceptedLifetimesAreHarmless(l: Lifetime, expires: Seconds, now: Seconds)
    requires Days(l).Some?
    ensures LevelAt(expires, now, Required(l)) == ExactLevel(expires, now, Required(l))
  {
    SaturationIsHarmlessIff(Required(l));
  }

  /** Issuance is ready exactly when a full lifetime still fits before expiry. */
  lemma ReadyIffLifetimeFits(l: Lifetime, expires: Seconds, now: Seconds)
    requires Days(l).Some?
    ensures IssuanceReady(expires, now, Required(l)) <==> expires - now >= Days(l).value * DAY
  {
    AcceptedLifetimesAreHarmless(l, expires, now);
  }

  /** For an accepted lifetime the levels are these intervals of the exact time left. */
  lemma LevelsAreIntervals(l: Lifetime, expires: Seconds, now: Seconds)
    requires Days(l).Some?
    ensures var level, left, lifetime := LevelAt(expires, now, Required(l)), expires - now, Days(l).value * DAY;
            && (level == Expired <==> left <= 0)
            && (level == IssuanceUnavailable <==> 0 < left < lifetime)
            && (level == Critical <==> lifetime <= left <= lifetime + 7 * DAY)
            && (level == RenewSoon <==> lifetime + 7 * DAY < left <= lifetime + 30 * DAY)
            && (level == Healthy <==> lifetime + 30 * DAY < left)
  {
    AcceptedLifetimesAreHarmless(l, expires, now);
  }

  function Rank(level: Level): nat {
    match level
    case Expired => 0
    case IssuanceUnavailable => 1
    case Critical => 2
    case RenewSoon => 3
    case Healthy => 4
    case ClockUnavailable => 5
  }

  /** As the clock advances the level only worsens. */
  lemma LevelOnlyWorsens(expires: Seconds, now: Seconds, later: Seconds, required: Seconds)
    requires now <= later
    ensures Rank(LevelAt(expires, later, required)) <= Rank(LevelAt(expires, now, required)) <= 4
  {
  }

  // ---------------------------------------------------------------- reporting

  function Reading(expires: Seconds, required: Seconds, clock: Option<Seconds>): Level {
    match clock
    case Some(now) => LevelAt(expires, now, required)
    case None => ClockUnavailable
  }

  function Levels(expires: Seconds, required: Seconds, clock: seq<Option<Seconds>>): (r: seq<Level>)
    ensures |r| == |clock| && forall i | 0 <= i < |r| :: r[i] == Reading(expires, required, clock[i])
  {
    seq(|clock|, i requires 0 <= i < |clock| => Reading(expires, required, clock[i]))
  }

  /** An unreadable clock is reported as such, and a readable one never is. */
  lemma UnreadableClockIff(expires: Seconds, required: Seconds, clock: Option<Seconds>)
    ensures Reading(expires, required, clock) == ClockUnavailable <==> clock.None?
    ensures clock.Some? ==> Reading(expires, required, clock) == LevelAt(expires, clock.value, required)
  {
  }

  /** `emitted` has one entry per maximal stretch of equal levels among the first `k`. */
  ghost predicate Reports(levels: seq<Level>, k: nat, emitted: seq<Level>)
    requires k <= |levels|
  {
    if k == 0 then emitted == []
    else if k >= 2 && levels[k - 1] == levels[k - 2] then Reports(levels, k - 1, emitted)
    else emitted != [] && emitted[|emitted| - 1] == levels[k - 1] && Reports(levels, k - 1, emitted[..|emitted| - 1])
  }

  /** The loop, over the clock readings up to cancellation. */
  method Report(expires: Seconds, required: Seconds, clock: seq<Option<Seconds>>) returns (emitted: seq<Level>)
    ensures Reports(Levels(expires, required, clock), |clock|, emitted)
  {
    emitted := [];
    var previous: Option<Level> := None;
    ghost var levels := Levels(expires, required, clock);
    for i := 0 to |clock|
      invariant previous == if i == 0 then None else Some(levels[i - 1])
      invariant Reports(levels, i, emitted)
    {
      var level := Reading(expires, required, clock[i]);
      if previous != Some(level) {
        assert (emitted + [level])[..|emitted|] == emitted;
        emitted := emitted + [level];
        previous := Some(level);
      }
    }
  }

  /** The last report is the current level, and a change is always reported. */
  lemma {:induction false} LastReportIsCurrent(levels: seq<Level>, k: nat, emitted: seq<Level>)
    requires 0 < k <= |levels| && Reports(levels, k, emitted)
    ensures emitted != [] && emitted[|emitted| - 1] == levels[k - 1]
  {
    if k >= 2 && levels[k - 1] == levels[k - 2] {
      LastReportIsCurrent(levels, k - 1, emitted);
    }
  }

  /** So the last report after an unreadable clock says so, and after a readable one gives the level of
      that moment. */
  lemma LastReportFollowsClock(
    expires: Seconds, required: Seconds, last: Option<Seconds>, levels: seq<Level>, k: nat, emitted: seq<Level>)
    requires 0 < k <= |levels| && Reports(levels, k, emitted) && levels[k - 1] == Reading(expires, required, last)
    ensures emitted != []
    ensures emitted[|emitted| - 1] == ClockUnavailable <==> last.None?
    ensures last.Some? ==> emitted[|emitted| - 1] == LevelAt(expires, last.value, required)
  {
    LastReportIsCurrent(levels, k, emitted);
    UnreadableClockIff(expires, required, last);
  }

  ghost predicate Worsening(levels: seq<Level>, k: nat)
    requires k <= |levels|
  {
    forall i, j | 0 <= i <= j < k :: Rank(levels[j]) <= Rank(levels[i])
  }

  ghost predicate Strict(emitted: seq<Level>) {
    forall i, j | 0 <= i < j < |emitted| :: Rank(emitted[j]) < Rank(emitted[i])
  }

  /** When levels only worsen, each is reported at most once, worse after better. */
  lemma {:induction false} WorseningReportsOnce(levels: seq<Level>, k: nat, emitted: seq<Level>)
    requires k <= |levels| && Worsening(levels, k) && Reports(levels, k, emitted)
    ensures Strict(emitted)
    ensures k > 0 ==> emitted != [] && emitted[|emitted| - 1] == levels[k - 1]
  {
    if k >= 2 && levels[k - 1] == levels[k - 2] {
      WorseningReportsOnce(levels, k - 1, emitted);
    } else if k > 0 {
      WorseningReportsOnce(levels, k - 1, emitted[..|emitted| - 1]);
    }
  }

  ghost predicate Available(clock: seq<Option<Seconds>>) {
    forall i | 0 <= i < |clock| :: clock[i].Some?
  }

  ghost predicate NonDecreasing(clock: seq<Option<Seconds>>)
    requires Available(clock)
  {
    forall i, j | 0 <= i <= j < |clock| :: clock[i].value <= clock[j].value
  }

  /** An available clock that does not go back makes the loop report each level at most once. */
  lemma EachLevelIsReportedOnce(expires: Seconds, required: Seconds, clock: seq<Option<Seconds>>, emitted: seq<Level>)
    requires Available(clock) && NonDecreasing(clock) && Reports(Levels(expires, required, clock), |clock|, emitted)
    ensures Strict(emitted)
    ensures forall i, j | 0 <= i < j < |emitted| :: emitted[i] != emitted[j]
  {
    var levels := Levels(expires, required, clock);
    forall i, j | 0 <= i <= j < |levels| ensures Rank(levels[j]) <= Rank(levels[i]) {
      LevelOnlyWorsens(expires, clock[i].value, clock[j].value, required);
    }
    WorseningReportsOnce(levels, |levels|, emitted);
  }
}
