/**
 * The random mode: a game that picks a random target BPM near the song's
 * tempo and waits for the player to match it. In the gamified variant the
 * match must be held for 10 s (a target times out after 20 s); in the simple
 * variant 20 consecutive matching steps win. The uniform draws in [0, 1) that
 * `random.uniform` makes are passed in as `draws`.
 */
module RandomMode {
  import opened Wrappers
  import TempoRules

  const DefaultSpan: real := 0.20
  /** A BPM within (strictly less than) this distance of the target matches it. */
  const MatchThreshold: real := 5.0
  /** Simple variant: consecutive matching steps that win the round. */
  const StepsToHold: nat := 20
  /** Gamified variant: seconds before an unmatched target is replaced. */
  const TimeoutDuration: real := 20.0
  /** Gamified variant: seconds a match must be held. */
  const HoldDuration: real := 10.0
  /** The target range is clipped to [MinTarget, MaxTarget]. */
  const MinTarget: real := 40.0
  const MaxTarget: real := 200.0
  /** A new target should differ from the previous one by more than this... */
  const MinJump: real := 10.0
  /** ...but after this many retries the next draw is taken anyway. */
  const MaxRetries: nat := 5
  /** Hence at most this many draws per pick. */
  const MaxDraws: nat := 7

  datatype Random = Random(
    gameTarget: Option<real>,
    targetAssignedTime: Option<real>,
    matchStartTime: Option<real>,
    matchedStepCounter: nat,
    span: real,
    gamified: bool)

  /** No target yet; a span of 20% and the gamified variant by default. */
  function New(): (m: Random)
    ensures m.gameTarget.None? && m.targetAssignedTime.None? && m.matchStartTime.None?
    ensures m.matchedStepCounter == 0 && m.span == DefaultSpan && m.gamified
  {
    Random(None, None, None, 0, DefaultSpan, true)
  }

  /** Python truthiness of an optional time: `None` and `0.0` are both false. */
  predicate Truthy(t: Option<real>) {
    t.Some? && t.value != 0.0
  }

  function SetSpan(m: Random, span: real): (r: Random)
    ensures r.span == span && r.(span := m.span) == m
  {
    m.(span := span)
  }

  /** Switching variant abandons the current round's target. */
  function SetGamified(m: Random, enabled: bool): (r: Random)
    ensures r.gamified == enabled && r.gameTarget.None?
    ensures r.(gamified := m.gamified, gameTarget := m.gameTarget) == m
  {
    m.(gamified := enabled, gameTarget := None)
  }

  /** Entering the mode starts from scratch; span and variant are kept. */
  function Activate(m: Random): (r: Random)
    ensures r.gameTarget.None? && r.matchStartTime.None? && r.targetAssignedTime.None?
    ensures r.matchedStepCounter == 0 && r.span == m.span && r.gamified == m.gamified
  {
    m.(gameTarget := None, matchStartTime := None, targetAssignedTime := None, matchedStepCounter := 0)
  }

  /** `random.uniform(a, b)` for the draw `u`: `a + (b - a) * u`. */
  function Uniform(a: real, b: real, u: real): real {
    a + (b - a) * u
  }

  /** A draw in [0, 1] lands between the two bounds, in whichever order they come. */
  lemma UniformBetween(a: real, b: real, u: real)
    requires 0.0 <= u <= 1.0
    ensures TempoRules.Between(Uniform(a, b, u), a, b)
  {
    var d := if a <= b then b - a else a - b;
    TempoRules.ScaleMonotone(d, 0.0, u);
    TempoRules.ScaleMonotone(d, u, 1.0);
    assert 0.0 <= d * u <= d;
    if a > b {
      assert (b - a) * u == -(d * u);
      assert Uniform(a, b, u) == a - d * u;
      assert b <= Uniform(a, b, u) <= a;
    } else {
      assert Uniform(a, b, u) == a + d * u;
    }
  }

  /**
   * The retry loop of the target picker from attempt `attempts` on: draw,
   * and keep the draw if there is no previous target, if it jumps by more than
   * 10 BPM, or if the retries are used up.
   */
  function Draw(previous: Option<real>, lo: real, hi: real, draws: seq<real>, attempts: nat): (r: real)
    requires attempts <= MaxRetries + 1 && |draws| >= MaxDraws
    ensures exists i :: attempts <= i < MaxDraws && r == Uniform(lo, hi, draws[i])
    ensures previous.None? ==> r == Uniform(lo, hi, draws[attempts])
    ensures previous.None? || TempoRules.Abs(r - previous.value) > MinJump || r == Uniform(lo, hi, draws[MaxDraws - 1])
    ensures r == Uniform(lo, hi, draws[KeptDraw(previous, lo, hi, draws, attempts)])
    decreases MaxRetries + 1 - attempts
  {
    var x := Uniform(lo, hi, draws[attempts]);
    if previous.None? || TempoRules.Abs(x - previous.value) > MinJump || attempts > MaxRetries then x
    else Draw(previous, lo, hi, draws, attempts + 1)
  }

  /**
   * Which draw the loop keeps: the first one, counting from `attempts`, that
   * jumps more than 10 BPM from the previous target, or the first at all
   * without one; the last allowed draw when none jumps far enough.
   */
  function KeptDraw(previous: Option<real>, lo: real, hi: real, draws: seq<real>, attempts: nat): (k: nat)
    requires attempts <= MaxRetries + 1 && |draws| >= MaxDraws
    ensures attempts <= k < MaxDraws
    ensures forall j :: attempts <= j < k ==>
              previous.Some? && TempoRules.Abs(Uniform(lo, hi, draws[j]) - previous.value) <= MinJump
    ensures k < MaxDraws - 1 ==>
              previous.None? || TempoRules.Abs(Uniform(lo, hi, draws[k]) - previous.value) > MinJump
    decreases MaxRetries + 1 - attempts
  {
    var x := Uniform(lo, hi, draws[attempts]);
    if previous.None? || TempoRules.Abs(x - previous.value) > MinJump || attempts > MaxRetries then attempts
    else KeptDraw(previous, lo, hi, draws, attempts + 1)
  }

  /** Every draw the loop may keep lies between the bounds, so the kept one does. */
  lemma DrawBetween(previous: Option<real>, lo: real, hi: real, draws: seq<real>)
    requires |draws| >= MaxDraws && forall i :: 0 <= i < |draws| ==> 0.0 <= draws[i] <= 1.0
    ensures TempoRules.Between(Draw(previous, lo, hi, draws, 0), lo, hi)
  {
    var i :| 0 <= i < MaxDraws && Draw(previous, lo, hi, draws, 0) == Uniform(lo, hi, draws[i]);
    UniformBetween(lo, hi, draws[i]);
  }

  function Max(a: real, b: real): real { if a < b then b else a }
  function Min(a: real, b: real): real { if a < b then a else b }

  /** The lower end of the draw range: `max(40, song - song * span)`. */
  function RangeLow(songBpm: real, span: real): real { Max(MinTarget, songBpm - songBpm * span) }
  /** The upper end: `min(200, song + song * span)`. */
  function RangeHigh(songBpm: real, span: real): real { Min(MaxTarget, songBpm + songBpm * span) }

  /** A new target, assigned at `now`, with the hold timer cleared. */
  function PickNewTarget(m: Random, songBpm: real, now: real, draws: seq<real>): (r: Random)
    requires |draws| >= MaxDraws
    ensures r.gameTarget == Some(Draw(m.gameTarget, RangeLow(songBpm, m.span), RangeHigh(songBpm, m.span), draws, 0))
    ensures r.targetAssignedTime == Some(now) && r.matchStartTime.None?
    ensures r.(gameTarget := m.gameTarget, targetAssignedTime := m.targetAssignedTime, matchStartTime := m.matchStartTime) == m
  {
    var lo := RangeLow(songBpm, m.span);
    var hi := RangeHigh(songBpm, m.span);
    m.(gameTarget := Some(Draw(m.gameTarget, lo, hi, draws, 0)), targetAssignedTime := Some(now), matchStartTime := None)
  }

  /**
   * With draws in [0, 1] the new target lies in the draw range, and so within
   * [40, 200] whenever that range is not inverted.
   */
  lemma PickInRange(m: Random, songBpm: real, now: real, draws: seq<real>)
    requires |draws| >= MaxDraws && forall i :: 0 <= i < |draws| ==> 0.0 <= draws[i] <= 1.0
    ensures var t := PickNewTarget(m, songBpm, now, draws).gameTarget.value;
            var lo, hi := RangeLow(songBpm, m.span), RangeHigh(songBpm, m.span);
            TempoRules.Between(t, lo, hi) && (lo <= hi ==> MinTarget <= t <= MaxTarget)
  {
    DrawBetween(m.gameTarget, RangeLow(songBpm, m.span), RangeHigh(songBpm, m.span), draws);
  }

  /** The BPM matches the target. */
  predicate Matches(bpm: real, target: real) {
    TempoRules.Abs(bpm - target) < MatchThreshold
  }

  /**
   * Simple variant, on every step: a matching step counts, any other resets
   * the count; the twentieth in a row picks a new target (assigned at the
   * estimator's last update time) and resets the count.
   */
  function OnStep(m: Random, bpm: real, lastUpdateTime: real, songBpm: real, draws: seq<real>): (r: Random)
    requires |draws| >= MaxDraws
    ensures m.gamified || m.gameTarget.None? ==> r == m
    ensures !m.gamified && m.gameTarget.Some? && !Matches(bpm, m.gameTarget.value) ==>
              r == m.(matchedStepCounter := 0)
    ensures !m.gamified && m.gameTarget.Some? && Matches(bpm, m.gameTarget.value) && m.matchedStepCounter + 1 < StepsToHold ==>
              r == m.(matchedStepCounter := m.matchedStepCounter + 1)
    ensures !m.gamified && m.gameTarget.Some? && Matches(bpm, m.gameTarget.value) && m.matchedStepCounter + 1 >= StepsToHold ==>
              r == PickNewTarget(m, songBpm, lastUpdateTime, draws).(matchedStepCounter := 0)
    ensures r.matchedStepCounter < StepsToHold || r == m
  {
    if m.gamified || m.gameTarget.None? then m
    else if Matches(bpm, m.gameTarget.value) then
      var counted := m.matchedStepCounter + 1;
      if counted >= StepsToHold then PickNewTarget(m, songBpm, lastUpdateTime, draws).(matchedStepCounter := 0)
      else m.(matchedStepCounter := counted)
    else m.(matchedStepCounter := 0)
  }

  /** Steps at the BPMs of `bpms` in turn. */
  function FeedSteps(m: Random, bpms: seq<real>, lastUpdateTime: real, songBpm: real, draws: seq<real>): Random
    requires |draws| >= MaxDraws
    decreases |bpms|
  {
    if |bpms| == 0 then m else FeedSteps(OnStep(m, bpms[0], lastUpdateTime, songBpm, draws), bpms[1..], lastUpdateTime, songBpm, draws)
  }

  /**
   * Simple variant: `n` matching steps short of twenty leave the target alone
   * and raise the count by `n`; the twentieth then wins a new target.
   */
  lemma {:induction false} MatchingStepsCount(m: Random, bpms: seq<real>, lastUpdateTime: real, songBpm: real, draws: seq<real>)
    requires |draws| >= MaxDraws && !m.gamified && m.gameTarget.Some?
    requires m.matchedStepCounter + |bpms| < StepsToHold
    requires forall i :: 0 <= i < |bpms| ==> Matches(bpms[i], m.gameTarget.value)
    ensures FeedSteps(m, bpms, lastUpdateTime, songBpm, draws)
            == m.(matchedStepCounter := m.matchedStepCounter + |bpms|)
    decreases |bpms|
  {
    if |bpms| > 0 {
      var m1 := OnStep(m, bpms[0], lastUpdateTime, songBpm, draws);
      assert m1 == m.(matchedStepCounter := m.matchedStepCounter + 1);
      MatchingStepsCount(m1, bpms[1..], lastUpdateTime, songBpm, draws);
    }
  }

  /**
   * `handle_step` at time `now` with the player at `current`: the target to
   * play, and the new state.
   */
  function HandleStep(m: Random, now: real, current: real, songBpm: real, draws: seq<real>): (r: (real, Random))
    requires |draws| >= MaxDraws
    ensures r.1.gameTarget == Some(r.0)
    ensures m.gameTarget.None? ==> r.1 == PickNewTarget(m, songBpm, now, draws)
    ensures m.gameTarget.Some? && !m.gamified ==> r == (m.gameTarget.value, m)
    ensures m.gameTarget.Some? && m.gamified && Truthy(m.targetAssignedTime)
            && now - m.targetAssignedTime.value > TimeoutDuration ==>
              r.1 == PickNewTarget(m, songBpm, now, draws)
    ensures m.gameTarget.Some? && m.gamified && !Matches(current, m.gameTarget.value)
            && !(Truthy(m.targetAssignedTime) && now - m.targetAssignedTime.value > TimeoutDuration) ==>
              r == (m.gameTarget.value, m.(matchStartTime := None))
  {
    if m.gameTarget.None? then
      var m1 := PickNewTarget(m, songBpm, now, draws);
      (m1.gameTarget.value, m1)
    else if !m.gamified then (m.gameTarget.value, m)
    else if Truthy(m.targetAssignedTime) && now - m.targetAssignedTime.value > TimeoutDuration then
      var m1 := PickNewTarget(m, songBpm, now, draws);
      (m1.gameTarget.value, m1)
    else if Matches(current, m.gameTarget.value) then
      var start := m.matchStartTime.GetOr(now);
      var m1 := m.(matchStartTime := Some(start));
      if now - start > HoldDuration then
        var m2 := PickNewTarget(m1, songBpm, now, draws);
        (m2.gameTarget.value, m2)
      else (m.gameTarget.value, m1)
    else (m.gameTarget.value, m.(matchStartTime := None))
  }

  /**
   * Gamified variant: a match only wins once it has been held for more than
   * 10 s. The first matching call starts the hold timer and keeps the target;
   * a later one within 10 s of the start keeps it too.
   */
  lemma HoldNeedsTenSeconds(m: Random, now: real, current: real, songBpm: real, draws: seq<real>)
    requires |draws| >= MaxDraws && m.gamified && m.gameTarget.Some?
    requires !(Truthy(m.targetAssignedTime) && now - m.targetAssignedTime.value > TimeoutDuration)
    requires Matches(current, m.gameTarget.value)
    requires m.matchStartTime.None? || now - m.matchStartTime.value <= HoldDuration
    ensures HandleStep(m, now, current, songBpm, draws)
            == (m.gameTarget.value, m.(matchStartTime := Some(m.matchStartTime.GetOr(now))))
  {
  }

  /** Gamified variant: a match held past 10 s wins a new target, assigned now. */
  lemma HeldMatchWins(m: Random, now: real, current: real, songBpm: real, draws: seq<real>)
    requires |draws| >= MaxDraws && m.gamified && m.gameTarget.Some?
    requires !(Truthy(m.targetAssignedTime) && now - m.targetAssignedTime.value > TimeoutDuration)
    requires Matches(current, m.gameTarget.value)
    requires m.matchStartTime.Some? && now - m.matchStartTime.value > HoldDuration
    ensures var r := HandleStep(m, now, current, songBpm, draws).1;
            r.targetAssignedTime == Some(now) && r.matchStartTime.None?
            && r == PickNewTarget(m, songBpm, now, draws)
  {
  }
}
