/**
 * The host's BPM estimator: steps set a target tempo, and a fast loop slides
 * the player's walking BPM towards that target with directional smoothing, an
 * adaptive boost when the target is far ahead, a warm-up speed limit and a
 * decay ceiling when steps stop. The clock is the parameter `now`; the
 * learned next-step predictor is the parameter `predicted`.
 */
module BpmEstimation {
  import opened Wrappers
  import MidiPlayer
  import TempoRules

  /** Both smoothing factors start here. */
  const DefaultAlpha: real := 0.025
  /** The setters clamp a smoothing factor into [MinAlpha, MaxAlpha]. */
  const MinAlpha: real := 0.001
  const MaxAlpha: real := 1.0
  /** The walking BPM is left alone while it is within this distance of the target. */
  const DeadBand: real := 0.1
  /** `speed_factor = alpha * 25`: the 50 Hz frame rate the alphas were tuned for, halved. */
  const RateScale: real := 25.0
  /** While fewer than this many steps were registered, the change is rate limited. */
  const WarmupSteps: nat := 5
  /** The warm-up limit, in BPM per second. */
  const WarmupRate: real := 10.0
  /** Weight of the predicted BPM when a prediction is available. */
  const PredictionWeight: real := 0.7

  datatype Estimator = Estimator(
    manualMode: bool,
    pendingManualBpm: Option<real>,
    alphaUp: real,
    alphaDown: real,
    stepCount: nat,
    targetBpm: real,
    lastRecordedBpm: real,
    lastMsgTime: real,
    lastUpdateTime: real)

  /** Both smoothing factors stay inside the range the setters clamp to. */
  predicate Valid(e: Estimator) {
    MinAlpha <= e.alphaUp <= MaxAlpha && MinAlpha <= e.alphaDown <= MaxAlpha
  }

  /** The constructor: the target starts at the player's current walking BPM. */
  function New(p: MidiPlayer.Player, manualMode: bool, manualBpm: Option<real>, now: real): (e: Estimator)
    ensures Valid(e)
    ensures e.targetBpm == p.walkingBpm && e.stepCount == 0 && e.lastRecordedBpm == 0.0
    ensures e.pendingManualBpm == manualBpm && e.manualMode == manualMode
    ensures e.alphaUp == DefaultAlpha && e.alphaDown == DefaultAlpha
    ensures e.lastMsgTime == now && e.lastUpdateTime == now
  {
    Estimator(manualMode, manualBpm, DefaultAlpha, DefaultAlpha, 0, p.walkingBpm, 0.0, now, now)
  }

  /** `max(0.001, min(1.0, alpha))`. */
  function ClampAlpha(alpha: real): (r: real)
    ensures MinAlpha <= r <= MaxAlpha
    ensures MinAlpha <= alpha <= MaxAlpha ==> r == alpha
    ensures alpha < MinAlpha ==> r == MinAlpha
    ensures alpha > MaxAlpha ==> r == MaxAlpha
  {
    var low := if MaxAlpha < alpha then MaxAlpha else alpha;
    if MinAlpha < low then low else MinAlpha
  }

  /** Clamping twice is clamping once. */
  lemma ClampAlphaIdempotent(alpha: real)
    ensures ClampAlpha(ClampAlpha(alpha)) == ClampAlpha(alpha)
  {
  }

  function SetAlphaUp(e: Estimator, alpha: real): (r: Estimator)
    ensures r.alphaUp == ClampAlpha(alpha) && r.(alphaUp := e.alphaUp) == e
    ensures Valid(e) ==> Valid(r)
  {
    e.(alphaUp := ClampAlpha(alpha))
  }

  function SetAlphaDown(e: Estimator, alpha: real): (r: Estimator)
    ensures r.alphaDown == ClampAlpha(alpha) && r.(alphaDown := e.alphaDown) == e
    ensures Valid(e) ==> Valid(r)
  {
    e.(alphaDown := ClampAlpha(alpha))
  }

  /** Queue (or with `None`, cancel) a manual BPM for the next iteration. */
  function SetManualBpm(e: Estimator, bpm: Option<real>): (r: Estimator)
    ensures r.pendingManualBpm == bpm && r.(pendingManualBpm := e.pendingManualBpm) == e
  {
    e.(pendingManualBpm := bpm)
  }

  function SetManualMode(e: Estimator, enabled: bool): (r: Estimator)
    ensures r.manualMode == enabled && r.(manualMode := e.manualMode) == e
  {
    e.(manualMode := enabled)
  }

  /** Hand out the queued manual BPM, if any, and clear the queue. */
  function CheckManualBpmUpdate(e: Estimator): (r: (Option<real>, Estimator))
    ensures r.0 == e.pendingManualBpm
    ensures r.1.pendingManualBpm.None? && r.1.(pendingManualBpm := e.pendingManualBpm) == e
  {
    (e.pendingManualBpm, e.(pendingManualBpm := None))
  }

  /** A queued BPM is handed out once: asking again right away yields nothing. */
  lemma ManualBpmTakenOnce(e: Estimator, bpm: real)
    ensures var first := CheckManualBpmUpdate(SetManualBpm(e, Some(bpm)));
            first.0 == Some(bpm) && CheckManualBpmUpdate(first.1).0.None?
  {
  }

  /**
   * A new step: its BPM becomes the target, or with a prediction the blend
   * `0.7 * predicted + 0.3 * bpm`; the decay timer restarts at `now`.
   */
  function RegisterStep(e: Estimator, bpm: real, now: real, predicted: Option<real>): (r: Estimator)
    ensures r.stepCount == e.stepCount + 1
    ensures r.lastRecordedBpm == bpm && r.lastMsgTime == now
    ensures predicted.None? ==> r.targetBpm == bpm
    ensures predicted.Some? ==> TempoRules.Between(r.targetBpm, bpm, predicted.value)
    ensures predicted.Some? ==> r.targetBpm - bpm == PredictionWeight * (predicted.value - bpm)
    ensures r.(stepCount := e.stepCount, lastRecordedBpm := e.lastRecordedBpm,
               lastMsgTime := e.lastMsgTime, targetBpm := e.targetBpm) == e
  {
    var target := match predicted
      case None => bpm
      case Some(q) => q * PredictionWeight + bpm * (1.0 - PredictionWeight);
    e.(targetBpm := target, lastRecordedBpm := bpm, lastMsgTime := now, stepCount := e.stepCount + 1)
  }

  /** The legacy setter: only the decay timer and the last recorded BPM change. */
  function UpdateRecordedValues(e: Estimator, lastMsgTime: real, lastRecordedBpm: real): (r: Estimator)
    ensures r.lastMsgTime == lastMsgTime && r.lastRecordedBpm == lastRecordedBpm
    ensures r.(lastMsgTime := e.lastMsgTime, lastRecordedBpm := e.lastRecordedBpm) == e
  {
    e.(lastMsgTime := lastMsgTime, lastRecordedBpm := lastRecordedBpm)
  }

  /** The attack alpha (boosted) when speeding up, the decay alpha otherwise. */
  function SmoothingAlpha(current: real, target: real, alphaUp: real, alphaDown: real): (a: real)
    ensures alphaUp >= 0.0 && alphaDown >= 0.0 ==> a >= 0.0
    ensures alphaUp > 0.0 && alphaDown > 0.0 ==> a > 0.0
    ensures target <= current ==> a == alphaDown
    ensures target > current ==> a == TempoRules.BoostedAlpha(alphaUp, target, current)
  {
    if target > current then TempoRules.BoostedAlpha(alphaUp, target, current) else alphaDown
  }

  /** The warm-up limiter: a step larger than `maxStep` is cut to `maxStep`, keeping its sign. */
  function LimitStep(step: real, maxStep: real): (r: real)
    ensures maxStep >= 0.0 ==> TempoRules.Abs(r) <= maxStep && TempoRules.Abs(r) <= TempoRules.Abs(step)
    ensures step > 0.0 ==> r > 0.0 || r == maxStep
    ensures step < 0.0 ==> r < 0.0 || r == -maxStep
    ensures step == 0.0 && maxStep >= 0.0 ==> r == 0.0
    ensures TempoRules.Abs(step) <= maxStep ==> r == step
    ensures TempoRules.Abs(step) > maxStep ==> r == (if step > 0.0 then maxStep else -maxStep)
  {
    if TempoRules.Abs(step) > maxStep then (if step > 0.0 then maxStep else -maxStep) else step
  }

  /** The change one smoothing pass proposes, before any limit. */
  function RawStep(gap: real, alpha: real, dt: real): real {
    gap * (alpha * RateScale) * dt
  }

  /** The change after the warm-up limit. */
  function LimitedStep(gap: real, alpha: real, dt: real, stepCount: nat): real {
    var step := RawStep(gap, alpha, dt);
    if stepCount < WarmupSteps then LimitStep(step, WarmupRate * dt) else step
  }

  /**
   * One smoothing pass from `current` towards `target`, `dt` seconds after the
   * previous one. `None`: the player is left alone; `Some(b)`: it is set to `b`.
   */
  function NextBpm(current: real, target: real, alphaUp: real, alphaDown: real, dt: real, stepCount: nat): (r: Option<real>)
    ensures r.None? <==> TempoRules.Abs(target - current) <= DeadBand
    ensures r.Some? ==> r.value == target || r.value - current == LimitedStep(target - current, SmoothingAlpha(current, target, alphaUp, alphaDown), dt, stepCount)
    ensures r.Some? ==> var step := LimitedStep(target - current, SmoothingAlpha(current, target, alphaUp, alphaDown), dt, stepCount);
            && (TempoRules.Abs(step) <= TempoRules.Abs(target - current) ==> r.value == current + step)
            && (TempoRules.Abs(step) > TempoRules.Abs(target - current) ==> r.value == target)
  {
    var diff := TempoRules.Abs(target - current);
    if diff <= DeadBand then None
    else
      var step := LimitedStep(target - current, SmoothingAlpha(current, target, alphaUp, alphaDown), dt, stepCount);
      Some(if TempoRules.Abs(step) > diff then target else current + step)
  }

  /** A product of a gap with two non-negative factors keeps the gap's sign. */
  lemma StepSign(gap: real, k: real, dt: real)
    requires k >= 0.0 && dt >= 0.0
    ensures gap >= 0.0 ==> gap * k * dt >= 0.0
    ensures gap <= 0.0 ==> gap * k * dt <= 0.0
    ensures gap != 0.0 && k > 0.0 && dt > 0.0 ==> gap * k * dt != 0.0
  {
    assert k * dt >= 0.0;
    assert gap * k * dt == gap * (k * dt);
    if k > 0.0 && dt > 0.0 {
      assert k * dt > 0.0;
    }
  }

  /** The limited step has the sign of the gap, and is non-zero when everything moves. */
  lemma {:induction false} LimitedStepSign(gap: real, alpha: real, dt: real, stepCount: nat)
    requires alpha >= 0.0 && dt >= 0.0
    ensures var s := LimitedStep(gap, alpha, dt, stepCount);
            (gap >= 0.0 ==> s >= 0.0) && (gap <= 0.0 ==> s <= 0.0)
            && (gap != 0.0 && alpha > 0.0 && dt > 0.0 ==> s != 0.0)
  {
    assert alpha * RateScale >= 0.0;
    StepSign(gap, alpha * RateScale, dt);
    assert WarmupRate * dt >= 0.0;
  }

  /** A smoothing pass never overshoots: the new BPM lies between the old one and the target. */
  lemma NextBpmNoOvershoot(current: real, target: real, alphaUp: real, alphaDown: real, dt: real, stepCount: nat)
    requires alphaUp >= 0.0 && alphaDown >= 0.0 && dt >= 0.0
    requires NextBpm(current, target, alphaUp, alphaDown, dt, stepCount).Some?
    ensures TempoRules.Between(NextBpm(current, target, alphaUp, alphaDown, dt, stepCount).value, current, target)
  {
    LimitedStepSign(target - current, SmoothingAlpha(current, target, alphaUp, alphaDown), dt, stepCount);
  }

  /** A smoothing pass with time elapsed and positive alphas strictly closes the gap. */
  lemma NextBpmCloser(current: real, target: real, alphaUp: real, alphaDown: real, dt: real, stepCount: nat)
    requires alphaUp > 0.0 && alphaDown > 0.0 && dt > 0.0
    requires NextBpm(current, target, alphaUp, alphaDown, dt, stepCount).Some?
    ensures TempoRules.Abs(NextBpm(current, target, alphaUp, alphaDown, dt, stepCount).value - target)
            < TempoRules.Abs(current - target)
  {
    LimitedStepSign(target - current, SmoothingAlpha(current, target, alphaUp, alphaDown), dt, stepCount);
  }

  /** During warm-up the BPM moves by at most 10 BPM per elapsed second. */
  lemma NextBpmWarmupLimit(current: real, target: real, alphaUp: real, alphaDown: real, dt: real, stepCount: nat)
    requires dt >= 0.0 && stepCount < WarmupSteps
    requires NextBpm(current, target, alphaUp, alphaDown, dt, stepCount).Some?
    ensures TempoRules.Abs(NextBpm(current, target, alphaUp, alphaDown, dt, stepCount).value - current) <= WarmupRate * dt
  {
    assert WarmupRate * dt >= 0.0;
  }

  /**
   * The target after the decay ceiling, which applies only once steps have
   * been seen: `min(target, 60 / interval)` for a positive interval since the
   * last step, the target itself otherwise.
   */
  function DecayedTarget(e: Estimator, now: real): (t: real)
    ensures t <= e.targetBpm
    ensures e.stepCount == 0 || now <= e.lastMsgTime ==> t == e.targetBpm
    ensures e.stepCount > 0 && now > e.lastMsgTime ==>
              t <= 60.0 / (now - e.lastMsgTime) && (t == e.targetBpm || t == 60.0 / (now - e.lastMsgTime))
  {
    if e.stepCount > 0 then TempoRules.DecayCeiling(e.targetBpm, now - e.lastMsgTime) else e.targetBpm
  }

  /**
   * The main loop body at time `now`: nothing in manual mode or right after the
   * first step; otherwise decay the target, then smooth the player towards it.
   */
  function UpdateBpm(e: Estimator, p: MidiPlayer.Player, now: real): (r: (Estimator, MidiPlayer.Player))
    ensures e.manualMode || e.stepCount == 1 ==> r == (e, p)
    ensures r.0.(targetBpm := e.targetBpm, lastUpdateTime := e.lastUpdateTime) == e
    ensures r.0.targetBpm <= e.targetBpm
    ensures !e.manualMode && e.stepCount != 1 ==> r.0.lastUpdateTime == now && r.0.targetBpm == DecayedTarget(e, now)
    ensures !e.manualMode && e.stepCount != 1 && TempoRules.Abs(r.0.targetBpm - p.walkingBpm) <= DeadBand ==> r.1 == p
    ensures r.1.songBpm == p.songBpm
    ensures MidiPlayer.Valid(p) ==> MidiPlayer.Valid(r.1)
  {
    if e.manualMode || e.stepCount == 1 then (e, p)
    else
      var target := DecayedTarget(e, now);
      var e1 := e.(targetBpm := target, lastUpdateTime := now);
      match NextBpm(p.walkingBpm, target, e.alphaUp, e.alphaDown, now - e.lastUpdateTime, e.stepCount)
      case None => (e1, p)
      case Some(b) => (e1, MidiPlayer.SetBpm(p, b))
  }

  /**
   * With a valid estimator and a clock that does not run backwards, the loop
   * never pushes the walking BPM past the (decayed) target.
   */
  lemma UpdateBpmTowardsTarget(e: Estimator, p: MidiPlayer.Player, now: real)
    requires Valid(e) && now >= e.lastUpdateTime
    ensures var r := UpdateBpm(e, p, now);
            r.1 == p || TempoRules.Between(r.1.walkingBpm, p.walkingBpm, r.0.targetBpm)
  {
    if !e.manualMode && e.stepCount != 1 {
      var target := DecayedTarget(e, now);
      var dt := now - e.lastUpdateTime;
      if NextBpm(p.walkingBpm, target, e.alphaUp, e.alphaDown, dt, e.stepCount).Some? {
        NextBpmNoOvershoot(p.walkingBpm, target, e.alphaUp, e.alphaDown, dt, e.stepCount);
      }
    }
  }

  /**
   * Outside manual mode and the first-step hold, with time elapsed and a
   * positive target more than the dead band away, the loop strictly closes the
   * gap between the walking BPM and the decayed target, and during warm-up by
   * at most 10 BPM per elapsed second.
   */
  lemma UpdateBpmCloser(e: Estimator, p: MidiPlayer.Player, now: real)
    requires Valid(e) && MidiPlayer.Valid(p) && e.targetBpm > 0.0 && now > e.lastUpdateTime
    requires !e.manualMode && e.stepCount != 1
    requires TempoRules.Abs(DecayedTarget(e, now) - p.walkingBpm) > DeadBand
    ensures var r := UpdateBpm(e, p, now);
            && TempoRules.Abs(r.1.walkingBpm - r.0.targetBpm) < TempoRules.Abs(p.walkingBpm - r.0.targetBpm)
            && (e.stepCount < WarmupSteps ==> TempoRules.Abs(r.1.walkingBpm - p.walkingBpm) <= WarmupRate * (now - e.lastUpdateTime))
  {
    var target, dt := DecayedTarget(e, now), now - e.lastUpdateTime;
    DecayedTargetPositive(e, now);
    var next := NextBpm(p.walkingBpm, target, e.alphaUp, e.alphaDown, dt, e.stepCount);
    NextBpmNoOvershoot(p.walkingBpm, target, e.alphaUp, e.alphaDown, dt, e.stepCount);
    NextBpmCloser(p.walkingBpm, target, e.alphaUp, e.alphaDown, dt, e.stepCount);
    if e.stepCount < WarmupSteps {
      NextBpmWarmupLimit(p.walkingBpm, target, e.alphaUp, e.alphaDown, dt, e.stepCount);
    }
    assert next.value > 0.0;
    assert UpdateBpm(e, p, now).1.walkingBpm == next.value;
  }

  /** A positive target stays positive under the decay ceiling. */
  lemma DecayedTargetPositive(e: Estimator, now: real)
    requires e.targetBpm > 0.0
    ensures DecayedTarget(e, now) > 0.0
  {
    if e.stepCount > 0 && now > e.lastMsgTime {
      assert 60.0 / (now - e.lastMsgTime) > 0.0;
    }
  }

  /** In manual mode the loop leaves the estimator and the player untouched, however often it runs. */
  lemma {:induction false} ManualModeFreezes(e: Estimator, p: MidiPlayer.Player, times: seq<real>)
    requires e.manualMode
    ensures UpdateMany(e, p, times) == (e, p)
  {
    if |times| > 0 {
      ManualModeFreezes(e, p, times[1..]);
    }
  }

  /** The loop run at each of `times` in turn. */
  function UpdateMany(e: Estimator, p: MidiPlayer.Player, times: seq<real>): (Estimator, MidiPlayer.Player)
    decreases |times|
  {
    if |times| == 0 then (e, p)
    else
      var r := UpdateBpm(e, p, times[0]);
      UpdateMany(r.0, r.1, times[1..])
  }
}
