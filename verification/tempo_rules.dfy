/**
 * The two rules every tempo-following mode shares: the decay ceiling that
 * caps the target at `60 / seconds-since-last-step` when steps stop, and the
 * capped "boost" that speeds up the attack when the target is far ahead.
 */
module TempoRules {
  import opened Wrappers

  /** A gap (target - current) above this many BPM earns a boost. */
  const BoostThreshold: real := 5.0
  /** Extra multiplier per BPM of gap beyond the threshold. */
  const BoostSlope: real := 0.1
  /** The boost never multiplies the attack alpha by more than this. */
  const MaxBoost: real := 4.0

  function Abs(x: real): real { if x < 0.0 then -x else x }

  /** `x` lies between `a` and `b`, in whichever order they come. */
  predicate Between(x: real, a: real, b: real) {
    (a <= x <= b) || (b <= x <= a)
  }

  /** `min(1 + (diff - 5) * 0.1, 4)` for a gap `diff` above the threshold. */
  function BoostFactor(diff: real): (f: real)
    requires diff > BoostThreshold
    ensures 1.0 < f <= MaxBoost
    ensures f == MaxBoost || f == 1.0 + (diff - BoostThreshold) * BoostSlope
    ensures f <= 1.0 + (diff - BoostThreshold) * BoostSlope
  {
    var b := 1.0 + (diff - BoostThreshold) * BoostSlope;
    if MaxBoost < b then MaxBoost else b
  }

  /** The attack alpha after the boost: unchanged unless the target is more than
      5 BPM ahead, and then multiplied by at most 4. */
  function BoostedAlpha(alpha: real, target: real, current: real): (r: real)
    ensures target - current <= BoostThreshold ==> r == alpha
    ensures alpha >= 0.0 ==> alpha <= r <= alpha * MaxBoost
    ensures alpha > 0.0 && target - current > BoostThreshold ==> r > alpha
    ensures target - current > BoostThreshold ==> r == alpha * BoostFactor(target - current)
  {
    if target - current > BoostThreshold then
      var f := BoostFactor(target - current);
      var boosted := alpha * f;
      BoostScale(alpha, f, boosted, alpha * MaxBoost);
      boosted
    else
      BoostScale(alpha, 1.0, alpha, alpha * MaxBoost);
      alpha
  }

  /** `p = a * f` for a factor in [1, MaxBoost] lies between `a` and `top = a * MaxBoost`. */
  lemma BoostScale(a: real, f: real, p: real, top: real)
    requires 1.0 <= f <= MaxBoost && p == a * f && top == a * MaxBoost
    ensures a >= 0.0 ==> a <= p <= top
    ensures a > 0.0 && f > 1.0 ==> p > a
  {
    if a >= 0.0 {
      ScaleMonotone(a, 1.0, f);
      ScaleMonotone(a, f, MaxBoost);
    }
    if a > 0.0 && f > 1.0 {
      assert a * f - a == a * (f - 1.0);
    }
  }

  /** Multiplying by a non-negative factor keeps the order. */
  lemma ScaleMonotone(a: real, x: real, y: real)
    requires a >= 0.0 && x <= y
    ensures a * x <= a * y
  {
    assert a * y - a * x == a * (y - x);
  }

  /** The boost factor grows with the gap. */
  lemma BoostFactorMonotone(d1: real, d2: real)
    requires BoostThreshold < d1 <= d2
    ensures BoostFactor(d1) <= BoostFactor(d2)
  {
    assert (d2 - BoostThreshold) * BoostSlope - (d1 - BoostThreshold) * BoostSlope == (d2 - d1) * BoostSlope;
  }

  /** Two products `px = a * x` and `py = a * y` with `a >= 0` keep the order of `x` and `y`. */
  lemma ScaledInOrder(a: real, x: real, y: real, px: real, py: real)
    requires a >= 0.0 && x <= y && px == a * x && py == a * y
    ensures px <= py
  {
    ScaleMonotone(a, x, y);
  }

  /** A larger gap never earns a smaller boosted alpha. */
  lemma BoostedAlphaMonotone(alpha: real, current: real, t1: real, t2: real)
    requires alpha >= 0.0 && t1 <= t2
    ensures BoostedAlpha(alpha, t1, current) <= BoostedAlpha(alpha, t2, current)
  {
    var g1, g2 := t1 - current, t2 - current;
    if g1 > BoostThreshold {
      var f1, f2 := BoostFactor(g1), BoostFactor(g2);
      BoostFactorMonotone(g1, g2);
      ScaledInOrder(alpha, f1, f2, BoostedAlpha(alpha, t1, current), BoostedAlpha(alpha, t2, current));
    }
  }

  /** The target after the decay ceiling, `interval` seconds after the last step:
      never raised, and never above `60 / interval`. */
  function DecayCeiling(target: real, interval: real): (r: real)
    ensures r <= target
    ensures interval <= 0.0 ==> r == target
    ensures interval > 0.0 ==> r <= 60.0 / interval && (r == target || r == 60.0 / interval)
  {
    if interval > 0.0 && 60.0 / interval < target then 60.0 / interval else target
  }

  /** The longer the silence, the lower (or equal) the decayed target. */
  lemma DecayAntitone(target: real, i1: real, i2: real)
    requires 0.0 < i1 <= i2
    ensures DecayCeiling(target, i2) <= DecayCeiling(target, i1)
  {
    assert 60.0 / i2 <= 60.0 / i1 by {
      var q1, q2 := 60.0 / i1, 60.0 / i2;
      assert q1 * i1 == 60.0 && q2 * i2 == 60.0;
      assert q2 * i1 <= q2 * i2;
    }
  }

  /** Applying the ceiling twice at the same moment changes nothing more. */
  lemma DecayIdempotent(target: real, interval: real)
    ensures DecayCeiling(DecayCeiling(target, interval), interval) == DecayCeiling(target, interval)
  {
  }

  /** The modes' decay: only once a step has been seen (`lastStepTime > 0`). */
  function ModeDecay(target: real, lastStepTime: real, now: real): (r: real)
    ensures r <= target
    ensures lastStepTime <= 0.0 ==> r == target
    ensures lastStepTime > 0.0 && now > lastStepTime ==> r <= 60.0 / (now - lastStepTime)
  {
    if lastStepTime > 0.0 then DecayCeiling(target, now - lastStepTime) else target
  }

  /** The attack alpha a mode reads from its context, or 0.025 when the context has none. */
  const DefaultAlphaUp: real := 0.025

  /**
   * The smoothing routine the modes call, `(current, target, dt, alphaUp) ->
   * next BPM`. Its definition is not part of the model, so it is a parameter.
   */
  type Smoother = (real, real, real, real) -> real

  /** A mode's target and smoothed next BPM. */
  datatype Proposal = Proposal(target: real, smoothed: real)

  /**
   * What the following modes do with a base target: apply the decay ceiling
   * (once a step was seen), then boost the attack alpha by the gap, then smooth.
   */
  function DecayAndBoost(base: real, lastStepTime: real, now: real, current: real, dt: real,
                         contextAlphaUp: Option<real>, smooth: Smoother): (r: Proposal)
    ensures r.target == ModeDecay(base, lastStepTime, now)
    ensures r.target <= base
    ensures r.smoothed == smooth(current, r.target, dt, BoostedAlpha(contextAlphaUp.GetOr(DefaultAlphaUp), r.target, current))
  {
    var target := ModeDecay(base, lastStepTime, now);
    Proposal(target, smooth(current, target, dt, BoostedAlpha(contextAlphaUp.GetOr(DefaultAlphaUp), target, current)))
  }

  /** The longer since the last step, the lower (or equal) a mode's target. */
  lemma ModeDecayAntitone(base: real, lastStepTime: real, now1: real, now2: real)
    requires lastStepTime < now1 <= now2
    ensures ModeDecay(base, lastStepTime, now2) <= ModeDecay(base, lastStepTime, now1)
  {
    if lastStepTime > 0.0 {
      DecayAntitone(base, now1 - lastStepTime, now2 - lastStepTime);
    }
  }
}
