/**
 * The dynamic mode: follow the BPM of the last detected step, lowered by the
 * decay ceiling when steps stop, with the boosted attack towards it.
 */
module DynamicMode {
  import opened Wrappers
  import TempoRules

  datatype Dynamic = Dynamic(lastStepTime: real, lastStepBpm: real)

  /** No step yet (time 0), and the base target is the player's walking BPM. */
  function New(walkingBpm: real): (m: Dynamic)
    ensures m.lastStepTime == 0.0 && m.lastStepBpm == walkingBpm
  {
    Dynamic(0.0, walkingBpm)
  }

  function OnStep(m: Dynamic, bpm: real, now: real): (r: Dynamic)
    ensures r.lastStepTime == now && r.lastStepBpm == bpm
  {
    Dynamic(now, bpm)
  }

  /** The target and the smoothed next BPM at time `now` for a player at `current`. */
  function HandleStep(m: Dynamic, now: real, current: real, dt: real,
                      contextAlphaUp: Option<real>, smooth: TempoRules.Smoother): (r: TempoRules.Proposal)
    ensures r.target <= m.lastStepBpm
    ensures m.lastStepTime <= 0.0 ==> r.target == m.lastStepBpm
    ensures m.lastStepTime > 0.0 && now > m.lastStepTime ==> r.target <= 60.0 / (now - m.lastStepTime)
    ensures r.target == m.lastStepBpm || (now - m.lastStepTime > 0.0 && r.target == 60.0 / (now - m.lastStepTime))
  {
    TempoRules.DecayAndBoost(m.lastStepBpm, m.lastStepTime, now, current, dt, contextAlphaUp, smooth)
  }

  /** Right after a step, the target is that step's BPM whatever the smoother does. */
  lemma TargetAfterStep(m: Dynamic, bpm: real, now: real, current: real, dt: real,
                        contextAlphaUp: Option<real>, smooth: TempoRules.Smoother)
    requires now > 0.0
    ensures HandleStep(OnStep(m, bpm, now), now, current, dt, contextAlphaUp, smooth).target == bpm
  {
  }

  /** The boost given to the smoother is at least the context's alpha and at most four times it. */
  lemma BoostBounded(m: Dynamic, now: real, current: real, dt: real, alphaUp: real)
    requires alphaUp >= 0.0
    ensures var t := HandleStep(m, now, current, dt, Some(alphaUp), (c, t, d, a) => a).target;
            var a := HandleStep(m, now, current, dt, Some(alphaUp), (c, t, d, a) => a).smoothed;
            alphaUp <= a <= alphaUp * TempoRules.MaxBoost
            && (t - current <= TempoRules.BoostThreshold ==> a == alphaUp)
  {
  }
}
