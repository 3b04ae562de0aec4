/**
 * The earlier estimator, kept by the legacy session runner: it only remembers
 * the time and BPM of the last step and, between steps, caps the player's
 * walking BPM at `60 / seconds-since-last-step`.
 */
module LegacyEstimation {
  import MidiPlayer
  import TempoRules

  datatype Legacy = Legacy(lastMsgTime: real, lastRecordedBpm: real)

  /** The constructor: no step yet, so the recorded BPM is 0. */
  function New(now: real): (e: Legacy)
    ensures e.lastMsgTime == now && e.lastRecordedBpm == 0.0
  {
    Legacy(now, 0.0)
  }

  function UpdateRecordedValues(e: Legacy, lastMsgTime: real, lastRecordedBpm: real): (r: Legacy)
    ensures r.lastMsgTime == lastMsgTime && r.lastRecordedBpm == lastRecordedBpm
  {
    Legacy(lastMsgTime, lastRecordedBpm)
  }

  /**
   * The decay-only update at time `now`. The source divides by the interval
   * without a guard, so a zero interval is the caller's obligation.
   */
  function UpdateBpm(e: Legacy, p: MidiPlayer.Player, manualMode: bool, now: real): (r: MidiPlayer.Player)
    requires manualMode || now - e.lastMsgTime != 0.0
    ensures manualMode ==> r == p
    ensures r.songBpm == p.songBpm
    ensures MidiPlayer.Valid(p) ==> MidiPlayer.Valid(r)
    ensures r.walkingBpm <= p.walkingBpm
    ensures r.walkingBpm < p.walkingBpm ==> r.walkingBpm == 60.0 / (now - e.lastMsgTime)
  {
    if manualMode then p
    else
      var current := 60.0 / (now - e.lastMsgTime);
      if p.walkingBpm > current then MidiPlayer.SetBpm(p, current) else p
  }

  /**
   * For a positive interval the legacy rule is the decay ceiling applied to
   * the walking BPM itself, where the newer estimator applies it to the target.
   */
  lemma UpdateBpmIsDecayCeiling(e: Legacy, p: MidiPlayer.Player, now: real)
    requires now > e.lastMsgTime && p.walkingBpm > 0.0
    ensures UpdateBpm(e, p, false, now).walkingBpm == TempoRules.DecayCeiling(p.walkingBpm, now - e.lastMsgTime)
  {
    var interval := now - e.lastMsgTime;
    assert 60.0 / interval > 0.0;
  }

  /** The longer the silence, the lower (or equal) the walking BPM after the update. */
  lemma UpdateBpmAntitone(e: Legacy, p: MidiPlayer.Player, now1: real, now2: real)
    requires e.lastMsgTime < now1 <= now2 && p.walkingBpm > 0.0
    ensures UpdateBpm(e, p, false, now2).walkingBpm <= UpdateBpm(e, p, false, now1).walkingBpm
  {
    UpdateBpmIsDecayCeiling(e, p, now1);
    UpdateBpmIsDecayCeiling(e, p, now2);
    TempoRules.DecayAntitone(p.walkingBpm, now1 - e.lastMsgTime, now2 - e.lastMsgTime);
  }
}
