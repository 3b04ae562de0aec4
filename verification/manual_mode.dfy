/** The manual mode: a fixed target the user sets or nudges, kept within [40, 240] BPM. */
module ManualMode {

  const InitialBpm: real := 100.0
  const MinBpm: real := 40.0
  const MaxBpm: real := 240.0

  datatype Manual = Manual(targetBpm: real)

  function New(): (m: Manual)
    ensures MinBpm <= m.targetBpm <= MaxBpm && m.targetBpm == InitialBpm
  {
    Manual(InitialBpm)
  }

  /** `max(40, min(240, bpm))`. */
  function Clamp(bpm: real): (r: real)
    ensures MinBpm <= r <= MaxBpm
    ensures MinBpm <= bpm <= MaxBpm ==> r == bpm
    ensures bpm < MinBpm ==> r == MinBpm
    ensures bpm > MaxBpm ==> r == MaxBpm
  {
    var high := if MaxBpm < bpm then MaxBpm else bpm;
    if MinBpm < high then high else MinBpm
  }

  function SetBpm(m: Manual, bpm: real): (r: Manual)
    ensures MinBpm <= r.targetBpm <= MaxBpm
    ensures r.targetBpm == Clamp(bpm)
  {
    Manual(Clamp(bpm))
  }

  /** Nudge the target by `delta`; the new (clamped) target is also returned. */
  function AdjustBpm(m: Manual, delta: real): (r: (real, Manual))
    ensures r.0 == r.1.targetBpm == Clamp(m.targetBpm + delta)
  {
    var m' := SetBpm(m, m.targetBpm + delta);
    (m'.targetBpm, m')
  }

  /** The manual target, whatever the time and the player's BPM. */
  function HandleStep(m: Manual, now: real, current: real): (r: real)
    ensures MinBpm <= m.targetBpm <= MaxBpm ==> MinBpm <= r <= MaxBpm
    ensures r == m.targetBpm
  {
    m.targetBpm
  }

  /** A nudge that stays in range is undone by the opposite nudge. */
  lemma AdjustUndo(m: Manual, delta: real)
    requires MinBpm <= m.targetBpm <= MaxBpm && MinBpm <= m.targetBpm + delta <= MaxBpm
    ensures AdjustBpm(AdjustBpm(m, delta).1, -delta).1 == m
  {
  }

  /** Nudges compose while they stay in range. */
  lemma AdjustCompose(m: Manual, d1: real, d2: real)
    requires MinBpm <= m.targetBpm + d1 <= MaxBpm
    ensures AdjustBpm(AdjustBpm(m, d1).1, d2).1 == AdjustBpm(m, d1 + d2).1
  {
  }
}
