/**
 * The earlier MIDI player with drum phase correction: when a predicted drum
 * time is known, the tempo factor is nudged by a clamped proportional
 * correction so that drum hits drift towards the footsteps.
 */
module Song {
  import opened Wrappers
  import MidiPlayer

  /** The drum notes whose predicted times feed the phase correction. */
  const DrumNotes: set<nat> := {35, 57}
  const DrumChannel: nat := 9
  const CorrectionGain: real := 0.04
  const MinCorrection: real := 0.90
  const MaxCorrection: real := 1.10

  datatype SongPlayer = SongPlayer(
    songBpm: real,
    walkingBpm: real,
    tempoFactor: real,
    nextDrumPredicted: Option<real>)

  /** The constructor: `None` stands for the "no tempo" error it raises. */
  function New(tracks: seq<MidiPlayer.Track>): (r: Option<SongPlayer>)
    ensures r.None? <==> MidiPlayer.FirstTempo(tracks).None?
    ensures r.Some? ==> && r.value.songBpm == MidiPlayer.TempoToBpm(MidiPlayer.FirstTempo(tracks).value)
                        && r.value.walkingBpm == r.value.songBpm
                        && r.value.tempoFactor == 1.0
                        && r.value.nextDrumPredicted.None?
  {
    match MidiPlayer.FirstTempo(tracks)
    case None => None
    case Some(t) => var bpm := MidiPlayer.TempoToBpm(t); Some(SongPlayer(bpm, bpm, 1.0, None))
  }

  /** The phase correction applied at time `now`: 1 without a prediction, else
      `1 - gain * (now - predicted)` clamped to [0.90, 1.10]. */
  function PhaseCorrection(predicted: Option<real>, now: real): (c: real)
    ensures MinCorrection <= c <= MaxCorrection
    ensures predicted.None? ==> c == 1.0
    ensures predicted.Some? && MinCorrection <= 1.0 - CorrectionGain * (now - predicted.value) <= MaxCorrection
            ==> c == 1.0 - CorrectionGain * (now - predicted.value)
    ensures predicted.Some? && 1.0 - CorrectionGain * (now - predicted.value) > MaxCorrection ==> c == MaxCorrection
    ensures predicted.Some? && 1.0 - CorrectionGain * (now - predicted.value) < MinCorrection ==> c == MinCorrection
  {
    match predicted
    case None => 1.0
    case Some(p) =>
      var raw := 1.0 - CorrectionGain * (now - p);
      if raw > MaxCorrection then MaxCorrection
      else if raw < MinCorrection then MinCorrection
      else raw
  }

  /** A later "now" (a later drum) never speeds the correction up. */
  lemma {:induction false} PhaseCorrectionAntitone(predicted: Option<real>, now1: real, now2: real)
    requires now1 <= now2
    ensures PhaseCorrection(predicted, now2) <= PhaseCorrection(predicted, now1)
  {
    if predicted.Some? {
      var p := predicted.value;
      assert 1.0 - CorrectionGain * (now2 - p) <= 1.0 - CorrectionGain * (now1 - p);
    }
  }

  /** `set_BPM` with phase correction. */
  function SetBpm(p: SongPlayer, bpm: real, now: real): (r: SongPlayer)
    ensures bpm <= 0.0 ==> r == p
    ensures bpm > 0.0 ==> && r.walkingBpm == bpm
                          && r.tempoFactor == (p.songBpm / bpm) * PhaseCorrection(p.nextDrumPredicted, now)
                          && r.songBpm == p.songBpm
                          && r.nextDrumPredicted == p.nextDrumPredicted
  {
    if bpm <= 0.0 then p
    else
      var base := p.songBpm / bpm;
      p.(walkingBpm := bpm, tempoFactor := base * PhaseCorrection(p.nextDrumPredicted, now))
  }

  /** The corrected factor deviates from `songBPM / bpm` by at most 10% either way. */
  lemma SetBpmFactorBounds(p: SongPlayer, bpm: real, now: real)
    requires p.songBpm > 0.0 && bpm > 0.0
    ensures var f := SetBpm(p, bpm, now).tempoFactor; var base := p.songBpm / bpm;
            0.9 * base <= f <= 1.1 * base
  {
    var c := PhaseCorrection(p.nextDrumPredicted, now);
    var base := p.songBpm / bpm;
    assert base > 0.0;
    assert base * 0.9 <= base * c <= base * 1.1;
  }

  predicate IsTrackedDrum(e: MidiPlayer.Event) {
    e.NoteOn? && e.channel == DrumChannel && e.note in DrumNotes
  }

  /**
   * The bookkeeping `play` does for one message at time `now`: the message is
   * due at `now + delay * tempoFactor`, and that time becomes the predicted
   * drum time when the message is a tracked drum hit.
   */
  function ObserveMessage(p: SongPlayer, m: MidiPlayer.Message, now: real): (r: SongPlayer)
    ensures IsTrackedDrum(m.event) ==> r.nextDrumPredicted == Some(now + m.delay * p.tempoFactor)
    ensures !IsTrackedDrum(m.event) ==> r.nextDrumPredicted == p.nextDrumPredicted
    ensures r.(nextDrumPredicted := p.nextDrumPredicted) == p
  {
    var predicted := now + m.delay * p.tempoFactor;
    if IsTrackedDrum(m.event) then p.(nextDrumPredicted := Some(predicted)) else p
  }
}
