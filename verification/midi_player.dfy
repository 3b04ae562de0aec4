/**
 * The tempo arithmetic of the host's MIDI player: the song tempo read from the
 * first `set_tempo` meta message, the walking BPM the player follows, and the
 * tempo factor that scales every MIDI delay (factor = songBPM / walkingBPM).
 * Port I/O, threads and locks are not modelled.
 */
module MidiPlayer {
  import opened Wrappers

  /** Microseconds per quarter note. Zero is excluded: converting it to BPM divides by it. */
  type Tempo = t: int | 0 < t <= 0xFF_FFFF witness 500000

  datatype Event =
    | SetTempo(tempo: Tempo)
    | NoteOn(channel: nat, note: nat)
    | OtherEvent

  /** One message of a track: what it is and its delay in seconds after the previous one. */
  datatype Message = Message(event: Event, delay: real)

  type Track = seq<Message>

  /** mido's `tempo2bpm` for a 4/4 time signature. */
  function TempoToBpm(t: Tempo): (bpm: real)
    ensures bpm > 0.0
  {
    60_000_000.0 / t as real
  }

  /** The tempo of the first `set_tempo` message of one track. */
  function FirstTempoIn(track: Track): (r: Option<Tempo>)
    ensures r.None? <==> forall j :: 0 <= j < |track| ==> !track[j].event.SetTempo?
    ensures r.Some? ==> exists j :: 0 <= j < |track| && track[j].event == SetTempo(r.value)
                          && forall k :: 0 <= k < j ==> !track[k].event.SetTempo?
  {
    if |track| == 0 then None
    else if track[0].event.SetTempo? then Some(track[0].event.tempo)
    else
      var r := FirstTempoIn(track[1..]);
      assert forall j :: 1 <= j < |track| ==> track[j] == track[1..][j - 1];
      r
  }

  /** The first `set_tempo` in track order, tracks taken in file order. */
  function FirstTempo(tracks: seq<Track>): (r: Option<Tempo>)
    ensures r.None? <==> forall i :: 0 <= i < |tracks| ==> FirstTempoIn(tracks[i]).None?
    ensures r.Some? ==> exists i :: 0 <= i < |tracks| && FirstTempoIn(tracks[i]) == r
                          && forall k :: 0 <= k < i ==> FirstTempoIn(tracks[k]).None?
  {
    if |tracks| == 0 then None
    else if FirstTempoIn(tracks[0]).Some? then FirstTempoIn(tracks[0])
    else
      var r := FirstTempo(tracks[1..]);
      assert forall i :: 1 <= i < |tracks| ==> tracks[i] == tracks[1..][i - 1];
      r
  }

  datatype Player = Player(songBpm: real, walkingBpm: real, tempoFactor: real)

  /** What construction establishes and `SetBpm` preserves. */
  predicate Valid(p: Player) {
    p.songBpm > 0.0 && p.walkingBpm > 0.0 && p.tempoFactor * p.walkingBpm == p.songBpm
  }

  /** The constructor: `None` stands for the "no tempo" error it raises. */
  function New(tracks: seq<Track>): (r: Option<Player>)
    ensures r.None? <==> FirstTempo(tracks).None?
    ensures r.Some? ==> && r.value.songBpm == TempoToBpm(FirstTempo(tracks).value)
                        && r.value.walkingBpm == r.value.songBpm
                        && r.value.tempoFactor == 1.0
                        && Valid(r.value)
  {
    match FirstTempo(tracks)
    case None => None
    case Some(t) => var bpm := TempoToBpm(t); Some(Player(bpm, bpm, 1.0))
  }

  /** `set_BPM`: a non-positive BPM is ignored; otherwise the player follows it. */
  function SetBpm(p: Player, bpm: real): (r: Player)
    ensures bpm <= 0.0 ==> r == p
    ensures bpm > 0.0 ==> r.songBpm == p.songBpm && r.walkingBpm == bpm
                          && r.tempoFactor * bpm == p.songBpm
    ensures Valid(p) ==> Valid(r)
  {
    if bpm <= 0.0 then p
    else Player(p.songBpm, bpm, p.songBpm / bpm)
  }

  /** Setting the same BPM twice is the same as setting it once. */
  lemma SetBpmIdempotent(p: Player, bpm: real)
    ensures SetBpm(SetBpm(p, bpm), bpm) == SetBpm(p, bpm)
  {
  }

  /**
   * The remaining wait after the tempo factor changes from `tf` to `newTf`
   * mid-wait: the part of the MIDI delay not yet waited for is stretched by
   * `newTf / tf`, so the unplayed amount of song time stays the same.
   */
  function RescaleRemaining(remaining: real, tf: real, newTf: real): (r: real)
    requires tf != 0.0
    ensures r * tf == remaining * newTf
    ensures newTf == tf ==> r == remaining
  {
    if newTf != tf then remaining * (newTf / tf) else remaining
  }
}
