/**
 * The session logger's pure rules: the `HH:MM:SS.sss` elapsed-time stamp, the
 * folder a named session is filed under, the CSV meta-header defaults, and the
 * session timer that starts with the first data point whose song BPM is
 * positive. Timestamps are whole milliseconds.
 */
module Logger {
  import opened Wrappers
  import opened Text
  import Numeric

  // ---------------------------------------------------------------------------
  // Elapsed-time stamp
  // ---------------------------------------------------------------------------

  /** `HH:MM:SS.sss` from its four fields, zero-padded like `{:02d}` and `{:06.3f}`. */
  function Clock(h: nat, m: nat, s: nat, f: nat): string
  {
    Numeric.ShowPadded(h, 2) + ":" + Numeric.ShowPadded(m, 2) + ":"
      + Numeric.ShowPadded(s, 2) + "." + Numeric.ShowPadded(f, 3)
  }

  /** The hour, minute, second and millisecond fields of a duration in milliseconds. */
  function Hours(ms: nat): nat { ms / 3600000 }
  function Minutes(ms: nat): nat { ms % 3600000 / 60000 }
  function Seconds(ms: nat): nat { ms % 60000 / 1000 }
  function Millis(ms: nat): nat { ms % 1000 }

  /** Taking the remainder by an hour first does not change the remainder by a minute. */
  lemma MinuteRemainder(ms: nat)
    ensures ms % 3600000 % 60000 == ms % 60000
  {
    var h, r1 := ms / 3600000, ms % 3600000;
    assert ms == 3600000 * h + r1;
    var m, r2 := r1 / 60000, r1 % 60000;
    assert r1 == 60000 * m + r2;
    assert ms == 60000 * (60 * h + m) + r2;
  }

  /** Taking the remainder by a minute first does not change the remainder by a second. */
  lemma SecondRemainder(ms: nat)
    ensures ms % 60000 % 1000 == ms % 1000
  {
    var q, r := ms / 60000, ms % 60000;
    assert ms == 60000 * q + r;
    var s, f := r / 1000, r % 1000;
    assert r == 1000 * s + f;
    assert ms == 1000 * (60 * q + s) + f;
  }

  /** The four fields are in range and add up to the duration. */
  lemma FieldsDecompose(ms: nat)
    ensures Minutes(ms) < 60 && Seconds(ms) < 60 && Millis(ms) < 1000
    ensures ms == 3600000 * Hours(ms) + 60000 * Minutes(ms) + 1000 * Seconds(ms) + Millis(ms)
  {
    MinuteRemainder(ms);
    SecondRemainder(ms);
    assert ms == 3600000 * Hours(ms) + ms % 3600000;
    assert ms % 3600000 == 60000 * Minutes(ms) + ms % 60000;
    assert ms % 60000 == 1000 * Seconds(ms) + Millis(ms);
  }

  /**
   * `_format_elapsed` for a whole number of milliseconds. Read from the right
   * the stamp is `H…:MM:SS.sss`, with minutes and seconds below 60, and its
   * digit groups weighted by hour, minute, second and millisecond add up to
   * the duration, however many digits the hours take.
   */
  function FormatElapsed(ms: nat): (r: string)
    ensures |r| >= 12
    ensures ms < 360000000 ==> |r| == 12
    ensures var n := |r|;
            && r[n - 10] == ':' && r[n - 7] == ':' && r[n - 4] == '.'
            && Numeric.AllDigits(r[..n - 10]) && Numeric.AllDigits(r[n - 9..n - 7])
            && Numeric.AllDigits(r[n - 6..n - 4]) && Numeric.AllDigits(r[n - 3..])
            && Numeric.DigitsValue(r[n - 9..n - 7]) < 60 && Numeric.DigitsValue(r[n - 6..n - 4]) < 60
            && 3600000 * Numeric.DigitsValue(r[..n - 10]) + 60000 * Numeric.DigitsValue(r[n - 9..n - 7])
               + 1000 * Numeric.DigitsValue(r[n - 6..n - 4]) + Numeric.DigitsValue(r[n - 3..]) == ms
  {
    var h, m, s, f := Hours(ms), Minutes(ms), Seconds(ms), Millis(ms);
    FieldsDecompose(ms);
    assert Numeric.Pow10(2) == 100 && Numeric.Pow10(3) == 1000;
    var hh, mm, ss, ff := Numeric.ShowPadded(h, 2), Numeric.ShowPadded(m, 2), Numeric.ShowPadded(s, 2), Numeric.ShowPadded(f, 3);
    StampReads(hh, mm, ss, ff, ms);
    Clock(h, m, s, f)
  }

  /** Digit groups that add up to `ms` as hours, minutes, seconds and milliseconds read back from the stamp. */
  lemma StampReads(hh: string, mm: string, ss: string, ff: string, ms: nat)
    requires |hh| >= 2 && |mm| == 2 && |ss| == 2 && |ff| == 3
    requires Numeric.AllDigits(hh) && Numeric.AllDigits(mm) && Numeric.AllDigits(ss) && Numeric.AllDigits(ff)
    requires Numeric.DigitsValue(mm) < 60 && Numeric.DigitsValue(ss) < 60
    requires 3600000 * Numeric.DigitsValue(hh) + 60000 * Numeric.DigitsValue(mm)
             + 1000 * Numeric.DigitsValue(ss) + Numeric.DigitsValue(ff) == ms
    ensures var r := hh + ":" + mm + ":" + ss + "." + ff;
            var n := |r|;
            && r[n - 10] == ':' && r[n - 7] == ':' && r[n - 4] == '.'
            && Numeric.AllDigits(r[..n - 10]) && Numeric.AllDigits(r[n - 9..n - 7])
            && Numeric.AllDigits(r[n - 6..n - 4]) && Numeric.AllDigits(r[n - 3..])
            && Numeric.DigitsValue(r[n - 9..n - 7]) < 60 && Numeric.DigitsValue(r[n - 6..n - 4]) < 60
            && 3600000 * Numeric.DigitsValue(r[..n - 10]) + 60000 * Numeric.DigitsValue(r[n - 9..n - 7])
               + 1000 * Numeric.DigitsValue(r[n - 6..n - 4]) + Numeric.DigitsValue(r[n - 3..]) == ms
  {
    StampLayout(hh, mm, ss, ff);
  }

  /** `H…:MM:SS.sss` read from the right: three fixed-width fields after the hours. */
  lemma StampLayout(hh: string, mm: string, ss: string, ff: string)
    requires |hh| >= 2 && |mm| == 2 && |ss| == 2 && |ff| == 3
    ensures var r := hh + ":" + mm + ":" + ss + "." + ff;
            var n := |r|;
            && n == |hh| + 10
            && r[n - 10] == ':' && r[n - 7] == ':' && r[n - 4] == '.'
            && r[..n - 10] == hh && r[n - 9..n - 7] == mm && r[n - 6..n - 4] == ss && r[n - 3..] == ff
  {
  }

  /**
   * Below 100 hours the stamp reads back: `HH:MM:SS.sss` with its separators
   * in place, and its digit groups weighted by hour, minute, second and
   * millisecond add up to the duration.
   */
  lemma ElapsedReadsBack(ms: nat)
    requires ms < 360000000
    ensures var r := FormatElapsed(ms);
            && |r| == 12 && r[2] == ':' && r[5] == ':' && r[8] == '.'
            && Numeric.AllDigits(r[..2]) && Numeric.AllDigits(r[3..5])
            && Numeric.AllDigits(r[6..8]) && Numeric.AllDigits(r[9..])
            && Numeric.DigitsValue(r[3..5]) < 60 && Numeric.DigitsValue(r[6..8]) < 60
            && 3600000 * Numeric.DigitsValue(r[..2]) + 60000 * Numeric.DigitsValue(r[3..5])
               + 1000 * Numeric.DigitsValue(r[6..8]) + Numeric.DigitsValue(r[9..]) == ms
  {
    FieldsDecompose(ms);
    assert Numeric.Pow10(2) == 100 && Numeric.Pow10(3) == 1000;
    var h, m := Numeric.ShowPadded(Hours(ms), 2), Numeric.ShowPadded(Minutes(ms), 2);
    var s, f := Numeric.ShowPadded(Seconds(ms), 2), Numeric.ShowPadded(Millis(ms), 3);
    var r := FormatElapsed(ms);
    assert |h| == 2 && |m| == 2 && |s| == 2 && |f| == 3;
    assert r == h + ":" + m + ":" + s + "." + f;
    assert r[..2] == h && r[3..5] == m && r[6..8] == s && r[9..] == f;
  }

  // ---------------------------------------------------------------------------
  // Session folder
  // ---------------------------------------------------------------------------

  /** The characters a session name keeps: ASCII letters and digits, space, `_` and `-`. */
  predicate NameChar(c: char) {
    IsAlnum(c) || c == ' ' || c == '_' || c == '-'
  }

  /** The name with every other character dropped, order kept. */
  function KeepNameChars(name: string): (r: string)
    ensures |r| <= |name|
    ensures forall i :: 0 <= i < |r| ==> NameChar(r[i])
    ensures forall c :: c in r <==> c in name && NameChar(c)
  {
    if |name| == 0 then ""
    else
      var rest := KeepNameChars(name[1..]);
      assert name == [name[0]] + name[1..];
      if NameChar(name[0]) then [name[0]] + rest else rest
  }

  /** The sanitised name: kept characters, surrounding spaces stripped. */
  function SafeName(name: string): (r: string)
    ensures forall i :: 0 <= i < |r| ==> NameChar(r[i])
    ensures forall c :: c in r ==> c in name
    ensures r == [] || (r[0] != ' ' && r[|r| - 1] != ' ')
    ensures forall c :: c in name && NameChar(c) && c != ' ' ==> c in r
  {
    var kept := KeepNameChars(name);
    StripSlice(kept);
    KeptSurviveStrip(kept);
    Strip(kept)
  }

  /** Of the kept characters, every one but the space survives the strip. */
  lemma KeptSurviveStrip(kept: string)
    ensures forall c :: c in kept && NameChar(c) && c != ' ' ==> c in Strip(kept)
  {
    StripKeepsNonSpace(kept);
    forall c | c in kept && NameChar(c) && c != ' ' ensures c in Strip(kept) {
      var i :| 0 <= i < |kept| && kept[i] == c;
      assert !IsSpace(kept[i]);
    }
  }

  /** A session name counts as given when it is present and not blank. */
  predicate NameGiven(name: Option<string>) {
    name.Some? && Strip(name.value) != ""
  }

  /** `path / part` in pathlib, on segment lists: an empty part adds no segment. */
  function Child(path: seq<string>, part: string): seq<string>
  {
    if part == "" then path else path + [part]
  }

  /** The parent folder below `logs`, as the constructor computes it. */
  function ParentFolderAsWritten(name: Option<string>): (r: seq<string>)
    ensures |r| <= 1
    ensures !NameGiven(name) ==> r == ["Default"]
    ensures NameGiven(name) ==> (r == [] <==> SafeName(name.value) == "")
    ensures NameGiven(name) && SafeName(name.value) != "" ==> r == [SafeName(name.value)]
  {
    if NameGiven(name) then Child([], SafeName(name.value)) else ["Default"]
  }

  /** `"!!!"` keeps no character. */
  lemma PunctuationKeepsNothing()
    ensures KeepNameChars("!!!") == ""
  {
    var name := "!!!";
    assert !NameChar(name[0]) && name[1..] == "!!";
    assert !NameChar(name[1]) && name[2..] == "!";
    assert KeepNameChars(name[2..]) == "";
  }

  /** A string that starts with a non-space character is not blank. */
  lemma NotBlank(s: string)
    requires |s| > 0 && !IsSpace(s[0])
    ensures Strip(s) != ""
  {
    assert TrimLeft(s) == s;
  }

  /** `"!!!"` is not blank. */
  lemma PunctuationIsGiven()
    ensures NameGiven(Some("!!!"))
  {
    var name := "!!!";
    assert !IsSpace(name[0]);
    NotBlank(name);
  }

  /** A name made only of punctuation is given, sanitises to "", and files the session in `logs` itself. */
  lemma PunctuationNameLandsInLogsRoot()
    ensures NameGiven(Some("!!!"))
    ensures ParentFolderAsWritten(Some("!!!")) == []
  {
    PunctuationIsGiven();
    PunctuationKeepsNothing();
    assert SafeName("!!!") == Strip("");
  }

  /**
   * The parent folder with the evident intent kept: every session gets one
   * named folder below `logs`, `Default` when no usable name is left.
   */
  function ParentFolder(name: Option<string>): (r: seq<string>)
    ensures |r| == 1 && r[0] != ""
    ensures forall i :: 0 <= i < |r[0]| ==> NameChar(r[0][i])
    ensures NameGiven(name) && SafeName(name.value) != "" ==> r == [SafeName(name.value)]
    ensures !(NameGiven(name) && SafeName(name.value) != "") ==> r == ["Default"]
    ensures r != ParentFolderAsWritten(name) <==> NameGiven(name) && SafeName(name.value) == ""
  {
    var safe := if NameGiven(name) then SafeName(name.value) else "";
    if safe != "" then [safe] else DefaultIsName(); ["Default"]
  }

  /** `Default` is itself a usable folder name. */
  lemma DefaultIsName()
    ensures forall i :: 0 <= i < |"Default"| ==> NameChar("Default"[i])
  {
  }

  /** The session folder: `session_<timestamp>` inside the parent folder. */
  function SessionFolder(name: Option<string>, timestamp: string): (r: seq<string>)
    ensures |r| == 2 && r[..1] == ParentFolder(name)
    ensures StartsWith(r[1], "session_") && r[1][|"session_"|..] == timestamp
  {
    ParentFolder(name) + ["session_" + timestamp]
  }

  // ---------------------------------------------------------------------------
  // CSV meta header
  // ---------------------------------------------------------------------------

  datatype Meta = Meta(smoothingWindow: int, stride: int, runType: string)

  /** The `# meta:` header values: given values kept, missing ones defaulted. */
  function MetaOf(window: Option<int>, stride: Option<int>, runType: Option<string>): (m: Meta)
    ensures window.None? ==> m.smoothingWindow == 3
    ensures stride.None? ==> m.stride == 1
    ensures runType.None? ==> m.runType == "dynamic"
    ensures window.Some? ==> m.smoothingWindow == window.value
    ensures stride.Some? ==> m.stride == stride.value
    ensures runType.Some? ==> m.runType == runType.value
  {
    Meta(window.GetOr(3), stride.GetOr(1), runType.GetOr("dynamic"))
  }

  // ---------------------------------------------------------------------------
  // Session timer and data rows
  // ---------------------------------------------------------------------------

  /** `_timer_started` and `start_time`. */
  datatype Timer = Timer(started: bool, startMs: int)

  const NotStarted := Timer(false, 0)

  /** `_elapsed_str`: zero before the timer starts, never negative after. */
  function ElapsedMs(t: Timer, nowMs: int): (e: nat)
    ensures !t.started ==> e == 0
    ensures t.started ==> e >= nowMs - t.startMs
    ensures t.started && nowMs >= t.startMs ==> e + t.startMs == nowMs
    ensures t.started && nowMs < t.startMs ==> e == 0
  {
    if t.started && nowMs > t.startMs then nowMs - t.startMs else 0
  }

  function ElapsedStr(t: Timer, nowMs: int): string
  {
    FormatElapsed(ElapsedMs(t, nowMs))
  }

  /** One CSV row; a blank `instant_bpm` cell is `None`. */
  datatype Row = Row(time: string, songBpm: real, walkingBpm: real, stepEvent: bool, instantBpm: Option<real>)

  /** One `DATA_PACKET:` object; `i` is `None` when the key is absent. */
  datatype Packet = Packet(t: string, s: real, w: real, e: bool, i: Option<real>)

  /** The effect of one `log_data` call. */
  datatype Logged = Logged(timer: Timer, timerMessage: bool, row: Row, packet: Packet)

  /** `log_data`. */
  function LogData(t: Timer, tsMs: int, songBpm: real, walkingBpm: real, stepEvent: bool,
                   instantBpm: Option<real>): (r: Logged)
    ensures r.timer.started <==> t.started || songBpm > 0.0
    ensures t.started ==> r.timer == t
    ensures r.timerMessage <==> !t.started && songBpm > 0.0
    ensures r.timerMessage ==> r.timer.startMs == tsMs && ElapsedMs(r.timer, tsMs) == 0
    ensures !r.timer.started ==> ElapsedMs(r.timer, tsMs) == 0
    ensures r.row.time == r.packet.t == ElapsedStr(r.timer, tsMs)
    ensures r.row.songBpm == r.packet.s == songBpm
    ensures r.row.walkingBpm == r.packet.w == walkingBpm
    ensures r.row.stepEvent == r.packet.e == stepEvent
    ensures r.row.instantBpm == r.packet.i
    ensures r.packet.i.Some? <==> stepEvent && instantBpm.Some?
    ensures r.packet.i.Some? ==> r.packet.i == instantBpm
  {
    var starts := !t.started && songBpm > 0.0;
    var t' := if starts then Timer(true, tsMs) else t;
    var elapsed := ElapsedStr(t', tsMs);
    var ib := if stepEvent then instantBpm else None;
    var i := if stepEvent && instantBpm.Some? then instantBpm else None;
    Logged(t', starts, Row(elapsed, songBpm, walkingBpm, stepEvent, ib),
           Packet(elapsed, songBpm, walkingBpm, stepEvent, i))
  }

  /** The arguments of one `log_data` call. */
  datatype Call = Call(tsMs: int, songBpm: real, walkingBpm: real, stepEvent: bool, instantBpm: Option<real>)

  /** A session's `log_data` calls in order: the timer afterwards and the rows written. */
  function LogAll(t: Timer, calls: seq<Call>): (r: (Timer, seq<Row>))
    ensures |r.1| == |calls|
    decreases |calls|
  {
    if |calls| == 0 then (t, [])
    else
      var c := calls[0];
      var l := LogData(t, c.tsMs, c.songBpm, c.walkingBpm, c.stepEvent, c.instantBpm);
      var rest := LogAll(l.timer, calls[1..]);
      (rest.0, [l.row] + rest.1)
  }

  /** Index of the first call whose song BPM is positive. */
  function FirstPlaying(calls: seq<Call>): (k: Option<nat>)
    ensures k.Some? ==> k.value < |calls| && calls[k.value].songBpm > 0.0
    ensures k.Some? ==> forall i :: 0 <= i < k.value ==> calls[i].songBpm <= 0.0
    ensures k.None? ==> forall i :: 0 <= i < |calls| ==> calls[i].songBpm <= 0.0
    decreases |calls|
  {
    if |calls| == 0 then None
    else if calls[0].songBpm > 0.0 then Some(0)
    else match FirstPlaying(calls[1..])
      case None => None
      case Some(k) => Some(k + 1)
  }

  /** Once started, the timer never moves. */
  lemma {:induction false} StartedTimerStays(t: Timer, calls: seq<Call>)
    requires t.started
    ensures LogAll(t, calls).0 == t
    decreases |calls|
  {
    if |calls| > 0 {
      StartedTimerStays(t, calls[1..]);
    }
  }

  /** The timer starts exactly once, at the first call with a positive song BPM. */
  lemma {:induction false} TimerStartsAtFirstPlaying(calls: seq<Call>)
    ensures FirstPlaying(calls).None? ==> LogAll(NotStarted, calls).0 == NotStarted
    ensures FirstPlaying(calls).Some? ==>
      LogAll(NotStarted, calls).0 == Timer(true, calls[FirstPlaying(calls).value].tsMs)
    decreases |calls|
  {
    if |calls| > 0 {
      var c := calls[0];
      var l := LogData(NotStarted, c.tsMs, c.songBpm, c.walkingBpm, c.stepEvent, c.instantBpm);
      if c.songBpm > 0.0 {
        StartedTimerStays(l.timer, calls[1..]);
      } else {
        assert l.timer == NotStarted;
        TimerStartsAtFirstPlaying(calls[1..]);
      }
    }
  }

  /** Call `i` comes no later than the first call with a positive song BPM. */
  predicate NotYetPlaying(calls: seq<Call>, i: nat) {
    FirstPlaying(calls).None? || i <= FirstPlaying(calls).value
  }

  /** The first row of a session is stamped zero. */
  lemma FirstRowIsZero(calls: seq<Call>)
    requires |calls| > 0
    ensures LogAll(NotStarted, calls).1[0].time == FormatElapsed(0)
  {
    var c := calls[0];
    var l := LogData(NotStarted, c.tsMs, c.songBpm, c.walkingBpm, c.stepEvent, c.instantBpm);
    assert LogAll(NotStarted, calls).1[0] == l.row;
  }

  /** No call before `i` has a positive song BPM. */
  predicate SilentBefore(calls: seq<Call>, i: nat) {
    i <= |calls| && forall k :: 0 <= k < i ==> calls[k].songBpm <= 0.0
  }

  /** A call with a song BPM that is not positive leaves the timer unstarted, so the rest is logged as if it came first. */
  lemma SilentCallShifts(calls: seq<Call>)
    requires |calls| > 0 && calls[0].songBpm <= 0.0
    ensures LogAll(NotStarted, calls).1[1..] == LogAll(NotStarted, calls[1..]).1
  {
    var c := calls[0];
    var l := LogData(NotStarted, c.tsMs, c.songBpm, c.walkingBpm, c.stepEvent, c.instantBpm);
    assert l.timer == NotStarted;
  }

  /** Until the timer starts, row `i` is the row the call would get if the log began with it. */
  lemma {:induction false} SilentPrefixShifts(calls: seq<Call>, i: nat)
    requires i < |calls| && SilentBefore(calls, i)
    ensures LogAll(NotStarted, calls).1[i] == LogAll(NotStarted, calls[i..]).1[0]
    decreases i
  {
    if i > 0 {
      var tail := calls[1..];
      SilentBeforeTail(calls, i);
      SilentPrefixShifts(tail, i - 1);
      SilentCallShifts(calls);
      ShiftedRow(LogAll(NotStarted, calls).1, LogAll(NotStarted, tail).1, i);
      assert tail[i - 1..] == calls[i..];
    }
  }

  /** Dropping a silent first call keeps the calls before `i - 1` silent. */
  lemma SilentBeforeTail(calls: seq<Call>, i: nat)
    requires 0 < i < |calls| && SilentBefore(calls, i)
    ensures SilentBefore(calls[1..], i - 1) && calls[0].songBpm <= 0.0
  {
    forall k | 0 <= k < i - 1 ensures calls[1..][k].songBpm <= 0.0 {
      assert calls[1..][k] == calls[k + 1];
    }
  }

  /** Row `i` of a log whose rows after the first are `tail` is row `i - 1` of `tail`. */
  lemma ShiftedRow(rows: seq<Row>, tail: seq<Row>, i: nat)
    requires 0 < i < |rows| && rows[1..] == tail
    ensures rows[i] == tail[i - 1]
  {
  }

  /** Every row up to and including the one that starts the timer is stamped zero. */
  lemma RowsBeforeStartAreZero(calls: seq<Call>, i: nat)
    requires i < |calls| && NotYetPlaying(calls, i)
    ensures LogAll(NotStarted, calls).1[i].time == FormatElapsed(0)
  {
    assert SilentBefore(calls, i);
    SilentPrefixShifts(calls, i);
    FirstRowIsZero(calls[i..]);
  }
}
