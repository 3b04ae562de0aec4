/**
 * The plotter's pure rules: reading a logged `HH:MM:SS.sss` stamp back as
 * seconds, reading the CSV `step_event` column, and how the live plot drops
 * unusable rows and grows its axis limits without ever shrinking them.
 */
module Plotter {
  import opened Wrappers
  import opened Text
  import Numeric
  import Stats
  import Logger

  // ---------------------------------------------------------------------------
  // Elapsed-time stamps
  // ---------------------------------------------------------------------------

  /** `_elapsed_to_seconds`; `None` where the unpacking or `float` raises ValueError. */
  function ElapsedToSeconds(value: string): (r: Option<real>)
    ensures |Split(value, ':')| != 3 ==> r.None?
  {
    FieldsToSeconds(Split(value, ':'))
  }

  /** The unpacking into exactly three fields, each read with `float`. */
  function FieldsToSeconds(parts: seq<string>): Option<real>
  {
    if |parts| != 3 then None
    else HoursMinutesSeconds(Numeric.ParseReal(parts[0]), Numeric.ParseReal(parts[1]), Numeric.ParseReal(parts[2]))
  }

  /** `h * 3600 + m * 60 + s` once all three fields have parsed. */
  function HoursMinutesSeconds(h: Option<real>, m: Option<real>, s: Option<real>): Option<real>
  {
    if h.Some? && m.Some? && s.Some? then Some(h.value * 3600.0 + m.value * 60.0 + s.value) else None
  }

  /** `float` reads a run of digits as its value. */
  lemma ParseRealDigits(t: string)
    requires |t| > 0 && Numeric.AllDigits(t)
    ensures Numeric.ParseReal(t) == Some(Numeric.DigitsValue(t) as real)
  {
    assert Numeric.IsDigit(t[0]) && Numeric.IsDigit(t[|t| - 1]);
    StripOfStripped(t);
    Numeric.ParseUnsignedRealDigits(t);
  }

  /** Digits contain no colon. */
  lemma DigitsHaveNoColon(t: string)
    requires Numeric.AllDigits(t)
    ensures ':' !in t
  {
    forall i | 0 <= i < |t| ensures t[i] != ':' { assert Numeric.IsDigit(t[i]); }
  }

  /** The stamp splits on ':' into its hour, minute and `SS.sss` fields. */
  lemma StampFields(h: string, m: string, s: string, f: string)
    requires Numeric.AllDigits(h) && Numeric.AllDigits(m) && Numeric.AllDigits(s) && Numeric.AllDigits(f)
    ensures Split(h + ":" + m + ":" + s + "." + f, ':') == [h, m, s + "." + f]
  {
    var sf := s + "." + f;
    DigitsHaveNoColon(h);
    DigitsHaveNoColon(m);
    DigitsHaveNoColon(s);
    DigitsHaveNoColon(f);
    assert ':' !in sf by {
      forall i | 0 <= i < |sf| ensures sf[i] != ':' {
        if i < |s| { assert sf[i] == s[i]; }
        else if i > |s| { assert sf[i] == f[i - |s| - 1]; }
      }
    }
    assert h + ":" + m + ":" + s + "." + f == h + [':'] + (m + [':'] + sf);
    SplitHead(h, m + [':'] + sf, ':');
    SplitHead(m, sf, ':');
  }

  /** The value of an `SS.sss` field. */
  function SecondsValue(s: nat, f: nat): real {
    (s as real) + (f as real) / 1000.0
  }

  /** The value in seconds of a clock reading. */
  function ClockSeconds(h: nat, m: nat, s: nat, f: nat): real {
    (h as real) * 3600.0 + (m as real) * 60.0 + SecondsValue(s, f)
  }

  /** A duration in milliseconds, in seconds. */
  function MsToSeconds(ms: nat): real {
    (ms as real) / 1000.0
  }

  /** The clock's value in seconds is the duration it was cut from. */
  lemma StampValue(ms: nat, h: nat, m: nat, s: nat, f: nat)
    requires ms == 3600000 * h + 60000 * m + 1000 * s + f
    ensures ClockSeconds(h, m, s, f) == MsToSeconds(ms)
  {
  }

  /** A zero-padded field reads back as its number. */
  lemma PaddedReads(n: nat, width: nat)
    ensures Numeric.ParseReal(Numeric.ShowPadded(n, width)) == Some(n as real)
  {
    var t := Numeric.ShowPadded(n, width);
    Numeric.ShowNatValue(n);
    assert |t| >= |Numeric.ShowNat(n)| >= 1;
    ParseRealDigits(t);
  }

  /** The decimal `SS.sss` has the value of its two parts. */
  lemma PaddedDecimalValue(s: nat, f: nat)
    requires f < 1000
    ensures Numeric.DecimalValue(Numeric.ShowPadded(s, 2), Numeric.ShowPadded(f, 3)) == SecondsValue(s, f)
  {
    assert Numeric.Pow10(3) == 1000;
    assert |Numeric.ShowPadded(f, 3)| == 3;
  }

  /** The `SS.sss` field reads back as its value. */
  lemma SecondsFieldReads(s: nat, f: nat)
    requires f < 1000
    ensures Numeric.ParseReal(Numeric.ShowPadded(s, 2) + "." + Numeric.ShowPadded(f, 3)) == Some(SecondsValue(s, f))
  {
    var S, F := Numeric.ShowPadded(s, 2), Numeric.ShowPadded(f, 3);
    Numeric.ShowNatValue(s);
    assert |S| >= |Numeric.ShowNat(s)| >= 1;
    Numeric.ParseRealDecimal(S, F);
    PaddedDecimalValue(s, f);
  }

  /** Three readable fields combine into the clock's value. */
  lemma ClockValue(h: nat, m: nat, s: nat, f: nat)
    ensures HoursMinutesSeconds(Some(h as real), Some(m as real), Some(SecondsValue(s, f))) == Some(ClockSeconds(h, m, s, f))
  {
  }

  /** A stamp made of three readable fields reads as their value in seconds. */
  lemma FieldsRead(text: string, H: string, M: string, S: string, F: string, h: nat, m: nat, s: nat, f: nat)
    requires text == H + ":" + M + ":" + S + "." + F
    requires Numeric.AllDigits(H) && Numeric.AllDigits(M) && Numeric.AllDigits(S) && Numeric.AllDigits(F)
    requires Numeric.ParseReal(H) == Some(h as real) && Numeric.ParseReal(M) == Some(m as real)
    requires Numeric.ParseReal(S + "." + F) == Some(SecondsValue(s, f))
    ensures ElapsedToSeconds(text) == Some(ClockSeconds(h, m, s, f))
  {
    StampFields(H, M, S, F);
    ClockValue(h, m, s, f);
  }

  /** A clock reading with in-range fields reads back as its value in seconds. */
  lemma ClockReads(h: nat, m: nat, s: nat, f: nat)
    requires f < 1000
    ensures ElapsedToSeconds(Logger.Clock(h, m, s, f)) == Some(ClockSeconds(h, m, s, f))
  {
    var H, M, S, F := Numeric.ShowPadded(h, 2), Numeric.ShowPadded(m, 2),
                      Numeric.ShowPadded(s, 2), Numeric.ShowPadded(f, 3);
    PaddedReads(h, 2);
    PaddedReads(m, 2);
    SecondsFieldReads(s, f);
    FieldsRead(Logger.Clock(h, m, s, f), H, M, S, F, h, m, s, f);
  }

  /**
   * Round trip: the plotter reads every stamp the logger writes back as the
   * logged duration in seconds.
   */
  lemma ElapsedRoundTrip(ms: nat)
    ensures ElapsedToSeconds(Logger.FormatElapsed(ms)) == Some(MsToSeconds(ms))
  {
    Logger.FieldsDecompose(ms);
    var h, m, s, f := Logger.Hours(ms), Logger.Minutes(ms), Logger.Seconds(ms), Logger.Millis(ms);
    ClockReads(h, m, s, f);
    StampValue(ms, h, m, s, f);
  }

  /** Every time cell the logger writes reads back as the elapsed seconds it stamped. */
  lemma LoggedTimeReadsBack(t: Logger.Timer, nowMs: int)
    ensures ElapsedToSeconds(Logger.ElapsedStr(t, nowMs))
            == Some(MsToSeconds(Logger.ElapsedMs(t, nowMs)))
  {
    ElapsedRoundTrip(Logger.ElapsedMs(t, nowMs));
  }

  // ---------------------------------------------------------------------------
  // The step_event column
  // ---------------------------------------------------------------------------

  /** `str(b)` for a Python bool, as the logger's CSV writer renders it. */
  function BoolText(b: bool): string {
    if b then "True" else "False"
  }

  /** `str(cell).lower()` is one of "true", "1", "yes". */
  function StepEventTrue(cell: string): bool {
    var l := Lower(cell);
    l == "true" || l == "1" || l == "yes"
  }

  lemma LowerTrue()
    ensures Lower("True") == "true"
  {
    var s := "True";
    assert Lower(s)[0] == 't';
    assert forall i :: 1 <= i < |s| ==> Lower(s)[i] == s[i];
  }

  lemma LowerFalse()
    ensures Lower("False") == "false"
  {
    var s := "False";
    assert Lower(s)[0] == 'f';
    assert forall i :: 1 <= i < |s| ==> Lower(s)[i] == s[i];
  }

  /** The plotter reads back exactly the step flag the logger wrote. */
  lemma StepEventReadsBack(b: bool)
    ensures StepEventTrue(BoolText(b)) == b
  {
    if b { LowerTrue(); } else { LowerFalse(); }
  }

  /** Any capitalisation of the accepted words counts as a step. */
  lemma StepEventIgnoresCase(cell: string)
    ensures StepEventTrue(cell) == StepEventTrue(Lower(cell))
  {
    LowerFixed(Lower(cell));
  }

  // ---------------------------------------------------------------------------
  // Live plot
  // ---------------------------------------------------------------------------

  /** One row of the live frame; `None` is a value `to_numeric` turned into NaN. */
  datatype PlotRow = PlotRow(t: Option<real>, walking: Option<real>, song: Option<real>, step: bool)

  /** `max_x_seen` and the current upper limits of the two axes. */
  datatype View = View(maxXSeen: real, xMax: real, yMax: real)

  /** The view at start-up: ten seconds wide, 160 BPM tall. */
  const Initial := View(10.0, 10.0, 160.0)

  /** A row survives the NaN filter when its time and song BPM are present. */
  predicate Kept(r: PlotRow) {
    r.t.Some? && r.song.Some?
  }

  /** The rows that survive the filter, in order. */
  function Valid(rows: seq<PlotRow>): (v: seq<PlotRow>)
    ensures |v| <= |rows|
    ensures forall i :: 0 <= i < |v| ==> Kept(v[i])
    ensures forall r :: r in v <==> r in rows && Kept(r)
    decreases |rows|
  {
    if |rows| == 0 then []
    else
      var rest := Valid(rows[1..]);
      assert rows == [rows[0]] + rows[1..];
      if Kept(rows[0]) then [rows[0]] + rest else rest
  }

  /** The time column of filtered rows. */
  function Times(rows: seq<PlotRow>): (ts: seq<real>)
    ensures |ts| == |rows|
    ensures forall i :: 0 <= i < |rows| && rows[i].t.Some? ==> ts[i] == rows[i].t.value
  {
    seq(|rows|, i requires 0 <= i < |rows| => rows[i].t.GetOr(0.0))
  }

  /** The song BPM column of filtered rows. */
  function Songs(rows: seq<PlotRow>): (ss: seq<real>)
    ensures |ss| == |rows|
    ensures forall i :: 0 <= i < |rows| && rows[i].song.Some? ==> ss[i] == rows[i].song.value
  {
    seq(|rows|, i requires 0 <= i < |rows| => rows[i].song.GetOr(0.0))
  }

  /**
   * The walking BPM readings the plot trusts: those of step rows. Between them
   * the line is linearly interpolated, which stays within these readings.
   */
  function StepWalks(rows: seq<PlotRow>): (ws: seq<real>)
    ensures forall w :: w in ws <==> exists i :: 0 <= i < |rows| && rows[i].step && rows[i].walking == Some(w)
    decreases |rows|
  {
    if |rows| == 0 then []
    else
      var rest := StepWalks(rows[1..]);
      assert forall i :: 1 <= i < |rows| ==> rows[i] == rows[1..][i - 1];
      if rows[0].step && rows[0].walking.Some? then [rows[0].walking.value] + rest else rest
  }

  /** `xs.max()` with an all-NaN (here: empty) column read as 0. */
  function MaxOrZero(xs: seq<real>): (m: real)
    ensures forall i :: 0 <= i < |xs| ==> xs[i] <= m
    ensures |xs| == 0 ==> m == 0.0
    ensures |xs| > 0 ==> m in xs
  {
    if |xs| == 0 then 0.0 else Stats.MaxOf(xs)
  }

  function Max(a: real, b: real): real {
    if a >= b then a else b
  }

  /** The view the live plot keeps: at least ten seconds and 160 BPM, x limit past the latest time. */
  predicate Sane(v: View) {
    10.0 <= v.maxXSeen <= v.xMax && 160.0 <= v.yMax
  }

  /** `LivePlotter.update` on the axis state. */
  function Update(v: View, rows: seq<PlotRow>): (r: View)
    ensures |Valid(rows)| == 0 ==> r == v
    ensures r.maxXSeen >= v.maxXSeen
    ensures Sane(v) ==> Sane(r)
  {
    var valid := Valid(rows);
    if |rows| == 0 || |valid| == 0 then v
    else
      var maxX := Max(Stats.MaxOf(Times(valid)), v.maxXSeen);
      var top := Max(Stats.MaxOf(Songs(valid)), MaxOrZero(StepWalks(valid)));
      View(maxX, maxX + 5.0, Max(160.0, top + 10.0))
  }

  /** A value of a kept row is found at that row's place among the kept rows. */
  lemma KeptRowPlace(rows: seq<PlotRow>, i: nat) returns (j: nat)
    requires i < |rows| && Kept(rows[i])
    ensures j < |Valid(rows)| && Valid(rows)[j] == rows[i]
  {
    assert rows[i] in Valid(rows);
    j :| 0 <= j < |Valid(rows)| && Valid(rows)[j] == rows[i];
  }

  /** After an update the x axis covers every kept row's time with five seconds to spare. */
  lemma UpdateCoversTimes(v: View, rows: seq<PlotRow>, i: nat)
    requires i < |rows| && Kept(rows[i])
    ensures rows[i].t.value <= Update(v, rows).maxXSeen
    ensures Update(v, rows).xMax == Update(v, rows).maxXSeen + 5.0
  {
    var j := KeptRowPlace(rows, i);
    assert Times(Valid(rows))[j] == rows[i].t.value;
  }

  /** After an update the y axis is at least 160 and clears every kept row's song BPM by 10. */
  lemma UpdateCoversSongs(v: View, rows: seq<PlotRow>, i: nat)
    requires i < |rows| && Kept(rows[i])
    ensures Update(v, rows).yMax >= 160.0
    ensures rows[i].song.value + 10.0 <= Update(v, rows).yMax
  {
    var j := KeptRowPlace(rows, i);
    assert Songs(Valid(rows))[j] == rows[i].song.value;
  }

  /** After an update the y axis clears the walking BPM of every kept step row by 10. */
  lemma UpdateCoversSteps(v: View, rows: seq<PlotRow>, i: nat)
    requires i < |rows| && Kept(rows[i]) && rows[i].step && rows[i].walking.Some?
    ensures rows[i].walking.value + 10.0 <= Update(v, rows).yMax
  {
    var j := KeptRowPlace(rows, i);
    assert rows[i].walking.value in StepWalks(Valid(rows));
  }

  /** The x range grows only to a time some kept row carries. */
  lemma UpdateGrowsOnlyToData(v: View, rows: seq<PlotRow>)
    ensures var r := Update(v, rows);
      r.maxXSeen == v.maxXSeen || exists i :: 0 <= i < |rows| && Kept(rows[i]) && rows[i].t == Some(r.maxXSeen)
  {
    var valid := Valid(rows);
    if |rows| > 0 && |valid| > 0 {
      var m := Stats.MaxOf(Times(valid));
      if m > v.maxXSeen {
        var j :| 0 <= j < |valid| && Times(valid)[j] == m;
        assert valid[j] in rows;
      }
    }
  }

  /** Some kept row has song BPM `y`. */
  predicate SongAt(rows: seq<PlotRow>, y: real) {
    exists i :: 0 <= i < |rows| && Kept(rows[i]) && rows[i].song == Some(y)
  }

  /** Some kept step row has walking BPM `y`. */
  predicate StepWalkAt(rows: seq<PlotRow>, y: real) {
    exists i :: 0 <= i < |rows| && Kept(rows[i]) && rows[i].step && rows[i].walking == Some(y)
  }

  /**
   * The y limit grows only as far as the data asks: once a row is kept it is
   * 160, or exactly 10 above a kept row's song BPM or a kept step row's
   * walking BPM.
   */
  lemma UpdateYOnlyToData(v: View, rows: seq<PlotRow>)
    ensures var y := Update(v, rows).yMax;
            |Valid(rows)| > 0 ==> y == 160.0 || SongAt(rows, y - 10.0) || StepWalkAt(rows, y - 10.0)
  {
    var valid := Valid(rows);
    if |valid| > 0 {
      var songTop, walkTop := Stats.MaxOf(Songs(valid)), MaxOrZero(StepWalks(valid));
      var y := Update(v, rows).yMax;
      assert y == Max(160.0, Max(songTop, walkTop) + 10.0);
      if y != 160.0 {
        if songTop >= walkTop {
          SongTopFrom(rows);
        } else {
          WalkTopFrom(rows);
        }
      }
    }
  }

  /** The highest song BPM among the kept rows is some kept row's song BPM. */
  lemma SongTopFrom(rows: seq<PlotRow>)
    requires |Valid(rows)| > 0
    ensures SongAt(rows, Stats.MaxOf(Songs(Valid(rows))))
  {
    var valid := Valid(rows);
    var j :| 0 <= j < |valid| && Songs(valid)[j] == Stats.MaxOf(Songs(valid));
    assert valid[j] in rows;
    var i :| 0 <= i < |rows| && rows[i] == valid[j];
  }

  /** The highest step reading among the kept rows, when there is one, is some kept step row's walking BPM. */
  lemma WalkTopFrom(rows: seq<PlotRow>)
    requires |StepWalks(Valid(rows))| > 0
    ensures StepWalkAt(rows, MaxOrZero(StepWalks(Valid(rows))))
  {
    var valid := Valid(rows);
    var w := MaxOrZero(StepWalks(valid));
    assert w in StepWalks(valid);
    var j :| 0 <= j < |valid| && valid[j].step && valid[j].walking == Some(w);
    assert valid[j] in rows;
    var i :| 0 <= i < |rows| && rows[i] == valid[j];
  }

  /** Filtering an appended row filters the rows, then the new row. */
  lemma {:induction false} ValidAppend(rows: seq<PlotRow>, x: PlotRow)
    ensures Valid(rows + [x]) == Valid(rows) + (if Kept(x) then [x] else [])
    decreases |rows|
  {
    if |rows| > 0 {
      assert (rows + [x])[1..] == rows[1..] + [x];
      ValidAppend(rows[1..], x);
    }
  }

  /** A row with no time or no song BPM changes nothing. */
  lemma DroppedRowIgnored(v: View, rows: seq<PlotRow>, bad: PlotRow)
    requires !Kept(bad)
    ensures Update(v, rows + [bad]) == Update(v, rows)
  {
    ValidAppend(rows, bad);
    var valid := Valid(rows + [bad]);
    assert valid == Valid(rows);
    if |valid| == 0 {
      assert Update(v, rows + [bad]) == v;
    }
  }

  function UpdateAll(v: View, frames: seq<seq<PlotRow>>): View
    decreases |frames|
  {
    if |frames| == 0 then v else UpdateAll(Update(v, frames[0]), frames[1..])
  }

  /** Across any run of frames the view stays sane and the x range never shrinks. */
  lemma {:induction false} UpdateAllMonotone(v: View, frames: seq<seq<PlotRow>>)
    requires Sane(v)
    ensures Sane(UpdateAll(v, frames))
    ensures UpdateAll(v, frames).maxXSeen >= v.maxXSeen
    decreases |frames|
  {
    if |frames| > 0 {
      UpdateAllMonotone(Update(v, frames[0]), frames[1..]);
    }
  }
}
