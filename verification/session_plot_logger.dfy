/**
 * The offline step logger: it validates `STEP,time_ms,foot,fsr_peak,contact_ms,cadence_spm`
 * lines from the sensor, keeps the accepted ones with their time relative to
 * the first, writes each back as a CSV line, and finally sorts the samples
 * by time and splits them by foot for plotting.
 *
 * The serial port, the files and the plots are left out; lines arrive
 * already stripped (see `Comms.Received`). The float repr of the cadence in
 * the CSV line is a parameter.
 */
module SessionPlotLogger {
  import opened Text
  import Numeric
  import Wrappers
  import Comms

  const MinFsr: int := 0
  const MaxFsr: int := 5000

  /** One accepted sensor step. */
  datatype StepSample = StepSample(timeMs: int, foot: int, fsrPeak: int, contactMs: int, cadence: real)

  /** What the loop does with one line. */
  datatype LineOutcome =
    | Ignored          // empty, or not starting with STEP
    | Malformed        // not exactly six comma-separated fields
    | NotNumeric       // a field that int() or float() rejects
    | InvalidFoot
    | FsrOutOfRange
    | Accepted(sample: StepSample)

  /** The sample six fields denote, if fields 1-4 are integers and field 5 a float. */
  function ParseFields(parts: seq<string>): (r: Wrappers.Option<StepSample>)
    requires |parts| == 6
    ensures r.Some? <==> Numeric.ParseInt(parts[1]).Some? && Numeric.ParseInt(parts[2]).Some?
                         && Numeric.ParseInt(parts[3]).Some? && Numeric.ParseInt(parts[4]).Some?
                         && Numeric.ParseReal(parts[5]).Some?
  {
    match (Numeric.ParseInt(parts[1]), Numeric.ParseInt(parts[2]), Numeric.ParseInt(parts[3]),
           Numeric.ParseInt(parts[4]), Numeric.ParseReal(parts[5]))
    case (Some(t), Some(f), Some(p), Some(c), Some(x)) => Wrappers.Some(StepSample(t, f, p, c, x))
    case _ => Wrappers.None
  }

  /** The checks of the logging loop, in the source's order. */
  function ParseLine(line: string): (r: LineOutcome)
    ensures !StartsWith(line, "STEP") ==> r == Ignored
    ensures r.Accepted? ==> var parts := Split(line, ',');
              |parts| == 6 && ParseFields(parts) == Wrappers.Some(r.sample)
    ensures r.Accepted? ==> r.sample.foot in {1, 2} && MinFsr <= r.sample.fsrPeak <= MaxFsr
    ensures StartsWith(line, "STEP") && |Split(line, ',')| != 6 ==> r == Malformed
  {
    if line == "" || !StartsWith(line, "STEP") then Ignored
    else
      var parts := Split(line, ',');
      if |parts| != 6 then Malformed
      else
        match ParseFields(parts)
        case None => NotNumeric
        case Some(s) =>
          if s.foot != 1 && s.foot != 2 then InvalidFoot
          else if !(MinFsr <= s.fsrPeak <= MaxFsr) then FsrOutOfRange
          else Accepted(s)
  }

  /** The CSV line written for an accepted sample, given how its cadence float renders. */
  function CsvLine(s: StepSample, cadenceText: string): (line: string)
    ensures StartsWith(line, "STEP,") && line[|line| - 1] == '\n'
  {
    var body := Join(CsvFields(s, cadenceText), ',');
    JoinSix(s, cadenceText);
    assert ("STEP" + [','] + body[5..])[..5] == "STEP,";
    body + "\n"
  }

  function CsvFields(s: StepSample, cadenceText: string): seq<string> {
    ["STEP", Numeric.ShowInt(s.timeMs), Numeric.ShowInt(s.foot), Numeric.ShowInt(s.fsrPeak),
     Numeric.ShowInt(s.contactMs), cadenceText]
  }

  lemma JoinSix(s: StepSample, cadenceText: string)
    ensures var f := CsvFields(s, cadenceText);
            Join(f, ',') == f[0] + [','] + (f[1] + [','] + (f[2] + [','] + (f[3] + [','] + (f[4] + [','] + f[5]))))
  {
    var f := CsvFields(s, cadenceText);
    assert f[1..][1..][1..][1..][1..] == [f[5]];
    assert Join(f[4..], ',') == f[4] + [','] + f[5] by { assert f[4..][1..] == [f[5]]; }
    assert Join(f[3..], ',') == f[3] + [','] + Join(f[4..], ',') by { assert f[3..][1..] == f[4..]; }
    assert Join(f[2..], ',') == f[2] + [','] + Join(f[3..], ',') by { assert f[2..][1..] == f[3..]; }
    assert Join(f[1..], ',') == f[1] + [','] + Join(f[2..], ',') by { assert f[1..][1..] == f[2..]; }
  }

  /** A cadence rendered as `whole.frac` (how Python prints a float with a fractional part). */
  predicate DecimalText(whole: string, frac: string) {
    0 < |whole| && Numeric.AllDigits(whole) && 0 < |frac| && Numeric.AllDigits(frac)
  }

  /** The CSV line of an accepted sample reads back, stripped, as the same sample. */
  lemma CsvLineRoundTrip(s: StepSample, whole: string, frac: string)
    requires DecimalText(whole, frac) && s.cadence == Numeric.DecimalValue(whole, frac)
    requires s.foot in {1, 2} && MinFsr <= s.fsrPeak <= MaxFsr
    ensures ParseLine(Strip(CsvLine(s, whole + "." + frac))) == Accepted(s)
  {
    var text := whole + "." + frac;
    var f := CsvFields(s, text);
    CsvSplits(s, whole, frac);
    FieldsRoundTrip(s, whole, frac);
    StartsWithStep(s, text);
    AcceptedLine(Join(f, ','), s);
  }

  /** A line that starts `STEP` and has six fields denoting a valid sample is accepted as that sample. */
  lemma AcceptedLine(line: string, s: StepSample)
    requires StartsWith(line, "STEP") && |Split(line, ',')| == 6
    requires ParseFields(Split(line, ',')) == Wrappers.Some(s)
    requires s.foot in {1, 2} && MinFsr <= s.fsrPeak <= MaxFsr
    ensures ParseLine(line) == Accepted(s)
  {
  }

  lemma StartsWithStep(s: StepSample, cadenceText: string)
    ensures StartsWith(Join(CsvFields(s, cadenceText), ','), "STEP")
  {
    var line := Join(CsvFields(s, cadenceText), ',');
    JoinSix(s, cadenceText);
    assert line[..4] == "STEP";
  }

  lemma FieldsRoundTrip(s: StepSample, whole: string, frac: string)
    requires DecimalText(whole, frac) && s.cadence == Numeric.DecimalValue(whole, frac)
    ensures ParseFields(CsvFields(s, whole + "." + frac)) == Wrappers.Some(s)
  {
    Numeric.ParseShowInt(s.timeMs);
    Numeric.ParseShowInt(s.foot);
    Numeric.ParseShowInt(s.fsrPeak);
    Numeric.ParseShowInt(s.contactMs);
    Numeric.ParseRealDecimal(whole, frac);
  }

  lemma CsvSplits(s: StepSample, whole: string, frac: string)
    requires DecimalText(whole, frac)
    ensures var f := CsvFields(s, whole + "." + frac);
            Strip(CsvLine(s, whole + "." + frac)) == Join(f, ',') && Split(Join(f, ','), ',') == f
  {
    var text := whole + "." + frac;
    var f := CsvFields(s, text);
    FieldsCommaFree(s, whole, frac);
    SplitJoin(f, ',');
    var line := Join(f, ',');
    JoinSix(s, text);
    assert line[0] == 'S';
    assert line[|line| - 1] == frac[|frac| - 1];
    assert Numeric.IsDigit(frac[|frac| - 1]);
    Comms.StripTrailingNewline(line);
  }

  lemma FieldsCommaFree(s: StepSample, whole: string, frac: string)
    requires DecimalText(whole, frac)
    ensures var f := CsvFields(s, whole + "." + frac);
            forall i :: 0 <= i < |f| ==> ',' !in f[i]
  {
    var f := CsvFields(s, whole + "." + frac);
    forall i | 0 <= i < |f|
      ensures ',' !in f[i]
    {
      if i == 0 {
        assert f[0] == "STEP";
      } else if i == 1 {
        Comms.NoCommaInShowInt(s.timeMs);
      } else if i == 2 {
        Comms.NoCommaInShowInt(s.foot);
      } else if i == 3 {
        Comms.NoCommaInShowInt(s.fsrPeak);
      } else if i == 4 {
        Comms.NoCommaInShowInt(s.contactMs);
      } else {
        Comms.NoCommaInDecimal(whole, frac);
      }
    }
  }

  /** The loop's state: the first accepted time and the accepted samples, with their times and CSV lines. */
  datatype Log = Log(t0: Wrappers.Option<int>, times: seq<real>, samples: seq<StepSample>, csv: seq<string>)

  /** Seconds since the first accepted step. */
  function RelativeTime(timeMs: int, t0: int): real {
    (timeMs - t0) as real / 1000.0
  }

  /** What the loop keeps: `t0` is the first sample's time, and each time is relative to it. */
  predicate Consistent(log: Log) {
    |log.times| == |log.samples| == |log.csv|
    && (log.t0.Some? <==> |log.samples| > 0)
    && (log.t0.Some? ==> log.t0.value == log.samples[0].timeMs)
    && (forall i :: 0 <= i < |log.samples| ==> log.times[i] == RelativeTime(log.samples[i].timeMs, log.samples[0].timeMs))
    && (forall i :: 0 <= i < |log.samples| ==> log.samples[i].foot in {1, 2})
  }

  const EmptyLog: Log := Log(Wrappers.None, [], [], [])

  /** One loop iteration. */
  function Step(log: Log, line: string, render: real -> string): (r: Log)
    ensures ParseLine(line).Accepted? ==> r.samples == log.samples + [ParseLine(line).sample]
    ensures !ParseLine(line).Accepted? ==> r == log
  {
    match ParseLine(line)
    case Accepted(s) =>
      var t0 := if log.t0.None? then s.timeMs else log.t0.value;
      Log(Wrappers.Some(t0), log.times + [RelativeTime(s.timeMs, t0)], log.samples + [s],
          log.csv + [CsvLine(s, render(s.cadence))])
    case _ => log
  }

  lemma StepKeepsConsistent(log: Log, line: string, render: real -> string)
    requires Consistent(log)
    ensures Consistent(Step(log, line, render))
  {
    var o := ParseLine(line);
    if o.Accepted? {
      AppendKeepsConsistent(log, o.sample, CsvLine(o.sample, render(o.sample.cadence)));
    }
  }

  /** Appending a sample with a valid foot, timed from the first sample, keeps the log consistent. */
  lemma AppendKeepsConsistent(log: Log, s: StepSample, csvLine: string)
    requires Consistent(log) && s.foot in {1, 2}
    ensures var t0 := if log.t0.None? then s.timeMs else log.t0.value;
            Consistent(Log(Wrappers.Some(t0), log.times + [RelativeTime(s.timeMs, t0)], log.samples + [s], log.csv + [csvLine]))
  {
    var t0 := if log.t0.None? then s.timeMs else log.t0.value;
    var r := Log(Wrappers.Some(t0), log.times + [RelativeTime(s.timeMs, t0)], log.samples + [s], log.csv + [csvLine]);
    var n := |log.samples|;
    assert r.samples[n] == s;
    assert r.samples[0].timeMs == t0;
    forall i | 0 <= i < |r.samples|
      ensures r.times[i] == RelativeTime(r.samples[i].timeMs, r.samples[0].timeMs)
      ensures r.samples[i].foot in {1, 2}
    {
      if i < n {
        assert r.samples[i] == log.samples[i] && r.times[i] == log.times[i];
      }
    }
  }

  /** The whole logging session over the lines read. */
  function Collect(lines: seq<string>, render: real -> string): (r: Log)
    decreases |lines|
  {
    if |lines| == 0 then EmptyLog
    else Step(Collect(lines[..|lines| - 1], render), lines[|lines| - 1], render)
  }

  /** `t0` is the first sample's time, every time is relative to it, and every foot is 1 or 2. */
  lemma {:induction false} CollectConsistent(lines: seq<string>, render: real -> string)
    ensures Consistent(Collect(lines, render))
    decreases |lines|
  {
    if |lines| > 0 {
      CollectConsistent(lines[..|lines| - 1], render);
      StepKeepsConsistent(Collect(lines[..|lines| - 1], render), lines[|lines| - 1], render);
    }
  }

  /** The first accepted line is at time zero. */
  lemma FirstSampleAtZero(lines: seq<string>, render: real -> string)
    requires |Collect(lines, render).samples| > 0
    ensures |Collect(lines, render).times| > 0 && Collect(lines, render).times[0] == 0.0
  {
    CollectConsistent(lines, render);
  }

  /** The accepted samples are exactly the accepted lines, in order. */
  lemma {:induction false} CollectKeepsAccepted(lines: seq<string>, render: real -> string)
    ensures Collect(lines, render).samples == AcceptedSamples(lines)
    decreases |lines|
  {
    if |lines| > 0 {
      CollectKeepsAccepted(lines[..|lines| - 1], render);
    }
  }

  /** An independent reference: the samples of the accepted lines. */
  function AcceptedSamples(lines: seq<string>): seq<StepSample>
    decreases |lines|
  {
    if |lines| == 0 then []
    else
      var rest := AcceptedSamples(lines[..|lines| - 1]);
      match ParseLine(lines[|lines| - 1])
      case Accepted(s) => rest + [s]
      case _ => rest
  }

  /** A point of the plot: relative time and the fields. */
  datatype Point = Point(t: real, foot: int, fsrPeak: int, contactMs: int, cadence: real)

  function Points(log: Log): (ps: seq<Point>)
    requires Consistent(log)
    ensures |ps| == |log.samples|
    ensures forall i :: 0 <= i < |ps| ==> ps[i].foot in {1, 2}
  {
    seq(|log.samples|, i requires 0 <= i < |log.samples| =>
      var s := log.samples[i];
      Point(log.times[i], s.foot, s.fsrPeak, s.contactMs, s.cadence))
  }

  predicate SortedByTime(ps: seq<Point>) {
    forall i, j :: 0 <= i < j < |ps| ==> ps[i].t <= ps[j].t
  }

  /** Put `p` before the first point that is not earlier, keeping the order of equal times stable. */
  function Insert(p: Point, ps: seq<Point>): (r: seq<Point>)
    ensures multiset(r) == multiset(ps) + multiset{p}
    ensures |r| == |ps| + 1
  {
    if |ps| == 0 || p.t <= ps[0].t then [p] + ps
    else
      assert ps == [ps[0]] + ps[1..];
      [ps[0]] + Insert(p, ps[1..])
  }

  /** Every point of `Insert(p, ps)` is `p` or a point of `ps`. */
  lemma InsertFrom(p: Point, ps: seq<Point>, k: nat)
    requires k < |Insert(p, ps)|
    ensures Insert(p, ps)[k] == p || Insert(p, ps)[k] in ps
  {
    assert Insert(p, ps)[k] in multiset(Insert(p, ps));
  }

  lemma {:induction false} InsertSorted(p: Point, ps: seq<Point>)
    requires SortedByTime(ps)
    ensures SortedByTime(Insert(p, ps))
  {
    if |ps| > 0 && p.t > ps[0].t {
      InsertSorted(p, ps[1..]);
      var rest := Insert(p, ps[1..]);
      forall k | 0 <= k < |rest| ensures ps[0].t <= rest[k].t {
        InsertFrom(p, ps[1..], k);
      }
      assert Insert(p, ps) == [ps[0]] + rest;
    }
  }

  /** `sorted(..., key=time)`: a stable sort by time. */
  function SortByTime(ps: seq<Point>): (r: seq<Point>)
    ensures SortedByTime(r)
    ensures multiset(r) == multiset(ps)
    ensures |r| == |ps|
  {
    if |ps| == 0 then []
    else
      assert ps == [ps[0]] + ps[1..];
      InsertSorted(ps[0], SortByTime(ps[1..]));
      Insert(ps[0], SortByTime(ps[1..]))
  }

  /** The points of one foot, in order. */
  function OfFoot(ps: seq<Point>, foot: int): (r: seq<Point>)
    ensures forall i :: 0 <= i < |r| ==> r[i].foot == foot
    ensures |r| <= |ps|
  {
    if |ps| == 0 then []
    else (if ps[0].foot == foot then [ps[0]] else []) + OfFoot(ps[1..], foot)
  }

  /** With every foot id 1 or 2, the right (1) and left (2) series partition the points. */
  lemma {:induction false} FeetPartition(ps: seq<Point>)
    requires forall i :: 0 <= i < |ps| ==> ps[i].foot in {1, 2}
    ensures multiset(OfFoot(ps, 1)) + multiset(OfFoot(ps, 2)) == multiset(ps)
  {
    if |ps| > 0 {
      FeetPartition(ps[1..]);
      assert ps == [ps[0]] + ps[1..];
    }
  }

  /** Sorting keeps every foot id, so the split after sorting is still a partition. */
  lemma SortedSplitPartitions(log: Log)
    requires Consistent(log)
    ensures var sorted := SortByTime(Points(log));
            multiset(OfFoot(sorted, 1)) + multiset(OfFoot(sorted, 2)) == multiset(Points(log))
            && SortedByTime(OfFoot(sorted, 1)) && SortedByTime(OfFoot(sorted, 2))
  {
    var ps := Points(log);
    var sorted := SortByTime(ps);
    forall i | 0 <= i < |sorted| ensures sorted[i].foot in {1, 2} {
      assert sorted[i] in multiset(ps);
      var j :| 0 <= j < |ps| && ps[j] == sorted[i];
    }
    FeetPartition(sorted);
    FootKeepsOrder(sorted, 1);
    FootKeepsOrder(sorted, 2);
  }

  /** Filtering keeps a sorted series sorted. */
  lemma {:induction false} FootKeepsOrder(ps: seq<Point>, foot: int)
    requires SortedByTime(ps)
    ensures SortedByTime(OfFoot(ps, foot))
    ensures forall i :: 0 <= i < |OfFoot(ps, foot)| ==> OfFoot(ps, foot)[i] in ps
  {
    if |ps| > 0 {
      assert SortedByTime(ps[1..]);
      FootKeepsOrder(ps[1..], foot);
      var rest := OfFoot(ps[1..], foot);
      HeadNotLater(ps, rest);
      if ps[0].foot == foot {
        ConsSorted(ps[0], rest);
        assert OfFoot(ps, foot) == [ps[0]] + rest;
      } else {
        assert OfFoot(ps, foot) == rest;
      }
    }
  }

  /** The head of a sorted series is no later than any point drawn from its tail. */
  lemma HeadNotLater(ps: seq<Point>, rest: seq<Point>)
    requires |ps| > 0 && SortedByTime(ps)
    requires forall k :: 0 <= k < |rest| ==> rest[k] in ps[1..]
    ensures forall k :: 0 <= k < |rest| ==> ps[0].t <= rest[k].t && rest[k] in ps
  {
    forall k | 0 <= k < |rest| ensures ps[0].t <= rest[k].t && rest[k] in ps {
      var j :| 0 <= j < |ps[1..]| && ps[1..][j] == rest[k];
      assert ps[j + 1] == rest[k];
    }
  }

  /** A point no later than every point of a sorted series can go in front of it. */
  lemma ConsSorted(p: Point, rest: seq<Point>)
    requires SortedByTime(rest)
    requires forall k :: 0 <= k < |rest| ==> p.t <= rest[k].t
    ensures SortedByTime([p] + rest)
  {
    var s := [p] + rest;
    forall i, j | 0 <= i < j < |s| ensures s[i].t <= s[j].t {
      assert s[j] == rest[j - 1];
      if i > 0 {
        assert s[i] == rest[i - 1];
      }
    }
  }
}
