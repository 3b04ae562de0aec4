/**
 * The offline cadence calculator: each step's timestamp yields the interval
 * since the previous step, the instant BPM `60 / interval`, and a smoothed BPM
 * `60 / mean` over a bounded window of the most recent intervals. The
 * timestamp, read from the clock in the source, is a parameter.
 */
module Cadence {
  import opened Wrappers
  import Stats

  /** The window holds at most `size` intervals, oldest first. */
  datatype Calculator = Calculator(size: nat, lastStepTime: Option<real>, intervals: seq<real>)

  /** An instant and a smoothed BPM. */
  datatype Reading = Reading(instant: real, smoothed: real)

  /** What construction establishes and every step keeps. */
  predicate Valid(c: Calculator) {
    c.size >= 1 && |c.intervals| <= c.size && AllPositive(c.intervals)
  }

  /** The constructor; the default window size is 3. */
  function New(size: nat): (c: Calculator)
    requires size >= 1
    ensures Valid(c) && c.lastStepTime.None? && c.intervals == []
  {
    Calculator(size, None, [])
  }

  /** All readings positive. */
  predicate AllPositive(s: seq<real>) {
    forall i :: 0 <= i < |s| ==> s[i] > 0.0
  }

  /** The window after appending `x`: `deque(maxlen=size).append(x)`. */
  function Push(w: seq<real>, x: real, size: nat): (r: seq<real>)
    requires size >= 1 && x > 0.0 && AllPositive(w)
    ensures 0 < |r| <= size && AllPositive(r)
    ensures r == Stats.LastN(w + [x], size)
  {
    var r := Stats.LastN(w + [x], size);
    assert forall i :: 0 <= i < |r| ==> r[i] == (w + [x])[|w| + 1 - |r| + i];
    r
  }

  /** `60 / mean(window)`. */
  function Smoothed(w: seq<real>): real
    requires |w| > 0 && AllPositive(w)
  {
    Stats.SumPositive(w);
    60.0 / Stats.Mean(w)
  }

  /**
   * One step at time `t`. The first step only records its time; a later one
   * whose interval is not positive is rejected but still moves the reference
   * time; otherwise the interval enters the window, evicting the oldest.
   */
  function AddStep(c: Calculator, t: real): (r: (Option<Reading>, Calculator))
    requires Valid(c)
    ensures Valid(r.1) && r.1.size == c.size
    ensures r.1.lastStepTime == Some(t)
    ensures c.lastStepTime.None? ==> r.0.None? && r.1.intervals == c.intervals
    ensures c.lastStepTime.Some? && t - c.lastStepTime.value <= 0.0 ==> r.0.None? && r.1.intervals == c.intervals
    ensures c.lastStepTime.Some? && t - c.lastStepTime.value > 0.0 ==>
              && r.1.intervals == Stats.LastN(c.intervals + [t - c.lastStepTime.value], c.size)
              && r.0 == Some(Reading(60.0 / (t - c.lastStepTime.value), Smoothed(r.1.intervals)))
  {
    if c.lastStepTime.None? then (None, c.(lastStepTime := Some(t)))
    else
      var interval := t - c.lastStepTime.value;
      if interval <= 0.0 then (None, c.(lastStepTime := Some(t)))
      else
        var window := Push(c.intervals, interval, c.size);
        (Some(Reading(60.0 / interval, Smoothed(window))), Calculator(c.size, Some(t), window))
  }

  /** The calculator after steps at each of `times` in turn. */
  function Feed(c: Calculator, times: seq<real>): (r: Calculator)
    requires Valid(c)
    ensures Valid(r) && r.size == c.size
    decreases |times|
  {
    if |times| == 0 then c else Feed(AddStep(c, times[0]).1, times[1..])
  }

  /** The interval a step at `t` contributes after a step at `prev`: none, or one positive one. */
  function Gap(prev: Option<real>, t: real): seq<real> {
    if prev.Some? && t - prev.value > 0.0 then [t - prev.value] else []
  }

  /** The positive intervals between consecutive steps, the first measured from `prev`. */
  function Gaps(prev: Option<real>, times: seq<real>): seq<real>
    decreases |times|
  {
    if |times| == 0 then [] else Gap(prev, times[0]) + Gaps(Some(times[0]), times[1..])
  }

  /** One step puts its own interval, if any, into the window. */
  lemma AddStepGap(c: Calculator, t: real)
    requires Valid(c)
    ensures AddStep(c, t).1.intervals == Stats.LastN(c.intervals + Gap(c.lastStepTime, t), c.size)
  {
    if Gap(c.lastStepTime, t) == [] {
      assert c.intervals + [] == c.intervals;
    }
  }

  /**
   * The window is exactly the last `size` positive intervals of the whole
   * history: rejected intervals never enter it, and the oldest leave first.
   */
  lemma {:induction false} FeedWindow(c: Calculator, times: seq<real>)
    requires Valid(c)
    ensures Feed(c, times).intervals == Stats.LastN(c.intervals + Gaps(c.lastStepTime, times), c.size)
    decreases |times|
  {
    if |times| == 0 {
      assert c.intervals + [] == c.intervals;
    } else {
      var c1 := AddStep(c, times[0]).1;
      var rest := Gaps(Some(times[0]), times[1..]);
      FeedWindow(c1, times[1..]);
      WindowStep(c, times[0], rest);
    }
  }

  /** The window after one step, followed by later intervals, keeps the same last `size` intervals as the history. */
  lemma WindowStep(c: Calculator, t: real, rest: seq<real>)
    requires Valid(c)
    ensures Stats.LastN(AddStep(c, t).1.intervals + rest, c.size)
            == Stats.LastN(c.intervals + (Gap(c.lastStepTime, t) + rest), c.size)
  {
    var g := Gap(c.lastStepTime, t);
    AddStepGap(c, t);
    Stats.LastNConcat(c.intervals + g, rest, c.size);
    assert c.intervals + g + rest == c.intervals + (g + rest);
  }

  /**
   * The smoothed BPM lies between the BPMs of the longest and the shortest
   * interval in the window.
   */
  lemma SmoothedWithinWindow(c: Calculator, t: real)
    requires Valid(c)
    requires AddStep(c, t).0.Some?
    ensures var r := AddStep(c, t);
            60.0 / Stats.MaxOf(r.1.intervals) <= r.0.value.smoothed <= 60.0 / Stats.MinOf(r.1.intervals)
  {
    var w := AddStep(c, t).1.intervals;
    Stats.MeanBounds(w);
    assert Stats.MinOf(w) > 0.0;
    Stats.ReciprocalAntitone(60.0, Stats.Mean(w), Stats.MaxOf(w));
    Stats.ReciprocalAntitone(60.0, Stats.MinOf(w), Stats.Mean(w));
  }

  /** A steady cadence reads the same instant and smoothed BPM. */
  lemma SteadyCadence(c: Calculator, t: real, d: real)
    requires Valid(c) && d > 0.0 && c.lastStepTime == Some(t - d)
    requires forall i :: 0 <= i < |c.intervals| ==> c.intervals[i] == d
    ensures AddStep(c, t).0 == Some(Reading(60.0 / d, 60.0 / d))
  {
    var w := AddStep(c, t).1.intervals;
    assert w == Stats.LastN(c.intervals + [d], c.size);
    assert forall i :: 0 <= i < |w| ==> w[i] == d by {
      forall i | 0 <= i < |w| ensures w[i] == d {
        assert w[i] == (c.intervals + [d])[|c.intervals| + 1 - |w| + i];
      }
    }
    Stats.MeanWithin(w, d, d);
  }
}
