/**
 * The data side of the nearest-neighbour tempo predictor's training script:
 * the walking-cadence series is filtered to positive values (a synthetic
 * series stands in when no session was logged), cut into sliding windows
 * whose target is the next value, and the lookback window is chosen among
 * 2..10 by the lowest error. Fitting the regressor and computing its error
 * are outside the model: the error of each window is a function parameter.
 */
module TrainKnn {
  import opened Wrappers

  /** Smallest and largest lookback window the search tries. */
  const FirstWindow: nat := 2
  const LastWindow: nat := 10
  /** A window with fewer samples than this is skipped. */
  const MinSamples: nat := 10
  /** The window kept when no window has enough samples. */
  const DefaultWindow: nat := 3
  /** Length of the synthetic series used when no session data exists. */
  const DummyLength: nat := 50

  /** How many samples a window of `w` cuts from `n` values: `range(n - w)` is empty when `n <= w`. */
  function SampleCount(n: nat, w: nat): nat {
    if n > w then n - w else 0
  }

  /** Sample `i` looks at the `w` values from `i` and predicts the one after them. */
  predicate Windowed(data: seq<real>, w: nat, xs: seq<seq<real>>, ys: seq<real>) {
    && |xs| == |ys| == SampleCount(|data|, w)
    && forall i :: 0 <= i < |xs| ==> i + w < |data| && xs[i] == data[i..i + w] && ys[i] == data[i + w]
  }

  /** Cuts the series into (window, next value) samples. */
  method PrepareDataset(data: seq<real>, w: nat) returns (xs: seq<seq<real>>, ys: seq<real>)
    ensures |xs| == |ys| == SampleCount(|data|, w)
    ensures forall i :: 0 <= i < |xs| ==> xs[i] == data[i..i + w] && ys[i] == data[i + w]
  {
    xs, ys := [], [];
    var i := 0;
    while i < SampleCount(|data|, w)
      invariant i <= SampleCount(|data|, w)
      invariant |xs| == |ys| == i
      invariant forall k :: 0 <= k < i ==> k + w < |data| && xs[k] == data[k..k + w] && ys[k] == data[k + w]
    {
      xs := xs + [data[i..i + w]];
      ys := ys + [data[i + w]];
      i := i + 1;
    }
  }

  /** Consecutive windows overlap: each window is the previous one shifted by its target. */
  lemma WindowsSlide(data: seq<real>, w: nat, xs: seq<seq<real>>, ys: seq<real>, i: nat)
    requires Windowed(data, w, xs, ys)
    requires w >= 1 && i + 1 < |xs|
    ensures xs[i + 1] == xs[i][1..] + [ys[i]]
  {
    assert xs[i] == data[i..i + w];
    assert xs[i + 1] == data[i + 1..i + 1 + w];
    assert ys[i] == data[i + w];
    assert data[i + 1..i + 1 + w] == data[i + 1..i + w] + [data[i + w]];
  }

  /** The samples lose nothing: the first window followed by every target is the whole series. */
  lemma {:induction false} DatasetRebuildsSeries(data: seq<real>, w: nat, xs: seq<seq<real>>, ys: seq<real>)
    requires Windowed(data, w, xs, ys)
    requires |data| > w
    ensures xs[0] + ys == data
  {
    assert xs[0] == data[..w];
    assert |ys| == |data| - w;
    forall k | 0 <= k < |ys|
      ensures ys[k] == data[w..][k]
    {
      assert ys[k] == data[k + w];
    }
    assert ys == data[w..];
    assert data[..w] + data[w..] == data;
  }

  // ---------------------------------------------------------------------------
  // The training series

  /** `df[df['walking_bpm'] > 0]`: the positive values, in order. */
  function KeepPositive(data: seq<real>): (r: seq<real>)
    ensures |r| <= |data|
    ensures forall i :: 0 <= i < |r| ==> r[i] > 0.0
    ensures forall v :: v in r <==> v in data && v > 0.0
  {
    if data == [] then []
    else if data[0] > 0.0 then [data[0]] + KeepPositive(data[1..])
    else KeepPositive(data[1..])
  }

  /** Filtering commutes with concatenation, so the relative order of the kept values is the series' order. */
  lemma {:induction false} KeepPositiveAppend(a: seq<real>, b: seq<real>)
    ensures KeepPositive(a + b) == KeepPositive(a) + KeepPositive(b)
    decreases |a|
  {
    if a == [] {
      assert a + b == b;
    } else {
      assert (a + b)[1..] == a[1..] + b;
      KeepPositiveAppend(a[1..], b);
    }
  }

  /** Filtering twice is filtering once. */
  lemma {:induction false} KeepPositiveIdempotent(data: seq<real>)
    ensures KeepPositive(KeepPositive(data)) == KeepPositive(data)
    decreases |data|
  {
    if data != [] {
      KeepPositiveIdempotent(data[1..]);
      if data[0] > 0.0 {
        var rest := KeepPositive(data[1..]);
        assert ([data[0]] + rest)[1..] == rest;
      }
    }
  }

  /** A series that is already positive passes unchanged. */
  lemma {:induction false} PositiveSeriesKept(data: seq<real>)
    requires forall i :: 0 <= i < |data| ==> data[i] > 0.0
    ensures KeepPositive(data) == data
    decreases |data|
  {
    if data != [] {
      PositiveSeriesKept(data[1..]);
      assert [data[0]] + data[1..] == data;
    }
  }

  /** The synthetic series `100 + (i % 5)` for `i < 50`. */
  function Dummy(): (r: seq<real>)
    ensures |r| == DummyLength
    ensures forall i :: 0 <= i < |r| ==> 100.0 <= r[i] <= 104.0
  {
    seq(DummyLength, i requires 0 <= i < DummyLength => (100 + i % 5) as real)
  }

  /** The series trained on: the logged cadence, or the synthetic one when nothing was logged, keeping positive values. */
  function TrainingSeries(logged: seq<real>): (r: seq<real>)
    ensures logged != [] ==> r == KeepPositive(logged)
    ensures logged == [] ==> |r| == DummyLength
    ensures forall i :: 0 <= i < |r| ==> r[i] > 0.0
  {
    var series := if logged == [] then Dummy() else logged;
    PositiveSeriesKept(Dummy());
    KeepPositive(series)
  }

  // ---------------------------------------------------------------------------
  // Window search

  /** The search evaluates window `w` only when it is in range and yields enough samples. */
  predicate Qualifies(data: seq<real>, w: nat) {
    FirstWindow <= w <= LastWindow && SampleCount(|data|, w) >= MinSamples
  }

  /** Larger windows cut fewer samples, so the evaluated windows are the range's prefix up to `n - 10`. */
  lemma QualifyingWindowsArePrefix(data: seq<real>, v: nat, w: nat)
    requires FirstWindow <= v <= w
    ensures Qualifies(data, w) ==> Qualifies(data, v)
    ensures Qualifies(data, w) <==> w <= LastWindow && |data| >= w + MinSamples
  {
  }

  /** Every window of the search qualifies on the synthetic series. */
  lemma EmptyLogsEvaluateEveryWindow(w: nat)
    requires FirstWindow <= w <= LastWindow
    ensures Qualifies(TrainingSeries([]), w)
  {
    assert |TrainingSeries([])| == DummyLength;
  }

  /**
   * What the search returns: the default when no window qualifies, otherwise a
   * qualifying window of least error that no earlier qualifying window ties.
   */
  ghost predicate IsBestWindow(data: seq<real>, mae: nat -> real, best: nat) {
    && ((forall w: nat :: !Qualifies(data, w)) ==> best == DefaultWindow)
    && ((exists w: nat :: Qualifies(data, w)) ==>
          && Qualifies(data, best)
          && (forall w: nat :: Qualifies(data, w) ==> mae(best) <= mae(w))
          && (forall w: nat :: Qualifies(data, w) && w < best ==> mae(best) < mae(w)))
  }

  /** The description above pins the answer down: two windows meeting it are the same window. */
  lemma BestWindowUnique(data: seq<real>, mae: nat -> real, a: nat, b: nat)
    requires IsBestWindow(data, mae, a) && IsBestWindow(data, mae, b)
    ensures a == b
  {
    if exists w: nat :: Qualifies(data, w) {
      assert Qualifies(data, a) && Qualifies(data, b);
    }
  }

  /**
   * Tries windows 2..10 in order, skipping those with fewer than 10 samples,
   * and keeps a window only when its error is strictly below the best so far
   * (which starts at infinity, modelled as `None`).
   */
  method SelectBestWindow(data: seq<real>, mae: nat -> real) returns (best: nat)
    ensures (forall w: nat :: !Qualifies(data, w)) ==> best == DefaultWindow
    ensures (exists w: nat :: Qualifies(data, w)) ==> Qualifies(data, best)
    ensures forall w: nat :: Qualifies(data, w) ==> mae(best) <= mae(w)
    ensures forall w: nat :: Qualifies(data, w) && w < best ==> mae(best) < mae(w)
    ensures IsBestWindow(data, mae, best)
  {
    best := DefaultWindow;
    var bestMae: Option<real> := None;
    var window := FirstWindow;
    while window <= LastWindow
      invariant FirstWindow <= window <= LastWindow + 1
      invariant bestMae.None? ==> best == DefaultWindow
      invariant bestMae.None? ==> forall w: nat :: w < window ==> !Qualifies(data, w)
      invariant bestMae.Some? ==> Qualifies(data, best) && best < window && bestMae.value == mae(best)
      invariant bestMae.Some? ==> forall w: nat :: w < window && Qualifies(data, w) ==> mae(best) <= mae(w)
      invariant bestMae.Some? ==> forall w: nat :: w < best && Qualifies(data, w) ==> mae(best) < mae(w)
    {
      var xs, ys := PrepareDataset(data, window);
      if |xs| >= MinSamples {
        var err := mae(window);
        if bestMae.None? || err < bestMae.value {
          bestMae := Some(err);
          best := window;
        }
      }
      window := window + 1;
    }
  }
}
