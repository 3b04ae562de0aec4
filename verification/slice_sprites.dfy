/**
 * The sprite-sheet slicer's geometry: the columns that hold content are cut
 * into maximal runs, runs no wider than 50 columns are dropped as noise, and
 * each remaining run is cropped with 5 pixels of padding, clamped to the
 * image, between the padded first and last rows that hold content. The
 * content mask itself (alpha or near-white tests on pixels) is an input.
 */
module SliceSprites {

  /** Runs at most this wide are noise. */
  const MinFrameWidth: int := 50
  /** Padding added around each crop. */
  const Pad: int := 5

  /** A half-open column range `[lo, hi)`. */
  datatype Span = Span(lo: int, hi: int)

  /** A rectangular content mask: `mask[y][x]` for `H` rows of `W` columns. */
  predicate Rectangular(mask: seq<seq<bool>>, w: nat) {
    forall y :: 0 <= y < |mask| ==> |mask[y]| == w
  }

  /** `np.any(mask, axis=0)`: which columns hold content. */
  function ColumnsWithContent(mask: seq<seq<bool>>, w: nat): (cols: seq<bool>)
    requires Rectangular(mask, w)
    ensures |cols| == w
    ensures forall x :: 0 <= x < w ==> (cols[x] <==> exists y :: 0 <= y < |mask| && mask[y][x])
  {
    seq(w, x requires 0 <= x < w => exists y :: 0 <= y < |mask| && mask[y][x])
  }

  /** `np.any(mask, axis=1)`: which rows hold content. */
  function RowsWithContent(mask: seq<seq<bool>>): (rows: seq<bool>)
    ensures |rows| == |mask|
    ensures forall y :: 0 <= y < |mask| ==> (rows[y] <==> exists x :: 0 <= x < |mask[y]| && mask[y][x])
  {
    seq(|mask|, y requires 0 <= y < |mask| => exists x :: 0 <= x < |mask[y]| && mask[y][x])
  }

  // ---------------------------------------------------------------------------
  // Column runs
  // ---------------------------------------------------------------------------

  /** Every column in `[lo, hi)` holds content. */
  predicate AllContent(cols: seq<bool>, lo: int, hi: int)
    requires 0 <= lo <= hi <= |cols|
  {
    forall x :: lo <= x < hi ==> cols[x]
  }

  /** `[lo, hi)` is a maximal non-empty run of content columns. */
  predicate MaximalRun(cols: seq<bool>, s: Span) {
    && 0 <= s.lo < s.hi <= |cols|
    && AllContent(cols, s.lo, s.hi)
    && (s.lo == 0 || !cols[s.lo - 1])
    && (s.hi == |cols| || !cols[s.hi])
  }

  /** Each span ends before any later one begins. */
  predicate Ordered(spans: seq<Span>) {
    forall i, j :: 0 <= i < j < |spans| ==> spans[i].hi < spans[j].lo
  }

  /** Column `x` lies in one of the spans. */
  predicate Covered(spans: seq<Span>, x: int) {
    exists i :: 0 <= i < |spans| && spans[i].lo <= x < spans[i].hi
  }

  /** What the scan knows after looking at the first `x` columns. */
  predicate Scanned(cols: seq<bool>, x: int, start: int, frames: seq<Span>) {
    && 0 <= x <= |cols|
    && -1 <= start < x
    && (start == -1 ==> x == 0 || !cols[x - 1])
    && (start != -1 ==> AllContent(cols, start, x) && (start == 0 || !cols[start - 1]))
    && (forall i :: 0 <= i < |frames| ==> MaximalRun(cols, frames[i]) && frames[i].hi < x)
    && Ordered(frames)
    && (start != -1 ==> forall i :: 0 <= i < |frames| ==> frames[i].hi < start)
    && (forall y :: 0 <= y < x && cols[y] ==> Covered(frames, y) || (start != -1 && start <= y))
  }

  /** A content column opens a run if none is open. */
  lemma ScanContent(cols: seq<bool>, x: int, start: int, frames: seq<Span>)
    requires Scanned(cols, x, start, frames) && x < |cols| && cols[x]
    ensures Scanned(cols, x + 1, if start == -1 then x else start, frames)
  {
  }

  /** A column without content closes the open run, if any. */
  lemma ScanGap(cols: seq<bool>, x: int, start: int, frames: seq<Span>)
    requires Scanned(cols, x, start, frames) && x < |cols| && !cols[x]
    ensures Scanned(cols, x + 1, -1, if start != -1 then frames + [Span(start, x)] else frames)
  {
    if start != -1 {
      var f := Span(start, x);
      var all := frames + [f];
      assert MaximalRun(cols, f);
      forall i | 0 <= i < |all| ensures MaximalRun(cols, all[i]) && all[i].hi < x + 1 {
        if i < |frames| { assert all[i] == frames[i]; }
      }
      forall i, j | 0 <= i < j < |all| ensures all[i].hi < all[j].lo {
        assert all[i] == frames[i];
        if j < |frames| { assert all[j] == frames[j]; }
      }
      forall y | 0 <= y < x + 1 && cols[y] ensures Covered(all, y) {
        CoverAppend(frames, f, y);
      }
    }
  }

  /** At the right edge the open run, if any, is closed and the runs are complete. */
  lemma ScanEnd(cols: seq<bool>, start: int, frames: seq<Span>)
    requires Scanned(cols, |cols|, start, frames)
    ensures var all := if start != -1 then frames + [Span(start, |cols|)] else frames;
      && (forall i :: 0 <= i < |all| ==> MaximalRun(cols, all[i]))
      && Ordered(all)
      && (forall x :: 0 <= x < |cols| && cols[x] ==> Covered(all, x))
  {
    if start != -1 {
      forall y | 0 <= y < |cols| ensures Covered(frames + [Span(start, |cols|)], y) <==> Covered(frames, y) || start <= y {
        CoverAppend(frames, Span(start, |cols|), y);
      }
    }
  }

  /**
   * The scan over the columns: a run opens at a content column while none is
   * open, and closes at the first column without content or at the right edge.
   */
  method ColumnRuns(cols: seq<bool>) returns (frames: seq<Span>)
    ensures forall i :: 0 <= i < |frames| ==> MaximalRun(cols, frames[i])
    ensures Ordered(frames)
    ensures forall x :: 0 <= x < |cols| && cols[x] ==> Covered(frames, x)
  {
    var w := |cols|;
    frames := [];
    var start := -1;
    var x := 0;
    while x < w
      invariant Scanned(cols, x, start, frames)
    {
      if cols[x] {
        ScanContent(cols, x, start, frames);
        if start == -1 {
          start := x;
        }
      } else {
        ScanGap(cols, x, start, frames);
        if start != -1 {
          frames := frames + [Span(start, x)];
          start := -1;
        }
      }
      x := x + 1;
    }
    ScanEnd(cols, start, frames);
    if start != -1 {
      frames := frames + [Span(start, w)];
    }
  }

  /** A column is covered after appending a span iff it was covered before or lies in the span. */
  lemma CoverAppend(frames: seq<Span>, f: Span, y: int)
    ensures Covered(frames + [f], y) <==> Covered(frames, y) || f.lo <= y < f.hi
  {
    var all := frames + [f];
    if Covered(frames, y) {
      var i :| 0 <= i < |frames| && frames[i].lo <= y < frames[i].hi;
      assert all[i] == frames[i];
    } else if f.lo <= y < f.hi {
      assert all[|frames|] == f;
    }
    if Covered(all, y) {
      var i :| 0 <= i < |all| && all[i].lo <= y < all[i].hi;
      if i < |frames| { assert all[i] == frames[i]; }
    }
  }

  /** The runs wider than the noise threshold, in order. */
  function WideFrames(frames: seq<Span>): (r: seq<Span>)
    ensures |r| <= |frames|
    ensures forall s :: s in r <==> s in frames && s.hi - s.lo > MinFrameWidth
    decreases |frames|
  {
    if |frames| == 0 then []
    else
      var rest := WideFrames(frames[1..]);
      assert frames == [frames[0]] + frames[1..];
      if frames[0].hi - frames[0].lo > MinFrameWidth then [frames[0]] + rest else rest
  }

  /** The first span of an ordered list ends before every kept later span begins. */
  lemma HeadBeforeWide(frames: seq<Span>)
    requires Ordered(frames) && |frames| > 0
    ensures forall k :: 0 <= k < |WideFrames(frames[1..])| ==> frames[0].hi < WideFrames(frames[1..])[k].lo
  {
    var rest := WideFrames(frames[1..]);
    forall k | 0 <= k < |rest| ensures frames[0].hi < rest[k].lo {
      assert rest[k] in frames[1..];
      var j :| 0 <= j < |frames[1..]| && frames[1..][j] == rest[k];
      assert frames[j + 1] == rest[k];
    }
  }

  /** A span that ends before an ordered list begins can go in front of it. */
  lemma ConsOrdered(f: Span, rest: seq<Span>)
    requires Ordered(rest)
    requires forall k :: 0 <= k < |rest| ==> f.hi < rest[k].lo
    ensures Ordered([f] + rest)
  {
    var all := [f] + rest;
    forall i, j | 0 <= i < j < |all| ensures all[i].hi < all[j].lo {
      if i > 0 { assert all[i] == rest[i - 1]; }
      assert all[j] == rest[j - 1];
    }
  }

  /** Keeping some of an ordered list of spans keeps it ordered. */
  lemma {:induction false} WideFramesOrdered(frames: seq<Span>)
    requires Ordered(frames)
    ensures Ordered(WideFrames(frames))
    decreases |frames|
  {
    if |frames| > 0 {
      assert Ordered(frames[1..]);
      WideFramesOrdered(frames[1..]);
      HeadBeforeWide(frames);
      ConsOrdered(frames[0], WideFrames(frames[1..]));
    }
  }

  // ---------------------------------------------------------------------------
  // Crop bounds
  // ---------------------------------------------------------------------------

  /** Index of the first content row. */
  function FirstTrue(rows: seq<bool>): (k: nat)
    requires true in rows
    ensures k < |rows| && rows[k] && forall y :: 0 <= y < k ==> !rows[y]
  {
    if rows[0] then 0 else 1 + FirstTrue(rows[1..])
  }

  /** Index of the last content row. */
  function LastTrue(rows: seq<bool>): (k: nat)
    requires true in rows
    ensures k < |rows| && rows[k] && forall y :: k < y < |rows| ==> !rows[y]
  {
    if rows[|rows| - 1] then |rows| - 1
    else
      assert true in rows[..|rows| - 1];
      LastTrue(rows[..|rows| - 1])
  }

  /** The padded rows `[lo, hi)` every crop takes: from the first to past the last content row. */
  function RowBounds(rows: seq<bool>): (b: Span)
    ensures 0 <= b.lo <= b.hi <= |rows|
    ensures forall y :: 0 <= y < |rows| && rows[y] ==> b.lo <= y < b.hi
    ensures true !in rows ==> b == Span(0, |rows|)
    ensures true in rows ==> b.lo == Max(0, FirstTrue(rows) - Pad) && b.hi == Min(|rows|, LastTrue(rows) + Pad)
  {
    var h := |rows|;
    var found := if true in rows then Span(FirstTrue(rows), LastTrue(rows)) else Span(0, h);
    Span(Max(0, found.lo - Pad), Min(h, found.hi + Pad))
  }

  function Max(a: int, b: int): int { if a >= b then a else b }
  function Min(a: int, b: int): int { if a <= b then a else b }

  /** A run widened by the padding on both sides, clamped to the image. */
  function PadColumns(s: Span, w: nat): (p: Span)
    requires 0 <= s.lo <= s.hi <= w
    ensures 0 <= p.lo <= s.lo && s.hi <= p.hi <= w
    ensures p.lo == 0 || p.lo == s.lo - Pad
    ensures s.lo >= Pad ==> p.lo == s.lo - Pad
    ensures p.hi == w || p.hi == s.hi + Pad
  {
    Span(Max(0, s.lo - Pad), Min(w, s.hi + Pad))
  }

  /** Two maximal runs that share a column are the same run. */
  lemma MaximalRunsShareNothing(cols: seq<bool>, s: Span, t: Span, x: int)
    requires MaximalRun(cols, s) && MaximalRun(cols, t)
    requires s.lo <= x < s.hi && t.lo <= x < t.hi
    ensures s == t
  {
  }

  /** One saved sprite: its row range and column range. */
  datatype Crop = Crop(rows: Span, cols: Span)

  /** A maximal run wider than the noise threshold. */
  predicate WideRun(cols: seq<bool>, s: Span) {
    MaximalRun(cols, s) && s.hi - s.lo > MinFrameWidth
  }

  /** The wide runs among a complete list of maximal runs are exactly the wide maximal runs. */
  lemma WideFramesAreWideRuns(cols: seq<bool>, runs: seq<Span>)
    requires forall i :: 0 <= i < |runs| ==> MaximalRun(cols, runs[i])
    requires forall x :: 0 <= x < |cols| && cols[x] ==> Covered(runs, x)
    ensures forall s :: s in WideFrames(runs) <==> WideRun(cols, s)
    ensures forall i :: 0 <= i < |WideFrames(runs)| ==> WideRun(cols, WideFrames(runs)[i])
    ensures forall i :: 0 <= i < |WideFrames(runs)| ==> 0 <= WideFrames(runs)[i].lo <= WideFrames(runs)[i].hi <= |cols|
  {
    var frames := WideFrames(runs);
    forall i | 0 <= i < |frames| ensures WideRun(cols, frames[i]) {
      assert frames[i] in runs;
    }
    forall s | WideRun(cols, s) ensures s in WideFrames(runs) {
      assert cols[s.lo];
      var j :| 0 <= j < |runs| && runs[j].lo <= s.lo < runs[j].hi;
      MaximalRunsShareNothing(cols, s, runs[j], s.lo);
    }
  }

  /** One crop per frame: the frame padded, between the shared row bounds. */
  function CropsOf(frames: seq<Span>, rows: Span, w: nat): (crops: seq<Crop>)
    requires forall i :: 0 <= i < |frames| ==> 0 <= frames[i].lo <= frames[i].hi <= w
    ensures |crops| == |frames|
    ensures forall i :: 0 <= i < |frames| ==> crops[i] == Crop(rows, PadColumns(frames[i], w))
  {
    seq(|frames|, i requires 0 <= i < |frames| => Crop(rows, PadColumns(frames[i], w)))
  }

  /**
   * Padding keeps ordered frames in order: each crop starts no later than the
   * next, and strictly earlier when every frame is wider than the padding.
   */
  lemma CropsOrdered(frames: seq<Span>, rows: Span, w: nat)
    requires forall i :: 0 <= i < |frames| ==> 0 <= frames[i].lo <= frames[i].hi <= w
    requires Ordered(frames)
    ensures forall i, j :: 0 <= i < j < |frames| ==>
      CropsOf(frames, rows, w)[i].cols.lo <= CropsOf(frames, rows, w)[j].cols.lo
    ensures (forall i :: 0 <= i < |frames| ==> frames[i].hi - frames[i].lo > Pad) ==>
      forall i, j :: 0 <= i < j < |frames| ==> CropsOf(frames, rows, w)[i].cols.lo < CropsOf(frames, rows, w)[j].cols.lo
  {
    var crops := CropsOf(frames, rows, w);
    forall i, j | 0 <= i < j < |frames| ensures crops[i].cols.lo <= crops[j].cols.lo {
      assert frames[i].lo <= frames[i].hi < frames[j].lo;
      assert crops[i].cols == PadColumns(frames[i], w);
      assert crops[j].cols == PadColumns(frames[j], w);
    }
    if forall i :: 0 <= i < |frames| ==> frames[i].hi - frames[i].lo > Pad {
      forall i, j | 0 <= i < j < |frames| ensures crops[i].cols.lo < crops[j].cols.lo {
        assert frames[i].lo + Pad < frames[i].hi < frames[j].lo;
        assert crops[i].cols == PadColumns(frames[i], w);
        assert crops[j].cols == PadColumns(frames[j], w);
      }
    }
  }

  /** Column range `c` is some wide run of `cols`, padded. */
  ghost predicate PaddedWideRun(cols: seq<bool>, w: nat, c: Span) {
    |cols| == w && exists s :: WideRun(cols, s) && c == PadColumns(s, w)
  }

  /** Each crop of a list of wide runs comes from a wide run. */
  lemma CropsFromWideRuns(cols: seq<bool>, frames: seq<Span>, rows: Span, w: nat)
    requires |cols| == w
    requires forall i :: 0 <= i < |frames| ==> 0 <= frames[i].lo <= frames[i].hi <= w
    requires forall i :: 0 <= i < |frames| ==> WideRun(cols, frames[i])
    ensures forall i :: 0 <= i < |frames| ==> PaddedWideRun(cols, w, CropsOf(frames, rows, w)[i].cols)
  {
    forall i | 0 <= i < |frames| ensures PaddedWideRun(cols, w, CropsOf(frames, rows, w)[i].cols) {
      assert WideRun(cols, frames[i]) && CropsOf(frames, rows, w)[i].cols == PadColumns(frames[i], w);
    }
  }

  /** Every wide run that the list holds has its crop. */
  lemma WideRunsCropped(cols: seq<bool>, frames: seq<Span>, rows: Span, w: nat)
    requires |cols| == w
    requires forall i :: 0 <= i < |frames| ==> 0 <= frames[i].lo <= frames[i].hi <= w
    requires forall i :: 0 <= i < |frames| ==> WideRun(cols, frames[i])
    requires forall s :: WideRun(cols, s) ==> s in frames
    ensures forall s :: WideRun(cols, s) ==>
      exists i :: 0 <= i < |frames| && CropsOf(frames, rows, w)[i].cols == PadColumns(s, w)
  {
    var crops := CropsOf(frames, rows, w);
    forall s | WideRun(cols, s) ensures exists i :: 0 <= i < |frames| && crops[i].cols == PadColumns(s, w) {
      var k :| 0 <= k < |frames| && frames[k] == s;
      assert crops[k].cols == PadColumns(s, w);
    }
  }

  /**
   * The crops of one content-column profile: one per wide maximal run, padded
   * and clamped to the profile's width, in left-to-right order.
   */
  method CropRuns(cols: seq<bool>, rows: Span) returns (crops: seq<Crop>)
    ensures forall i :: 0 <= i < |crops| ==> crops[i].rows == rows
    ensures forall i :: 0 <= i < |crops| ==> PaddedWideRun(cols, |cols|, crops[i].cols)
    ensures forall s :: WideRun(cols, s) ==> exists i :: 0 <= i < |crops| && crops[i].cols == PadColumns(s, |cols|)
    ensures forall i, j :: 0 <= i < j < |crops| ==> crops[i].cols.lo < crops[j].cols.lo
  {
    var w := |cols|;
    var runs := ColumnRuns(cols);
    var frames := WideFrames(runs);
    WideFramesOrdered(runs);
    WideFramesAreWideRuns(cols, runs);
    crops := CropsOf(frames, rows, w);
    CropsOrdered(frames, rows, w);
    CropsFromWideRuns(cols, frames, rows, w);
    WideRunsCropped(cols, frames, rows, w);
  }

  /**
   * The crops the slicer saves: one per wide maximal run of content columns,
   * padded and clamped, all between the padded first and last content rows.
   */
  method SpriteCrops(mask: seq<seq<bool>>, w: nat) returns (crops: seq<Crop>)
    requires Rectangular(mask, w)
    ensures forall i :: 0 <= i < |crops| ==> crops[i].rows == RowBounds(RowsWithContent(mask))
    ensures forall i :: 0 <= i < |crops| ==> PaddedWideRun(ColumnsWithContent(mask, w), w, crops[i].cols)
    ensures forall s :: WideRun(ColumnsWithContent(mask, w), s) ==>
      exists i :: 0 <= i < |crops| && crops[i].cols == PadColumns(s, w)
    ensures forall i, j :: 0 <= i < j < |crops| ==> crops[i].cols.lo < crops[j].cols.lo
  {
    crops := CropRuns(ColumnsWithContent(mask, w), RowBounds(RowsWithContent(mask)));
  }
}
