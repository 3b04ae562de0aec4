/**
 * The hybrid mode: follow the detected BPM until the last `lockSteps` step
 * BPMs agree to within the stability threshold, then cruise at their mean;
 * unlock once the player has deviated from the locked BPM by more than the
 * unlock threshold for longer than the unlock time.
 */
module HybridMode {
  import opened Wrappers
  import Stats
  import TempoRules

  datatype Hybrid = Hybrid(
    lockedBpm: Option<real>,
    buffer: seq<real>,
    unlockStartTime: Option<real>,
    lastStepTime: real,
    lastStepBpm: real,
    lockSteps: int,
    unlockTime: real,
    stabilityThreshold: real,
    unlockThreshold: real)

  /** Lower bounds the setters enforce. */
  const MinLockSteps: int := 2
  const MinUnlockTime: real := 0.5
  const MinStabilityThreshold: real := 1.0
  const MinUnlockThreshold: real := 5.0

  /** Unlocked, empty buffer, no step yet; the defaults are 5 steps, 1.5 s, 3 BPM and 15 BPM. */
  function New(walkingBpm: real, lockSteps: int, unlockTime: real, stabilityThreshold: real, unlockThreshold: real): (h: Hybrid)
    ensures h.lockedBpm.None? && h.buffer == [] && h.unlockStartTime.None?
    ensures h.lastStepTime == 0.0 && h.lastStepBpm == walkingBpm
    ensures h.lockSteps == lockSteps && h.unlockTime == unlockTime
    ensures h.stabilityThreshold == stabilityThreshold && h.unlockThreshold == unlockThreshold
  {
    Hybrid(None, [], None, 0.0, walkingBpm, lockSteps, unlockTime, stabilityThreshold, unlockThreshold)
  }

  /** `reset`: unlocked, buffer and unlock timer cleared, everything else kept. */
  function Reset(h: Hybrid): (r: Hybrid)
    ensures r.lockedBpm.None? && r.buffer == [] && r.unlockStartTime.None?
    ensures r.(lockedBpm := h.lockedBpm, buffer := h.buffer, unlockStartTime := h.unlockStartTime) == h
  {
    h.(lockedBpm := None, buffer := [], unlockStartTime := None)
  }

  function SetLockSteps(h: Hybrid, steps: int): (r: Hybrid)
    ensures r.lockSteps >= MinLockSteps && (steps >= MinLockSteps ==> r.lockSteps == steps)
    ensures steps < MinLockSteps ==> r.lockSteps == MinLockSteps
    ensures r.(lockSteps := h.lockSteps) == h
  {
    h.(lockSteps := if steps > MinLockSteps then steps else MinLockSteps)
  }

  function SetUnlockTime(h: Hybrid, seconds: real): (r: Hybrid)
    ensures r.unlockTime >= MinUnlockTime && (seconds >= MinUnlockTime ==> r.unlockTime == seconds)
    ensures seconds < MinUnlockTime ==> r.unlockTime == MinUnlockTime
    ensures r.(unlockTime := h.unlockTime) == h
  {
    h.(unlockTime := if seconds > MinUnlockTime then seconds else MinUnlockTime)
  }

  function SetStabilityThreshold(h: Hybrid, bpm: real): (r: Hybrid)
    ensures r.stabilityThreshold >= MinStabilityThreshold && (bpm >= MinStabilityThreshold ==> r.stabilityThreshold == bpm)
    ensures bpm < MinStabilityThreshold ==> r.stabilityThreshold == MinStabilityThreshold
    ensures r.(stabilityThreshold := h.stabilityThreshold) == h
  {
    h.(stabilityThreshold := if bpm > MinStabilityThreshold then bpm else MinStabilityThreshold)
  }

  function SetUnlockThreshold(h: Hybrid, bpm: real): (r: Hybrid)
    ensures r.unlockThreshold >= MinUnlockThreshold && (bpm >= MinUnlockThreshold ==> r.unlockThreshold == bpm)
    ensures bpm < MinUnlockThreshold ==> r.unlockThreshold == MinUnlockThreshold
    ensures r.(unlockThreshold := h.unlockThreshold) == h
  {
    h.(unlockThreshold := if bpm > MinUnlockThreshold then bpm else MinUnlockThreshold)
  }

  /** The buffer is full and its spread is below the stability threshold. */
  predicate Stable(buffer: seq<real>, lockSteps: int, stabilityThreshold: real) {
    |buffer| == lockSteps && |buffer| > 0
    && Stats.MaxOf(buffer) - Stats.MinOf(buffer) < stabilityThreshold
  }

  /** Lock at the buffer's mean when it is stable. */
  function TryLock(h: Hybrid): (r: Hybrid)
    requires h.lockedBpm.None?
    ensures r.lockedBpm.Some? <==> Stable(h.buffer, h.lockSteps, h.stabilityThreshold)
    ensures r.lockedBpm.Some? ==> r.lockedBpm.value == Stats.Mean(h.buffer)
    ensures r.(lockedBpm := None) == h
  {
    if Stable(h.buffer, h.lockSteps, h.stabilityThreshold) then h.(lockedBpm := Some(Stats.Mean(h.buffer))) else h
  }

  /**
   * `on_step` as written: append, and drop the oldest reading when the buffer
   * is longer than `lockSteps`. A zero `lockSteps` makes the source take the
   * maximum of an empty buffer, which raises.
   */
  function OnStepAsWritten(h: Hybrid, bpm: real, now: real): (r: Hybrid)
    requires h.lockSteps != 0
    ensures r.lastStepTime == now && r.lastStepBpm == bpm
    ensures h.lockedBpm.Some? ==> r == h.(lastStepTime := now, lastStepBpm := bpm)
    ensures h.lockedBpm.None? && 0 <= |h.buffer| <= h.lockSteps ==> r.buffer == Stats.LastN(h.buffer + [bpm], h.lockSteps as nat)
    ensures h.lockedBpm.None? && r.lockedBpm.Some? ==> Stable(r.buffer, h.lockSteps, h.stabilityThreshold)
  {
    var h1 := h.(lastStepTime := now, lastStepBpm := bpm);
    if h.lockedBpm.Some? then h1
    else
      var b := h.buffer + [bpm];
      TryLock(h1.(buffer := if |b| > h.lockSteps then b[1..] else b))
  }

  /**
   * `on_step` with the buffer cut to the most recent `lockSteps` readings, so
   * that lowering `lockSteps` takes effect at the next step.
   */
  function OnStep(h: Hybrid, bpm: real, now: real): (r: Hybrid)
    requires h.lockSteps >= 1
    ensures r.lastStepTime == now && r.lastStepBpm == bpm
    ensures h.lockedBpm.Some? ==> r == h.(lastStepTime := now, lastStepBpm := bpm)
    ensures h.lockedBpm.None? ==> r.buffer == Stats.LastN(h.buffer + [bpm], h.lockSteps as nat)
    ensures h.lockedBpm.None? ==> (r.lockedBpm.Some? <==> Stable(r.buffer, h.lockSteps, h.stabilityThreshold))
    ensures r.lockedBpm.Some? && h.lockedBpm.None? ==> r.lockedBpm.value == Stats.Mean(r.buffer)
    ensures r.(lockedBpm := h.lockedBpm, buffer := h.buffer, lastStepTime := h.lastStepTime, lastStepBpm := h.lastStepBpm) == h
  {
    var h1 := h.(lastStepTime := now, lastStepBpm := bpm);
    if h.lockedBpm.Some? then h1
    else TryLock(h1.(buffer := Stats.LastN(h.buffer + [bpm], h.lockSteps as nat)))
  }

  /** The two agree while the buffer is no longer than `lockSteps`. */
  lemma OnStepAgrees(h: Hybrid, bpm: real, now: real)
    requires h.lockSteps >= 1 && |h.buffer| <= h.lockSteps
    ensures OnStepAsWritten(h, bpm, now) == OnStep(h, bpm, now)
  {
  }

  /** Steps at the BPMs of `run`, all at time `now`, with the buffer rule as written. */
  function FeedAsWritten(h: Hybrid, run: seq<real>, now: real): (r: Hybrid)
    requires h.lockSteps != 0
    ensures r.lockSteps == h.lockSteps
    decreases |run|
  {
    if |run| == 0 then h else FeedAsWritten(OnStepAsWritten(h, run[0], now), run[1..], now)
  }

  /** Steps at the BPMs of `run`, all at time `now`. */
  function Feed(h: Hybrid, run: seq<real>, now: real): (r: Hybrid)
    requires h.lockSteps >= 1
    ensures r.lockSteps == h.lockSteps && r.stabilityThreshold == h.stabilityThreshold
    decreases |run|
  {
    if |run| == 0 then h else Feed(OnStep(h, run[0], now), run[1..], now)
  }

  /**
   * As written, a buffer longer than `lockSteps` (left behind when `lockSteps`
   * is lowered) keeps its length for ever, so the mode never locks again,
   * whatever the steps.
   */
  lemma {:induction false} OverfullNeverLocks(h: Hybrid, run: seq<real>, now: real)
    requires h.lockedBpm.None? && 1 <= h.lockSteps < |h.buffer|
    ensures FeedAsWritten(h, run, now).lockedBpm.None?
    ensures |FeedAsWritten(h, run, now).buffer| == |h.buffer|
    decreases |run|
  {
    if |run| > 0 {
      OverfullNeverLocks(OnStepAsWritten(h, run[0], now), run[1..], now);
    }
  }

  /**
   * The scenario: a three-step lock sees three unstable readings, which fill
   * its buffer; lowering the lock to two steps leaves the buffer overfull, so
   * no run of steps, however steady, locks again.
   */
  lemma LoweredLockStepsNeverLocks(run: seq<real>)
    ensures var h1 := SetLockSteps(FeedAsWritten(New(100.0, 3, 1.5, 3.0, 15.0), [60.0, 100.0, 60.0], 0.0), 2);
            h1.lockedBpm.None? && |h1.buffer| == 3 && FeedAsWritten(h1, run, 0.0).lockedBpm.None?
  {
    var e := UnstableFill();
    OverfullNeverLocks(SetLockSteps(e, 2), run, 0.0);
  }

  /** Three readings 40 BPM apart fill a three-step buffer without locking it. */
  lemma UnstableFill() returns (e: Hybrid)
    ensures e == FeedAsWritten(New(100.0, 3, 1.5, 3.0, 15.0), [60.0, 100.0, 60.0], 0.0)
    ensures e.lockedBpm.None? && e.buffer == [60.0, 100.0, 60.0] && e.lockSteps == 3
  {
    var h := New(100.0, 3, 1.5, 3.0, 15.0);
    var a := OnStepAsWritten(h, 60.0, 0.0);
    assert a.buffer == [60.0] && a.lockedBpm.None?;
    var b := OnStepAsWritten(a, 100.0, 0.0);
    assert b.buffer == [60.0, 100.0] && b.lockedBpm.None?;
    var c := OnStepAsWritten(b, 60.0, 0.0);
    assert c.buffer == [60.0, 100.0, 60.0];
    assert !Stable(c.buffer, 3, 3.0) by {
      assert c.buffer[1] == 100.0 && c.buffer[0] == 60.0;
    }
    assert [60.0, 100.0, 60.0][1..] == [100.0, 60.0];
    assert [100.0, 60.0][1..] == [60.0];
    e := c;
  }

  /** Readings that all lie in [lo, hi] spread by at most hi - lo. */
  lemma SpreadWithin(s: seq<real>, lo: real, hi: real)
    requires |s| > 0 && forall i :: 0 <= i < |s| ==> lo <= s[i] <= hi
    ensures Stats.MaxOf(s) - Stats.MinOf(s) <= hi - lo
  {
  }

  /** Once locked, further steps keep the lock. */
  lemma {:induction false} LockedStaysLocked(h: Hybrid, run: seq<real>, now: real)
    requires h.lockSteps >= 1 && h.lockedBpm.Some?
    ensures Feed(h, run, now).lockedBpm == h.lockedBpm
    decreases |run|
  {
    if |run| > 0 {
      LockedStaysLocked(OnStep(h, run[0], now), run[1..], now);
    }
  }

  /** The readings at the end of `s`, `k` of them, all lie in [lo, hi]. */
  predicate BandSuffix(s: seq<real>, k: nat, lo: real, hi: real) {
    k <= |s| && forall i :: |s| - k <= i < |s| ==> lo <= s[i] <= hi
  }

  /** Appending an in-band reading and keeping the last `n` extends the in-band tail by one. */
  lemma BandPush(b: seq<real>, x: real, n: nat, lo: real, hi: real, k: nat)
    requires n >= 1 && BandSuffix(b, k, lo, hi) && lo <= x <= hi
    ensures BandSuffix(Stats.LastN(b + [x], n), if k + 1 < n then k + 1 else n, lo, hi)
  {
    var ext := b + [x];
    var w := Stats.LastN(ext, n);
    var k1 := if k + 1 < n then k + 1 else n;
    forall i | |w| - k1 <= i < |w| ensures lo <= w[i] <= hi {
      assert w[i] == ext[|ext| - |w| + i];
    }
  }

  /** An unlocked step with a reading in the band extends the in-band tail of the buffer by one. */
  lemma OnStepBand(h: Hybrid, x: real, now: real, lo: real, hi: real, k: nat) returns (k1: nat)
    requires h.lockSteps >= 1 && h.lockedBpm.None? && BandSuffix(h.buffer, k, lo, hi) && lo <= x <= hi
    ensures BandSuffix(OnStep(h, x, now).buffer, k1, lo, hi)
    ensures k1 == if k + 1 < h.lockSteps then k + 1 else h.lockSteps
  {
    BandPush(h.buffer, x, h.lockSteps as nat, lo, hi, k);
    k1 := if k + 1 < h.lockSteps then k + 1 else h.lockSteps;
  }

  /** A full buffer whose readings all lie in a band narrower than the threshold locks at the next step. */
  lemma FullBandLocks(h: Hybrid, x: real, now: real, lo: real, hi: real, k: nat)
    requires h.lockSteps >= 1 && h.lockedBpm.None? && hi - lo < h.stabilityThreshold
    requires BandSuffix(h.buffer, k, lo, hi) && lo <= x <= hi && k + 1 >= h.lockSteps
    ensures OnStep(h, x, now).lockedBpm.Some?
  {
    var k1 := OnStepBand(h, x, now, lo, hi, k);
    var w := OnStep(h, x, now).buffer;
    SpreadWithin(w, lo, hi);
  }

  /**
   * With the buffer rule corrected, `lockSteps` readings that agree to within
   * the stability threshold always lock the mode. `k` counts readings already
   * at the end of the buffer that lie in the same band.
   */
  lemma {:induction false} StableRunLocks(h: Hybrid, run: seq<real>, now: real, lo: real, hi: real, k: nat)
    requires h.lockSteps >= 1 && h.lockedBpm.None?
    requires hi - lo < h.stabilityThreshold
    requires |run| >= 1 && k + |run| >= h.lockSteps && BandSuffix(h.buffer, k, lo, hi)
    requires forall i :: 0 <= i < |run| ==> lo <= run[i] <= hi
    ensures Feed(h, run, now).lockedBpm.Some?
    decreases |run|
  {
    var h1 := OnStep(h, run[0], now);
    assert Feed(h, run, now) == Feed(h1, run[1..], now);
    if |run| == 1 {
      FullBandLocks(h, run[0], now, lo, hi, k);
    } else if h1.lockedBpm.Some? {
      LockedStaysLocked(h1, run[1..], now);
    } else {
      var k1 := OnStepBand(h, run[0], now, lo, hi, k);
      StableRunLocks(h1, run[1..], now, lo, hi, k1);
    }
  }

  /**
   * The locked-mode check at time `now` with the player at `current`: the
   * target stays the locked BPM unless the deviation has lasted longer than
   * the unlock time, and then the mode unlocks and follows the last step.
   */
  function LockedCheck(h: Hybrid, now: real, current: real): (r: (real, Hybrid))
    requires h.lockedBpm.Some?
    ensures TempoRules.Abs(current - h.lockedBpm.value) <= h.unlockThreshold ==>
              r == (h.lockedBpm.value, h.(unlockStartTime := None))
    ensures r.1.lockedBpm.None? ==> r.0 == h.lastStepBpm && r.1.unlockStartTime.None?
    ensures r.1.lockedBpm.Some? ==> r.0 == h.lockedBpm.value && r.1.lockedBpm == h.lockedBpm
    ensures r.1.lockedBpm.None? <==>
              TempoRules.Abs(current - h.lockedBpm.value) > h.unlockThreshold
              && now - h.unlockStartTime.GetOr(now) > h.unlockTime
    ensures TempoRules.Abs(current - h.lockedBpm.value) > h.unlockThreshold && r.1.lockedBpm.Some? ==>
              r.1.unlockStartTime == Some(h.unlockStartTime.GetOr(now))
    ensures r.1.(lockedBpm := h.lockedBpm, unlockStartTime := h.unlockStartTime) == h
  {
    var locked := h.lockedBpm.value;
    if TempoRules.Abs(current - locked) > h.unlockThreshold then
      var start := h.unlockStartTime.GetOr(now);
      if now - start > h.unlockTime then (h.lastStepBpm, h.(lockedBpm := None, unlockStartTime := None))
      else (locked, h.(unlockStartTime := Some(start)))
    else (locked, h.(unlockStartTime := None))
  }

  /**
   * A first deviation only starts the unlock timer, at the time it is seen:
   * it never unlocks at once. Without a deviation the timer stays off.
   */
  lemma FirstDeviationKeepsLock(h: Hybrid, now: real, current: real)
    requires h.lockedBpm.Some? && h.unlockStartTime.None? && h.unlockTime >= 0.0
    ensures LockedCheck(h, now, current).1.lockedBpm.Some?
    ensures TempoRules.Abs(current - h.lockedBpm.value) > h.unlockThreshold ==>
              LockedCheck(h, now, current).1.unlockStartTime == Some(now)
    ensures TempoRules.Abs(current - h.lockedBpm.value) <= h.unlockThreshold ==>
              LockedCheck(h, now, current).1.unlockStartTime.None?
  {
  }

  /** A deviation that persists past the unlock time unlocks, started at the first deviation. */
  lemma PersistentDeviationUnlocks(h: Hybrid, t0: real, t1: real, current: real)
    requires h.lockedBpm.Some? && h.unlockStartTime.None? && h.unlockTime >= 0.0
    requires TempoRules.Abs(current - h.lockedBpm.value) > h.unlockThreshold
    requires t1 - t0 > h.unlockTime
    ensures var first := LockedCheck(h, t0, current).1;
            first.lockedBpm.Some? && LockedCheck(first, t1, current).1.lockedBpm.None?
            && LockedCheck(first, t1, current).0 == h.lastStepBpm
  {
  }

  /**
   * The unlock timer counts from the first deviating check, not the latest:
   * deviating checks at `t0`, `t1` and `t2` unlock at `t2` once `t2 - t0`
   * exceeds the unlock time, even though `t2 - t1` does not.
   */
  lemma DeviationTimedFromFirst(h: Hybrid, t0: real, t1: real, t2: real, current: real)
    requires h.lockedBpm.Some? && h.unlockStartTime.None? && h.unlockTime >= 0.0
    requires TempoRules.Abs(current - h.lockedBpm.value) > h.unlockThreshold
    requires t0 <= t1 && t1 - t0 <= h.unlockTime && t2 - t0 > h.unlockTime
    ensures var first := LockedCheck(h, t0, current).1;
            var second := LockedCheck(first, t1, current).1;
            && second.lockedBpm.Some? && second.unlockStartTime == Some(t0)
            && LockedCheck(second, t2, current).1.lockedBpm.None?
  {
    var first := LockedCheck(h, t0, current).1;
    assert first.unlockStartTime == Some(t0) && first.lockedBpm == h.lockedBpm;
  }

  /** `handle_step`: the base target (locked or followed), then decay and boost. */
  function HandleStep(h: Hybrid, now: real, current: real, dt: real,
                      contextAlphaUp: Option<real>, smooth: TempoRules.Smoother): (r: (TempoRules.Proposal, Hybrid))
    ensures h.lockedBpm.None? ==> r.1 == h && r.0.target <= h.lastStepBpm
    ensures h.lockedBpm.Some? ==> r.1 == LockedCheck(h, now, current).1
    ensures h.lockedBpm.Some? ==> r.0.target <= LockedCheck(h, now, current).0
    ensures r.0.target == TempoRules.ModeDecay(if h.lockedBpm.Some? then LockedCheck(h, now, current).0 else h.lastStepBpm, h.lastStepTime, now)
  {
    var (base, h1) := if h.lockedBpm.Some? then LockedCheck(h, now, current) else (h.lastStepBpm, h);
    (TempoRules.DecayAndBoost(base, h.lastStepTime, now, current, dt, contextAlphaUp, smooth), h1)
  }
}
