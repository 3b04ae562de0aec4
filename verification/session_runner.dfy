/**
 * The standalone session runner: its own RESET/START handshake, and one pass
 * of the playback loop, which applies a pending manual BPM, then reads at most
 * one step line from the receiver and either runs the estimator's smoothing
 * loop (no line outside manual mode, or a malformed line) or records the step
 * and follows it.
 *
 * The runner drives the estimator through `manual_mode`,
 * `check_manual_bpm_update`, `update_bpm` and `update_recorded_values`, the
 * interface of `BpmEstimation`. The clock reading `now` and the line read
 * (`None` when `readline` returns nothing) are parameters.
 */
module SessionRunner {
  import opened Wrappers
  import opened Text
  import Numeric
  import Comms
  import MidiPlayer
  import BpmEstimation
  import TempoRules

  /**
   * `session_handshake`: up to five RESETs until a reply equals `ACK,RESET`,
   * then up to five STARTs until one equals `ACK,START`. The result is the
   * shared handshake with the default window and stride, which sends no
   * settings.
   */
  method Handshake(replies: seq<string>) returns (ok: bool, sent: seq<string>)
    ensures Comms.Handshake(ok, sent) == Comms.SessionHandshake(Comms.DefaultWindow, Comms.DefaultStride, replies)
  {
    Comms.DefaultHandshake(replies);
    var acked, resets := AckLoop(replies, 0, Comms.ResetAck);
    if !acked {
      return false, Comms.HandshakeLines([], resets, 0);
    }
    var starts;
    ok, starts := AckLoop(replies, resets, Comms.StartAck);
    sent := Comms.HandshakeLines([], resets, starts);
  }

  /** The outcome of an exact-match exchange seen after `k` of its attempts went unanswered. */
  function AfterMisses(ack: string, replies: seq<string>, base: nat, k: nat): Comms.Outcome
    requires k <= Comms.HandshakeRetries
  {
    var e := Comms.Exchange(Comms.EqualsAck(ack), replies, base + k, Comms.HandshakeRetries - k);
    Comms.Outcome(e.ok, e.writes + k)
  }

  /** One more attempt: the matching reply ends the exchange, any other leaves one attempt fewer. */
  lemma AckStep(ack: string, replies: seq<string>, base: nat, k: nat)
    requires k < Comms.HandshakeRetries
    ensures AfterMisses(ack, replies, base, k)
            == if Comms.ReplyAt(replies, base + k) == ack then Comms.Outcome(true, k + 1)
               else AfterMisses(ack, replies, base, k + 1)
  {
    assert Comms.AckedAt(Comms.EqualsAck(ack), replies, base + k) <==> Comms.ReplyAt(replies, base + k) == ack;
    assert base + k + 1 == base + (k + 1);
  }

  /**
   * One of the two handshake loops, reading from position `base`: up to five
   * writes, stopping after the first reply equal to `ack` (`break` for RESET,
   * `return True` for START).
   */
  method AckLoop(replies: seq<string>, base: nat, ack: string) returns (acked: bool, attempts: nat)
    ensures Comms.Exchange(Comms.EqualsAck(ack), replies, base, Comms.HandshakeRetries) == Comms.Outcome(acked, attempts)
  {
    ghost var outcome := Comms.Exchange(Comms.EqualsAck(ack), replies, base, Comms.HandshakeRetries);
    assert outcome == AfterMisses(ack, replies, base, 0);
    acked := false;
    attempts := 0;
    while attempts < Comms.HandshakeRetries && !acked
      invariant 0 <= attempts <= Comms.HandshakeRetries
      invariant acked ==> outcome == Comms.Outcome(true, attempts)
      invariant !acked ==> outcome == AfterMisses(ack, replies, base, attempts)
    {
      AckStep(ack, replies, base, attempts);
      acked := Comms.ReplyAt(replies, base + attempts) == ack;
      attempts := attempts + 1;
    }
  }

  /** A step as the runner reads it: `ts,foot,interval,bpm`, the interval in milliseconds. */
  datatype Step = Step(ts: int, foot: int, interval: int, bpm: real)

  /** `int(60000 / bpm)`: truncation, which for a positive BPM is the floor. */
  function IntervalFor(bpm: real): (ms: int)
    ensures bpm > 0.0 ==> ms >= 0 && ms as real <= 60000.0 / bpm < ms as real + 1.0
    ensures bpm <= 0.0 ==> ms == 0
  {
    if bpm > 0.0 then (60000.0 / bpm).Floor else 0
  }

  /**
   * The parse inside `run_session_loop`: four fields, three integers and a
   * float. A step with neither interval nor BPM stands for the current
   * walking BPM and the interval that BPM implies. `None` is the
   * `ValueError`.
   */
  function ParseStep(line: string, walkingBpm: real): (r: Option<Step>)
    ensures var parts := Split(Strip(line), ',');
            r.None? <==> |parts| != 4
                         || Numeric.ParseInt(parts[0]).None? || Numeric.ParseInt(parts[1]).None?
                         || Numeric.ParseInt(parts[2]).None? || Numeric.ParseReal(parts[3]).None?
    ensures r.Some? ==> var parts := Split(Strip(line), ',');
              var interval, bpm := Numeric.ParseInt(parts[2]).value, Numeric.ParseReal(parts[3]).value;
              && Numeric.ParseInt(parts[0]) == Some(r.value.ts)
              && Numeric.ParseInt(parts[1]) == Some(r.value.foot)
              && (interval == 0 && bpm == 0.0 ==> r.value.bpm == walkingBpm && r.value.interval == IntervalFor(walkingBpm))
              && (interval != 0 || bpm != 0.0 ==> r.value.bpm == bpm && r.value.interval == interval)
  {
    var parts := Split(Strip(line), ',');
    if |parts| != 4 then None
    else
      var ts, foot, interval, bpm := Numeric.ParseInt(parts[0]), Numeric.ParseInt(parts[1]),
                                     Numeric.ParseInt(parts[2]), Numeric.ParseReal(parts[3]);
      if ts.None? || foot.None? || interval.None? || bpm.None? then None
      else if interval.value == 0 && bpm.value == 0.0 then
        Some(Step(ts.value, foot.value, IntervalFor(walkingBpm), walkingBpm))
      else Some(Step(ts.value, foot.value, interval.value, bpm.value))
  }

  /** The receiver's line for a step with a whole-number BPM. */
  function RenderStep(ts: int, foot: int, interval: int, bpm: int): string {
    Join([Numeric.ShowInt(ts), Numeric.ShowInt(foot), Numeric.ShowInt(interval), Numeric.ShowInt(bpm)], ',')
  }

  /** A rendered step splits back into its four fields. */
  lemma RenderedSplits(ts: int, foot: int, interval: int, bpm: int)
    ensures Split(Strip(RenderStep(ts, foot, interval, bpm)), ',')
            == [Numeric.ShowInt(ts), Numeric.ShowInt(foot), Numeric.ShowInt(interval), Numeric.ShowInt(bpm)]
  {
    Comms.NoCommaInShowInt(ts);
    Comms.NoCommaInShowInt(foot);
    Comms.NoCommaInShowInt(interval);
    Comms.NoCommaInShowInt(bpm);
    Numeric.ShowIntStripped(ts);
    Numeric.ShowIntStripped(bpm);
    Comms.SplitFour(Numeric.ShowInt(ts), Numeric.ShowInt(foot), Numeric.ShowInt(interval), Numeric.ShowInt(bpm));
  }

  /** A rendered step parses back to its fields unless it is the all-zero placeholder. */
  lemma ParseRenderedStep(ts: int, foot: int, interval: int, bpm: int, walkingBpm: real)
    requires interval != 0 || bpm != 0
    ensures ParseStep(RenderStep(ts, foot, interval, bpm), walkingBpm) == Some(Step(ts, foot, interval, bpm as real))
  {
    RenderedSplits(ts, foot, interval, bpm);
    Numeric.ParseShowInt(ts);
    Numeric.ParseShowInt(foot);
    Numeric.ParseShowInt(interval);
    Numeric.ParseRealShowInt(bpm);
  }

  /** The placeholder `ts,foot,0,0` is read as a step at the current walking BPM. */
  lemma PlaceholderFollowsWalkingBpm(ts: int, foot: int, walkingBpm: real)
    ensures ParseStep(RenderStep(ts, foot, 0, 0), walkingBpm)
            == Some(Step(ts, foot, IntervalFor(walkingBpm), walkingBpm))
  {
    RenderedSplits(ts, foot, 0, 0);
    Numeric.ParseShowInt(ts);
    Numeric.ParseShowInt(foot);
    Numeric.ParseShowInt(0);
    Numeric.ParseRealShowInt(0);
  }

  /** The state the loop carries between passes: the player and the estimator driving it. */
  datatype Runner = Runner(player: MidiPlayer.Player, estimator: BpmEstimation.Estimator)

  /** `create_session` once the player exists: an estimator built with the session's manual settings. */
  function CreateSession(p: MidiPlayer.Player, manualMode: bool, manualBpm: Option<real>, now: real): (s: Runner)
    ensures s.player == p && BpmEstimation.Valid(s.estimator)
    ensures s.estimator.manualMode == manualMode && s.estimator.pendingManualBpm == manualBpm
    ensures s.estimator.stepCount == 0 && s.estimator.targetBpm == p.walkingBpm
  {
    Runner(p, BpmEstimation.New(p, manualMode, manualBpm, now))
  }

  /** `check_manual_bpm_update` and `set_BPM`: a pending manual BPM is applied, then cleared. */
  function ApplyPending(s: Runner): (r: Runner)
    ensures r.estimator == s.estimator.(pendingManualBpm := None)
    ensures s.estimator.pendingManualBpm.None? ==> r == s
    ensures s.estimator.pendingManualBpm.Some? ==> r.player == MidiPlayer.SetBpm(s.player, s.estimator.pendingManualBpm.value)
  {
    var (pending, e) := BpmEstimation.CheckManualBpmUpdate(s.estimator);
    match pending
    case None => s.(estimator := e)
    case Some(b) => Runner(MidiPlayer.SetBpm(s.player, b), e)
  }

  /** The estimator's `update_bpm`, which itself does nothing in manual mode. */
  function Smooth(s: Runner, now: real): Runner {
    var u := BpmEstimation.UpdateBpm(s.estimator, s.player, now);
    Runner(u.1, u.0)
  }

  /**
   * A well-formed step: the estimator records its time and BPM through the
   * legacy setter, and the player follows it outside manual mode.
   */
  function RecordStep(s: Runner, st: Step, now: real): (r: Runner)
    ensures r.estimator.lastMsgTime == now && r.estimator.lastRecordedBpm == st.bpm
    ensures r.estimator.(lastMsgTime := s.estimator.lastMsgTime, lastRecordedBpm := s.estimator.lastRecordedBpm) == s.estimator
    ensures s.estimator.manualMode ==> r.player == s.player
    ensures !s.estimator.manualMode ==> r.player == MidiPlayer.SetBpm(s.player, st.bpm)
  {
    var recorded := s.(estimator := BpmEstimation.UpdateRecordedValues(s.estimator, now, st.bpm));
    if s.estimator.manualMode then recorded else recorded.(player := MidiPlayer.SetBpm(s.player, st.bpm))
  }

  /** A pass that reads no step: nothing was read, or the line did not parse. */
  predicate NoStep(line: Option<string>) {
    line.None? || ParseStep(line.value, 0.0).None?
  }

  /**
   * One pass of `run_session_loop`: a missing line runs the smoothing loop
   * outside manual mode, a malformed one runs it in every mode (where the
   * estimator's own manual-mode check stops it), and a step is recorded.
   */
  function Tick(s: Runner, line: Option<string>, now: real): (r: Runner)
    ensures r.estimator.pendingManualBpm.None?
    ensures r.estimator.(pendingManualBpm := None, targetBpm := s.estimator.targetBpm,
                         lastMsgTime := s.estimator.lastMsgTime, lastRecordedBpm := s.estimator.lastRecordedBpm,
                         lastUpdateTime := s.estimator.lastUpdateTime)
            == s.estimator.(pendingManualBpm := None)
    ensures NoStep(line) ==> r.estimator.lastMsgTime == s.estimator.lastMsgTime
    ensures NoStep(line) && s.estimator.manualMode ==> r == ApplyPending(s)
    ensures NoStep(line) && !s.estimator.manualMode && s.estimator.stepCount != 1 ==>
              r.estimator.targetBpm == BpmEstimation.DecayedTarget(s.estimator, now)
    ensures !NoStep(line) ==> var st := ParseStep(line.value, ApplyPending(s).player.walkingBpm).value;
              && r.estimator.lastMsgTime == now && r.estimator.lastRecordedBpm == st.bpm
              && r.estimator.targetBpm == s.estimator.targetBpm
              && (s.estimator.manualMode ==> r.player == ApplyPending(s).player)
              && (!s.estimator.manualMode && st.bpm > 0.0 ==> r.player.walkingBpm == st.bpm)
    ensures MidiPlayer.Valid(s.player) ==> MidiPlayer.Valid(r.player)
  {
    var s1 := ApplyPending(s);
    ParseStepDefined(line, s1.player.walkingBpm);
    match line
    case None => if s1.estimator.manualMode then s1 else Smooth(s1, now)
    case Some(l) =>
      match ParseStep(l, s1.player.walkingBpm)
      case None => Smooth(s1, now)
      case Some(st) => RecordStep(s1, st, now)
  }

  /** Whether a line parses does not depend on the walking BPM it may fall back to. */
  lemma ParseStepDefined(line: Option<string>, walkingBpm: real)
    ensures line.Some? ==> (ParseStep(line.value, walkingBpm).None? <==> ParseStep(line.value, 0.0).None?)
  {
  }

  /** The loop over a sequence of passes, each with its line and clock reading. */
  datatype Pass = Pass(line: Option<string>, now: real)

  function Run(s: Runner, passes: seq<Pass>): (r: Runner)
    ensures r.estimator.manualMode == s.estimator.manualMode && r.estimator.stepCount == s.estimator.stepCount
    ensures r.estimator.alphaUp == s.estimator.alphaUp && r.estimator.alphaDown == s.estimator.alphaDown
    ensures |passes| > 0 ==> r.estimator.pendingManualBpm.None?
    decreases |passes|
  {
    if |passes| == 0 then s else Run(Tick(s, passes[0].line, passes[0].now), passes[1..])
  }

  /**
   * In manual mode the tempo is the one last set by hand: once a pending
   * manual BPM is applied, no sequence of lines, well-formed or not, moves it.
   */
  lemma {:induction false} ManualModeHoldsTempo(s: Runner, passes: seq<Pass>)
    requires s.estimator.manualMode && s.estimator.pendingManualBpm.None?
    ensures Run(s, passes).player == s.player
    decreases |passes|
  {
    if |passes| > 0 {
      var s1 := Tick(s, passes[0].line, passes[0].now);
      assert s1.player == s.player;
      ManualModeHoldsTempo(s1, passes[1..]);
    }
  }

  /** A pending manual BPM is applied on the first pass and never again. */
  lemma PendingAppliedOnce(s: Runner, b: real, now1: real, now2: real)
    requires s.estimator.manualMode && s.estimator.pendingManualBpm == Some(b) && b > 0.0
    ensures Tick(s, None, now1).player.walkingBpm == b
    ensures Tick(Tick(s, None, now1), None, now2) == Tick(s, None, now1)
  {
  }

  /**
   * The runner records steps with `update_recorded_values`, never
   * `register_step`: the step count stays where it started, so from a freshly
   * built estimator the decay ceiling never applies and the target stays the
   * tempo the session started with, whatever the receiver sends.
   */
  lemma {:induction false} TargetStaysAtStart(s: Runner, passes: seq<Pass>)
    requires s.estimator.stepCount == 0
    ensures Run(s, passes).estimator.targetBpm == s.estimator.targetBpm
    decreases |passes|
  {
    if |passes| > 0 {
      var s1 := Tick(s, passes[0].line, passes[0].now);
      assert s1.estimator.targetBpm == s.estimator.targetBpm;
      TargetStaysAtStart(s1, passes[1..]);
    }
  }

  /**
   * Between steps the smoothing loop pulls the walking BPM back towards that
   * starting target: after a step sets the player to `bpm`, a later pass with
   * no line, more than the dead band away from the target, leaves the walking
   * BPM strictly closer to the target than `bpm`, by at most 10 BPM per second.
   */
  lemma StepThenSilenceDriftsBack(s: Runner, ts: int, foot: int, interval: int, bpm: int, now1: real, now2: real)
    requires BpmEstimation.Valid(s.estimator) && MidiPlayer.Valid(s.player)
    requires !s.estimator.manualMode && s.estimator.pendingManualBpm.None? && s.estimator.stepCount == 0
    requires s.estimator.targetBpm > 0.0 && bpm > 0
    requires s.estimator.lastUpdateTime < now2
    requires TempoRules.Abs(s.estimator.targetBpm - bpm as real) > BpmEstimation.DeadBand
    ensures var stepped := Tick(s, Some(RenderStep(ts, foot, interval, bpm)), now1);
            var after := Tick(stepped, None, now2);
            && stepped.player.walkingBpm == bpm as real
            && TempoRules.Abs(after.player.walkingBpm - s.estimator.targetBpm) < TempoRules.Abs(bpm as real - s.estimator.targetBpm)
            && TempoRules.Abs(after.player.walkingBpm - bpm as real) <= BpmEstimation.WarmupRate * (now2 - s.estimator.lastUpdateTime)
  {
    var stepped := Tick(s, Some(RenderStep(ts, foot, interval, bpm)), now1);
    RenderedStepFollowed(s, ts, foot, interval, bpm, now1);
    assert Tick(stepped, None, now2) == Smooth(stepped, now2);
    BpmEstimation.UpdateBpmCloser(stepped.estimator, stepped.player, now2);
  }

  /** Outside manual mode a rendered step sets the player to its BPM and restarts the decay timer. */
  lemma RenderedStepFollowed(s: Runner, ts: int, foot: int, interval: int, bpm: int, now: real)
    requires !s.estimator.manualMode && s.estimator.pendingManualBpm.None? && bpm > 0
    ensures Tick(s, Some(RenderStep(ts, foot, interval, bpm)), now)
            == Runner(MidiPlayer.SetBpm(s.player, bpm as real), s.estimator.(lastMsgTime := now, lastRecordedBpm := bpm as real))
  {
    ParseRenderedStep(ts, foot, interval, bpm, s.player.walkingBpm);
    ParseRenderedStep(ts, foot, interval, bpm, 0.0);
  }
}
