/**
 * The host's side of the line protocol with the sensor receiver: the
 * `PREFIX,value` configuration commands and the calibration command, each
 * retried until a reply starts with the expected acknowledgement; the
 * RESET/START session handshake, whose replies must match exactly; the
 * `ts,foot,instant,avg` step line; and the `KEY:VALUE` commands the engine
 * reads from the GUI.
 *
 * The serial link is the sequence of lines `readline` returns, in order: the
 * i-th line answers the i-th write, and a missing line is a timeout, read as
 * the empty reply. Each line is stripped as it is read, so the exchanges work
 * on `Received(raw)`; one that starts after `from` earlier writes reads from
 * position `from`.
 */
module Comms {
  import opened Wrappers
  import opened Text
  import Numeric
  import BpmEstimation

  /** How a reply is judged: by its start (configuration) or in full (handshake). */
  datatype AckRule = StartsWithAck(prefix: string) | EqualsAck(ack: string)

  predicate Accepts(rule: AckRule, reply: string) {
    match rule
    case StartsWithAck(prefix) => StartsWith(reply, prefix)
    case EqualsAck(ack) => reply == ack
  }

  /** Every line as `readline().strip()` hands it over. */
  function Received(raw: seq<string>): (lines: seq<string>)
    ensures |lines| == |raw| && forall i :: 0 <= i < |raw| ==> lines[i] == Strip(raw[i])
  {
    seq(|raw|, i requires 0 <= i < |raw| => Strip(raw[i]))
  }

  /** The i-th received line; past the end of the link, the empty timeout reply. */
  function ReplyAt(replies: seq<string>, i: nat): string {
    if i < |replies| then replies[i] else ""
  }

  /** The reply to the i-th write is an acknowledgement. */
  predicate AckedAt(rule: AckRule, replies: seq<string>, i: nat) {
    Accepts(rule, ReplyAt(replies, i))
  }

  /** Whether an exchange was acknowledged, and how many writes (and reads) it took. */
  datatype Outcome = Outcome(ok: bool, writes: nat)

  /**
   * Write a line and read one reply, up to `retries` times, stopping at the
   * first reply the rule accepts.
   */
  function Exchange(rule: AckRule, replies: seq<string>, from: nat, retries: nat): (r: Outcome)
    ensures r.writes <= retries
    ensures r.ok ==> 1 <= r.writes
    ensures !r.ok ==> r.writes == retries
    decreases retries
  {
    if retries == 0 then Outcome(false, 0)
    else if AckedAt(rule, replies, from) then Outcome(true, 1)
    else
      var rest := Exchange(rule, replies, from + 1, retries - 1);
      Outcome(rest.ok, rest.writes + 1)
  }

  /**
   * An exchange succeeds exactly when some reply within its attempts is an
   * acknowledgement, and then it stops at the first one.
   */
  lemma {:induction false} ExchangeSpec(rule: AckRule, replies: seq<string>, from: nat, retries: nat)
    ensures var r := Exchange(rule, replies, from, retries);
            && (r.ok <==> exists i :: from <= i < from + retries && AckedAt(rule, replies, i))
            && (r.ok ==> AckedAt(rule, replies, from + r.writes - 1))
            && (forall j :: from <= j < from + r.writes - 1 ==> !AckedAt(rule, replies, j))
            && (!r.ok ==> forall j :: from <= j < from + retries ==> !AckedAt(rule, replies, j))
    decreases retries
  {
    if retries > 0 && !AckedAt(rule, replies, from) {
      ExchangeSpec(rule, replies, from + 1, retries - 1);
      var rest := Exchange(rule, replies, from + 1, retries - 1);
      if rest.ok {
        assert AckedAt(rule, replies, from + 1 + rest.writes - 1);
      }
    }
  }

  /** The same line written `n` times. */
  function Repeat(line: string, n: nat): (r: seq<string>)
    ensures |r| == n && forall i :: 0 <= i < n ==> r[i] == line
  {
    seq(n, _ => line)
  }

  /**
   * The retry loop of `send_config_command` and its siblings, as the source
   * runs it: the verdict and the lines written.
   */
  method SendWithRetries(line: string, rule: AckRule, replies: seq<string>, retries: nat)
    returns (ok: bool, sent: seq<string>)
    ensures ok == Exchange(rule, replies, 0, retries).ok
    ensures sent == Repeat(line, Exchange(rule, replies, 0, retries).writes)
  {
    sent := [];
    var attempt := 0;
    while attempt < retries
      invariant 0 <= attempt <= retries && sent == Repeat(line, attempt)
      invariant var e := Exchange(rule, replies, attempt, retries - attempt);
                Exchange(rule, replies, 0, retries) == Outcome(e.ok, e.writes + attempt)
    {
      sent := sent + [line];
      if Accepts(rule, ReplyAt(replies, attempt)) {
        return true, sent;
      }
      attempt := attempt + 1;
    }
    ok := false;
  }

  /**
   * What a finished retry loop shows: success exactly when an accepted reply
   * came within the attempts, the last line written answered by the first
   * one, and every attempt spent on failure.
   */
  lemma RetriesOutcome(line: string, rule: AckRule, replies: seq<string>, retries: nat, ok: bool, sent: seq<string>)
    requires ok == Exchange(rule, replies, 0, retries).ok
    requires sent == Repeat(line, Exchange(rule, replies, 0, retries).writes)
    ensures ok <==> exists i :: 0 <= i < retries && AckedAt(rule, replies, i)
    ensures ok ==> AckedAt(rule, replies, |sent| - 1)
    ensures !ok ==> |sent| == retries
    ensures forall j :: 0 <= j < |sent| - 1 ==> !AckedAt(rule, replies, j)
  {
    ExchangeSpec(rule, replies, 0, retries);
  }

  /** `f"{cmd_prefix},{value}\n"`. */
  function ConfigLine(prefix: string, value: int): (line: string)
    ensures |line| >= |prefix| + 3 && line[|line| - 1] == '\n' && StartsWith(line, prefix + ",")
  {
    prefix + "," + Numeric.ShowInt(value) + "\n"
  }

  /** The receiver can read the value back: cutting the stripped line at its first comma. */
  lemma ConfigLineRoundTrip(prefix: string, value: int)
    requires ',' !in prefix && (prefix == [] || !IsSpace(prefix[0]))
    ensures var parts := SplitN(Strip(ConfigLine(prefix, value)), ',', 1);
            |parts| == 2 && parts[0] == prefix && Numeric.ParseInt(parts[1]) == Some(value)
  {
    var digits := Numeric.ShowInt(value);
    var body := prefix + [','] + digits;
    Numeric.ShowIntStripped(value);
    assert !IsSpace(digits[|digits| - 1]);
    assert body[|body| - 1] == digits[|digits| - 1];
    assert body[0] == (if prefix == [] then ',' else prefix[0]);
    assert ConfigLine(prefix, value) == body + "\n";
    StripTrailingNewline(body);
    SplitOnceAfterPrefix(prefix, digits, ',');
    Numeric.ParseShowInt(value);
  }

  /** Stripping a stripped string with one newline appended gives it back. */
  lemma StripTrailingNewline(s: string)
    requires s != [] && !IsSpace(s[0]) && !IsSpace(s[|s| - 1])
    ensures Strip(s + "\n") == s
  {
    var t := s + "\n";
    assert TrimLeft(t) == t;
    assert t[..|t| - 1] == s;
    assert TrimRight(t) == TrimRight(s);
    StripOfStripped(s);
  }

  const ConfigRetries: nat := 3
  const HandshakeRetries: nat := 5
  const DefaultWindow: int := 3
  const DefaultStride: int := 2
  const ResetLine: string := "RESET\n"
  const StartLine: string := "START\n"
  const WindowAck: string := "ACK,WINDOW"
  const StrideAck: string := "ACK,STRIDE"
  const ResetAck: string := "ACK,RESET"
  const StartAck: string := "ACK,START"
  const CalibrationAck: string := "ACK,CAL_WEIGHT"

  /** `send_config_command(prefix, value, ack)` with its default three attempts. */
  method SendConfigCommand(prefix: string, value: int, ackPrefix: string, replies: seq<string>)
    returns (ok: bool, sent: seq<string>)
    ensures ok <==> exists i :: 0 <= i < ConfigRetries && StartsWith(ReplyAt(replies, i), ackPrefix)
    ensures 1 <= |sent| <= ConfigRetries && forall i :: 0 <= i < |sent| ==> sent[i] == ConfigLine(prefix, value)
    ensures ok ==> StartsWith(ReplyAt(replies, |sent| - 1), ackPrefix)
    ensures !ok ==> |sent| == ConfigRetries
    ensures forall j :: 0 <= j < |sent| - 1 ==> !StartsWith(ReplyAt(replies, j), ackPrefix)
  {
    ok, sent := SendWithRetries(ConfigLine(prefix, value), StartsWithAck(ackPrefix), replies, ConfigRetries);
    RetriesOutcome(ConfigLine(prefix, value), StartsWithAck(ackPrefix), replies, ConfigRetries, ok, sent);
    forall j | 0 <= j < |sent| - 1 ensures !StartsWith(ReplyAt(replies, j), ackPrefix) {
      assert !AckedAt(StartsWithAck(ackPrefix), replies, j);
    }
  }

  /** `CAL_WEIGHT,<margin>\n`. */
  function CalibrationLine(margin: int): (line: string)
    ensures line == "CAL_WEIGHT," + Numeric.ShowInt(margin) + "\n"
  {
    assert "CAL_WEIGHT" + "," == "CAL_WEIGHT,";
    ConfigLine("CAL_WEIGHT", margin)
  }

  /** `send_calibration_command`: any reply starting `ACK,CAL_WEIGHT` confirms it, within three attempts. */
  method SendCalibrationCommand(margin: int, replies: seq<string>) returns (ok: bool, sent: seq<string>)
    ensures ok <==> exists i :: 0 <= i < ConfigRetries && StartsWith(ReplyAt(replies, i), CalibrationAck)
    ensures 1 <= |sent| <= ConfigRetries
    ensures forall i :: 0 <= i < |sent| ==> sent[i] == "CAL_WEIGHT," + Numeric.ShowInt(margin) + "\n"
    ensures ok ==> StartsWith(ReplyAt(replies, |sent| - 1), CalibrationAck)
    ensures !ok ==> |sent| == ConfigRetries
    ensures forall j :: 0 <= j < |sent| - 1 ==> !StartsWith(ReplyAt(replies, j), CalibrationAck)
  {
    ok, sent := SendWithRetries(CalibrationLine(margin), StartsWithAck(CalibrationAck), replies, ConfigRetries);
    RetriesOutcome(CalibrationLine(margin), StartsWithAck(CalibrationAck), replies, ConfigRetries, ok, sent);
    forall j | 0 <= j < |sent| - 1 ensures !StartsWith(ReplyAt(replies, j), CalibrationAck) {
      assert !AckedAt(StartsWithAck(CalibrationAck), replies, j);
    }
  }

  /** `send_handshake_command`: only a reply equal to the acknowledgement counts, within five attempts. */
  method SendHandshakeCommand(line: string, ack: string, replies: seq<string>) returns (ok: bool, sent: seq<string>)
    ensures ok <==> exists i :: 0 <= i < HandshakeRetries && ReplyAt(replies, i) == ack
    ensures 1 <= |sent| <= HandshakeRetries && forall i :: 0 <= i < |sent| ==> sent[i] == line
    ensures ok ==> ReplyAt(replies, |sent| - 1) == ack
    ensures !ok ==> |sent| == HandshakeRetries
    ensures forall j :: 0 <= j < |sent| - 1 ==> ReplyAt(replies, j) != ack
  {
    ok, sent := SendWithRetries(line, EqualsAck(ack), replies, HandshakeRetries);
    RetriesOutcome(line, EqualsAck(ack), replies, HandshakeRetries, ok, sent);
    forall j | 0 <= j < |sent| - 1 ensures ReplyAt(replies, j) != ack {
      assert !AckedAt(EqualsAck(ack), replies, j);
    }
  }

  /** The handshake's verdict and every line it wrote, in order. */
  datatype Handshake = Handshake(ok: bool, sent: seq<string>)

  /** Writes spent on the window setting: none for the default window. */
  function WindowWrites(window: int, replies: seq<string>): (n: nat)
    ensures n <= ConfigRetries
  {
    if window != DefaultWindow then Exchange(StartsWithAck(WindowAck), replies, 0, ConfigRetries).writes else 0
  }

  /** Writes spent on the stride setting, after the window's. */
  function StrideWrites(window: int, stride: int, replies: seq<string>): (n: nat)
    ensures n <= ConfigRetries
  {
    if stride != DefaultStride
    then Exchange(StartsWithAck(StrideAck), replies, WindowWrites(window, replies), ConfigRetries).writes
    else 0
  }

  /** Where the RESET exchange starts reading. */
  function ResetFrom(window: int, stride: int, replies: seq<string>): nat {
    WindowWrites(window, replies) + StrideWrites(window, stride, replies)
  }

  /** A setting line starts `SET`, which neither RESET nor START does. */
  lemma ConfigLineIsNotHandshake(prefix: string, value: int)
    requires |prefix| >= 3 && prefix[..3] == "SET"
    ensures ConfigLine(prefix, value) != StartLine && ConfigLine(prefix, value) != ResetLine
  {
    var line := ConfigLine(prefix, value);
    assert line[1] == prefix[1] == 'E' && line[2] == prefix[2] == 'T';
    assert StartLine[1] == 'T' && ResetLine[2] == 'S';
  }

  /** The lines written before RESET. */
  function SettingLines(window: int, stride: int, replies: seq<string>): (lines: seq<string>)
    ensures |lines| == ResetFrom(window, stride, replies)
    ensures StartLine !in lines && ResetLine !in lines
  {
    var a, b := ConfigLine("SET_WINDOW", window), ConfigLine("SET_STRIDE", stride);
    var lines := Repeat(a, WindowWrites(window, replies)) + Repeat(b, StrideWrites(window, stride, replies));
    ConfigLineIsNotHandshake("SET_WINDOW", window);
    ConfigLineIsNotHandshake("SET_STRIDE", stride);
    assert forall x :: x in lines ==> x == a || x == b;
    lines
  }

  /** RESET was acknowledged (exactly) within its five attempts. */
  predicate ResetAcked(window: int, stride: int, replies: seq<string>) {
    ResetOutcome(window, stride, replies).ok
  }

  /** The RESET exchange, read from where the settings left off. */
  function ResetOutcome(window: int, stride: int, replies: seq<string>): Outcome {
    Exchange(EqualsAck(ResetAck), replies, ResetFrom(window, stride, replies), HandshakeRetries)
  }

  /** The START exchange, read from where RESET left off. */
  function StartOutcome(window: int, stride: int, replies: seq<string>): Outcome {
    Exchange(EqualsAck(StartAck), replies, ResetFrom(window, stride, replies) + ResetOutcome(window, stride, replies).writes, HandshakeRetries)
  }

  /**
   * `session_handshake(window, stride)`: set the window if it is not 3 and the
   * stride if it is not 2 (a failure only logs a warning), then RESET, then
   * START; the session starts only if both are acknowledged.
   */
  function SessionHandshake(window: int, stride: int, replies: seq<string>): (r: Handshake)
    ensures |r.sent| <= 2 * ConfigRetries + 2 * HandshakeRetries
    ensures ResetFrom(window, stride, replies) < |r.sent| && r.sent[ResetFrom(window, stride, replies)] == ResetLine
    ensures r.sent[..ResetFrom(window, stride, replies)] == SettingLines(window, stride, replies)
    ensures !ResetAcked(window, stride, replies) ==> !r.ok && StartLine !in r.sent
    ensures r.ok ==> ResetAcked(window, stride, replies) && r.sent[|r.sent| - 1] == StartLine
  {
    var reset := ResetOutcome(window, stride, replies);
    var settings := SettingLines(window, stride, replies);
    if !reset.ok then Handshake(false, HandshakeLines(settings, reset.writes, 0))
    else
      var start := StartOutcome(window, stride, replies);
      Handshake(start.ok, HandshakeLines(settings, reset.writes, start.writes))
  }

  /** The setting lines, then RESET and START as often as each was written. */
  function HandshakeLines(settings: seq<string>, resets: nat, starts: nat): (sent: seq<string>)
    ensures |sent| == |settings| + resets + starts
    ensures sent[..|settings|] == settings
    ensures resets >= 1 ==> sent[|settings|] == ResetLine
    ensures starts == 0 && StartLine !in settings ==> StartLine !in sent
    ensures starts >= 1 ==> sent[|sent| - 1] == StartLine
  {
    var sent := settings + Repeat(ResetLine, resets) + Repeat(StartLine, starts);
    assert sent[..|settings|] == settings;
    sent
  }

  /** One RESET and one START, with no settings before them. */
  lemma OneResetOneStart()
    ensures HandshakeLines([], 1, 1) == [ResetLine, StartLine]
  {
    var sent := HandshakeLines([], 1, 1);
    assert |sent| == 2 && sent[0] == ResetLine && sent[1] == StartLine;
  }

  /** With the default window and stride no setting is sent: the handshake is RESET then START. */
  lemma DefaultHandshake(replies: seq<string>)
    ensures var reset := Exchange(EqualsAck(ResetAck), replies, 0, HandshakeRetries);
            var start := Exchange(EqualsAck(StartAck), replies, reset.writes, HandshakeRetries);
            SessionHandshake(DefaultWindow, DefaultStride, replies)
               == if reset.ok then Handshake(start.ok, HandshakeLines([], reset.writes, start.writes))
                  else Handshake(false, HandshakeLines([], reset.writes, 0))
  {
    var from := ResetFrom(DefaultWindow, DefaultStride, replies);
    assert from == 0;
    assert SettingLines(DefaultWindow, DefaultStride, replies) == [];
    var reset := Exchange(EqualsAck(ResetAck), replies, 0, HandshakeRetries);
    assert ResetOutcome(DefaultWindow, DefaultStride, replies) == reset;
    assert StartOutcome(DefaultWindow, DefaultStride, replies)
        == Exchange(EqualsAck(StartAck), replies, reset.writes, HandshakeRetries);
  }

  /** The first line of the handshake: the window, else the stride, else RESET. */
  lemma HandshakeFirstLine(window: int, stride: int, replies: seq<string>)
    ensures var first := SessionHandshake(window, stride, replies).sent[0];
            && (window != DefaultWindow ==> first == ConfigLine("SET_WINDOW", window))
            && (window == DefaultWindow && stride != DefaultStride ==> first == ConfigLine("SET_STRIDE", stride))
            && (window == DefaultWindow && stride == DefaultStride ==> first == ResetLine)
  {
    var r := SessionHandshake(window, stride, replies);
    var from := ResetFrom(window, stride, replies);
    var settings := SettingLines(window, stride, replies);
    if from > 0 {
      assert r.sent[0] == r.sent[..from][0] == settings[0];
    }
  }

  /** The handshake succeeds exactly when RESET and then START are acknowledged. */
  lemma HandshakeSucceedsIff(window: int, stride: int, replies: seq<string>)
    ensures SessionHandshake(window, stride, replies).ok
            <==> ResetAcked(window, stride, replies) && StartOutcome(window, stride, replies).ok
  {
  }

  /** With the default window and stride, a receiver that acknowledges at once starts after two writes. */
  lemma PromptReceiverStarts(raw: seq<string>)
    requires |raw| >= 2 && Strip(raw[0]) == ResetAck && Strip(raw[1]) == StartAck
    ensures SessionHandshake(DefaultWindow, DefaultStride, Received(raw)) == Handshake(true, [ResetLine, StartLine])
  {
    var replies := Received(raw);
    DefaultHandshake(replies);
    assert AckedAt(EqualsAck(ResetAck), replies, 0);
    assert Exchange(EqualsAck(ResetAck), replies, 0, HandshakeRetries) == Outcome(true, 1);
    assert AckedAt(EqualsAck(StartAck), replies, 1);
    assert Exchange(EqualsAck(StartAck), replies, 1, HandshakeRetries) == Outcome(true, 1);
    OneResetOneStart();
  }

  /** The fields of a step line, in the order `handle_step` returns them. */
  datatype StepReading = StepReading(bpm: real, instantBpm: real, ts: int, foot: int)

  /**
   * `handle_step`: exactly four comma-separated fields `ts,foot,instant,avg`;
   * an average of 0 stands for "no estimate yet" and is replaced by the
   * current walking BPM. `None` is the `ValueError` the source raises.
   */
  function ParseStepLine(line: string, walkingBpm: real): (r: Option<StepReading>)
    ensures r.Some? ==> |Split(Strip(line), ',')| == 4
    ensures r.Some? ==> var parts := Split(Strip(line), ',');
              && Numeric.ParseInt(parts[0]) == Some(r.value.ts)
              && Numeric.ParseInt(parts[1]) == Some(r.value.foot)
              && Numeric.ParseReal(parts[2]) == Some(r.value.instantBpm)
              && Numeric.ParseReal(parts[3]).Some?
              && r.value.bpm == (if Numeric.ParseReal(parts[3]).value == 0.0 then walkingBpm else Numeric.ParseReal(parts[3]).value)
    ensures r.None? <==> |Split(Strip(line), ',')| != 4
                         || Numeric.ParseInt(Split(Strip(line), ',')[0]).None?
                         || Numeric.ParseInt(Split(Strip(line), ',')[1]).None?
                         || Numeric.ParseReal(Split(Strip(line), ',')[2]).None?
                         || Numeric.ParseReal(Split(Strip(line), ',')[3]).None?
  {
    var parts := Split(Strip(line), ',');
    if |parts| != 4 then None
    else
      var ts := Numeric.ParseInt(parts[0]);
      var foot := Numeric.ParseInt(parts[1]);
      var instant := Numeric.ParseReal(parts[2]);
      var avg := Numeric.ParseReal(parts[3]);
      if ts.None? || foot.None? || instant.None? || avg.None? then None
      else Some(StepReading(if avg.value == 0.0 then walkingBpm else avg.value, instant.value, ts.value, foot.value))
  }

  /** The receiver's rendering of a step: integers, then two decimals `<whole>.<frac>`. */
  function StepLine(ts: int, foot: int, instantWhole: string, instantFrac: string, avgWhole: string, avgFrac: string): string {
    Join([Numeric.ShowInt(ts), Numeric.ShowInt(foot), instantWhole + "." + instantFrac, avgWhole + "." + avgFrac], ',')
  }

  /** The fields of a rendered step line. */
  function StepFields(ts: int, foot: int, iw: string, i_f: string, aw: string, af: string): seq<string> {
    [Numeric.ShowInt(ts), Numeric.ShowInt(foot), iw + "." + i_f, aw + "." + af]
  }

  /** Splitting the stripped rendering at its commas gives the four fields back. */
  lemma StepLineSplits(ts: int, foot: int, iw: string, i_f: string, aw: string, af: string)
    requires Numeric.AllDigits(iw) && Numeric.AllDigits(i_f)
    requires Numeric.AllDigits(aw) && 0 < |af| && Numeric.AllDigits(af)
    ensures Split(Strip(StepLine(ts, foot, iw, i_f, aw, af)), ',') == StepFields(ts, foot, iw, i_f, aw, af)
  {
    var parts := StepFields(ts, foot, iw, i_f, aw, af);
    NoCommaInShowInt(ts);
    NoCommaInShowInt(foot);
    NoCommaInDecimal(iw, i_f);
    NoCommaInDecimal(aw, af);
    Numeric.ShowIntStripped(ts);
    var d := parts[3];
    assert Numeric.IsDigit(d[|d| - 1]);
    SplitFour(parts[0], parts[1], parts[2], parts[3]);
  }

  /**
   * Four comma-free fields joined by commas split back into themselves, once
   * stripped, if the line does not start or end with whitespace.
   */
  lemma SplitFour(a: string, b: string, c: string, d: string)
    requires ',' !in a && ',' !in b && ',' !in c && ',' !in d
    requires a != [] && !IsSpace(a[0]) && d != [] && !IsSpace(d[|d| - 1])
    ensures Split(Strip(Join([a, b, c, d], ',')), ',') == [a, b, c, d]
  {
    var parts := [a, b, c, d];
    assert forall i :: 0 <= i < |parts| ==> ',' !in parts[i];
    SplitJoin(parts, ',');
    var line := Join(parts, ',');
    JoinFourEnds(a, b, c, d);
    StripOfStripped(line);
  }

  /** The joined line starts where `a` starts and ends where `d` ends. */
  lemma JoinFourEnds(a: string, b: string, c: string, d: string)
    requires a != [] && d != []
    ensures var line := Join([a, b, c, d], ',');
            line != [] && line[0] == a[0] && line[|line| - 1] == d[|d| - 1]
  {
    JoinFour(a, b, c, d);
  }

  lemma JoinFour(a: string, b: string, c: string, d: string)
    ensures Join([a, b, c, d], ',') == a + [','] + (b + [','] + (c + [','] + d))
  {
    assert [a, b, c, d][1..] == [b, c, d] && [b, c, d][1..] == [c, d] && [c, d][1..] == [d];
    assert Join([c, d], ',') == c + [','] + d;
    assert Join([b, c, d], ',') == b + [','] + (c + [','] + d);
  }

  /** Parsing a rendered step line gives its fields back (with the zero-average fallback). */
  lemma StepLineRoundTrip(ts: int, foot: int, iw: string, i_f: string, aw: string, af: string, walkingBpm: real)
    requires 0 < |iw| && Numeric.AllDigits(iw) && Numeric.AllDigits(i_f)
    requires 0 < |aw| && Numeric.AllDigits(aw) && 0 < |af| && Numeric.AllDigits(af)
    ensures var avg := Numeric.DecimalValue(aw, af);
            ParseStepLine(StepLine(ts, foot, iw, i_f, aw, af), walkingBpm)
            == Some(StepReading(if avg == 0.0 then walkingBpm else avg, Numeric.DecimalValue(iw, i_f), ts, foot))
  {
    StepLineSplits(ts, foot, iw, i_f, aw, af);
    Numeric.ParseShowInt(ts);
    Numeric.ParseShowInt(foot);
    Numeric.ParseRealDecimal(iw, i_f);
    Numeric.ParseRealDecimal(aw, af);
  }

  lemma NoCommaInShowInt(n: int)
    ensures ',' !in Numeric.ShowInt(n)
  {
    var s := Numeric.ShowInt(n);
    if n < 0 {
      assert s == "-" + Numeric.ShowNat(-n);
      assert forall i :: 1 <= i < |s| ==> Numeric.IsDigit(s[i]);
    } else {
      assert forall i :: 0 <= i < |s| ==> Numeric.IsDigit(s[i]);
    }
  }

  lemma NoCommaInDecimal(whole: string, frac: string)
    requires Numeric.AllDigits(whole) && Numeric.AllDigits(frac)
    ensures ',' !in whole + "." + frac
  {
    var s := whole + "." + frac;
    assert forall i :: 0 <= i < |s| ==> Numeric.IsDigit(s[i]) || s[i] == '.';
  }

  /** What a GUI command asks the engine to do. */
  datatype EngineAction =
    | SetAlphaUp(alpha: real)
    | SetAlphaDown(alpha: real)
    | SetManualBpm(bpm: real)
    | ConfigureReceiver(prefix: string, value: int)
    | SetRandomSpan(span: real)
    | SetRandomGamified(enabled: bool)
    | SetRandomSimpleThreshold(threshold: real)
    | SetRandomSimpleSteps(steps: int)
    | SetRandomSimpleTimeout(timeout: real)
    | SwitchMode(mode: string)
    | SetHybridLockSteps(steps: int)
    | SetHybridUnlockTime(seconds: real)
    | SetHybridStabilityThreshold(bpm: real)
    | SetHybridUnlockThreshold(bpm: real)
    | Calibrate(margin: int)
    | InvalidFormat
    | NoAction
    | Quit

  /** A value that failed to parse is the logged `ValueError`. */
  function RealAction(val: string, f: real -> EngineAction): EngineAction {
    match Numeric.ParseReal(val)
    case Some(x) => f(x)
    case None => InvalidFormat
  }

  function IntAction(val: string, f: int -> EngineAction): EngineAction {
    match Numeric.ParseInt(val)
    case Some(n) => f(n)
    case None => InvalidFormat
  }

  /** The margin of `CAL_WEIGHT`: 200 for an empty value. */
  const EmptyCalibrationMargin: int := 200

  /** The keys of the `KEY:VALUE` dispatch; any other key is ignored. */
  datatype SettingKey =
    | AlphaUpKey | AlphaDownKey | ManualBpmKey | WindowKey | StrideKey
    | RandomSpanKey | RandomGamifiedKey | RandomSimpleThresholdKey | RandomSimpleStepsKey
    | RandomSimpleTimeoutKey | ModeKey | HybridLockStepsKey | HybridUnlockTimeKey
    | HybridStabilityThresholdKey | HybridUnlockThresholdKey | CalWeightKey | OtherKey

  /**
   * Which branch of the dispatch an upper-cased key selects. The source tests
   * the keys one after another; as no two keys are equal, testing only the keys
   * of the same length as `key` selects the same branch.
   */
  function KeyOf(key: string): SettingKey {
    match |key|
    case 8 => if key == "SET_MODE" then ModeKey else OtherKey
    case 10 =>
      if key == "SET_WINDOW" then WindowKey
      else if key == "SET_STRIDE" then StrideKey
      else if key == "CAL_WEIGHT" then CalWeightKey
      else OtherKey
    case 12 => if key == "SET_ALPHA_UP" then AlphaUpKey else OtherKey
    case 14 =>
      if key == "SET_ALPHA_DOWN" then AlphaDownKey
      else if key == "SET_MANUAL_BPM" then ManualBpmKey
      else OtherKey
    case 15 => if key == "SET_RANDOM_SPAN" then RandomSpanKey else OtherKey
    case 19 => if key == "SET_RANDOM_GAMIFIED" then RandomGamifiedKey else OtherKey
    case 21 => if key == "SET_HYBRID_LOCK_STEPS" then HybridLockStepsKey else OtherKey
    case 22 => if key == "SET_HYBRID_UNLOCK_TIME" then HybridUnlockTimeKey else OtherKey
    case 23 => if key == "SET_RANDOM_SIMPLE_STEPS" then RandomSimpleStepsKey else OtherKey
    case 25 => if key == "SET_RANDOM_SIMPLE_TIMEOUT" then RandomSimpleTimeoutKey else OtherKey
    case 27 =>
      if key == "SET_RANDOM_SIMPLE_THRESHOLD" then RandomSimpleThresholdKey
      else if key == "SET_HYBRID_UNLOCK_THRESHOLD" then HybridUnlockThresholdKey
      else OtherKey
    case 30 => if key == "SET_HYBRID_STABILITY_THRESHOLD" then HybridStabilityThresholdKey else OtherKey
    case _ => OtherKey
  }

  /** The keys of equal length are told apart. */
  lemma ReceiverKeys()
    ensures KeyOf("SET_WINDOW") == WindowKey && KeyOf("SET_STRIDE") == StrideKey
  {
    assert "SET_WINDOW"[4] != "SET_STRIDE"[4];
  }

  /** The float and integer setting keys of the GUI, each classified as itself. */
  lemma UpdateKeys()
    ensures KeyOf("SET_MANUAL_BPM") == ManualBpmKey && KeyOf("SET_ALPHA_DOWN") == AlphaDownKey
    ensures KeyOf("SET_ALPHA_UP") == AlphaUpKey && KeyOf("SET_RANDOM_SPAN") == RandomSpanKey
    ensures KeyOf("SET_RANDOM_SIMPLE_TIMEOUT") == RandomSimpleTimeoutKey
    ensures KeyOf("SET_HYBRID_UNLOCK_TIME") == HybridUnlockTimeKey
    ensures KeyOf("SET_HYBRID_STABILITY_THRESHOLD") == HybridStabilityThresholdKey
    ensures KeyOf("SET_RANDOM_SIMPLE_STEPS") == RandomSimpleStepsKey
    ensures KeyOf("SET_HYBRID_LOCK_STEPS") == HybridLockStepsKey
  {
    assert "SET_ALPHA_DOWN"[4] != "SET_MANUAL_BPM"[4];
  }

  lemma ThresholdKeys()
    ensures KeyOf("SET_RANDOM_SIMPLE_THRESHOLD") == RandomSimpleThresholdKey
    ensures KeyOf("SET_HYBRID_UNLOCK_THRESHOLD") == HybridUnlockThresholdKey
  {
    assert "SET_HYBRID_UNLOCK_THRESHOLD"[4] != "SET_RANDOM_SIMPLE_THRESHOLD"[4];
  }

  /**
   * The `KEY:VALUE` dispatch, for an upper-cased key. The random-game setters
   * are only called (and their value only parsed) when the estimator has them.
   */
  function Dispatch(key: string, val: string, hasRandomSetters: bool): (r: EngineAction)
    ensures r != Quit
    ensures key == "CAL_WEIGHT" && val == "" ==> r == Calibrate(EmptyCalibrationMargin)
    ensures key == "SET_MODE" ==> r == SwitchMode(Lower(val))
  {
    assert KeyOf("SET_MODE") == ModeKey && KeyOf("CAL_WEIGHT") == CalWeightKey;
    match KeyOf(key)
    case AlphaUpKey => RealAction(val, x => SetAlphaUp(x))
    case AlphaDownKey => RealAction(val, x => SetAlphaDown(x))
    case ManualBpmKey => RealAction(val, x => SetManualBpm(x))
    case WindowKey => IntAction(val, n => ConfigureReceiver("SET_WINDOW", n))
    case StrideKey => IntAction(val, n => ConfigureReceiver("SET_STRIDE", n))
    case RandomSpanKey =>
      if hasRandomSetters then RealAction(val, x => SetRandomSpan(x)) else NoAction
    case RandomGamifiedKey =>
      if hasRandomSetters then IntAction(val, n => SetRandomGamified(n == 1)) else NoAction
    case RandomSimpleThresholdKey =>
      if hasRandomSetters then RealAction(val, x => SetRandomSimpleThreshold(x)) else NoAction
    case RandomSimpleStepsKey =>
      if hasRandomSetters then IntAction(val, n => SetRandomSimpleSteps(n)) else NoAction
    case RandomSimpleTimeoutKey =>
      if hasRandomSetters then RealAction(val, x => SetRandomSimpleTimeout(x)) else NoAction
    case ModeKey => SwitchMode(Lower(val))
    case HybridLockStepsKey => IntAction(val, n => SetHybridLockSteps(n))
    case HybridUnlockTimeKey => RealAction(val, x => SetHybridUnlockTime(x))
    case HybridStabilityThresholdKey => RealAction(val, x => SetHybridStabilityThreshold(x))
    case HybridUnlockThresholdKey => RealAction(val, x => SetHybridUnlockThreshold(x))
    case CalWeightKey =>
      if val == "" then Calibrate(EmptyCalibrationMargin) else IntAction(val, n => Calibrate(n))
    case OtherKey => NoAction
  }

  /**
   * `handle_engine_command`: split at the first ':' and upper-case the key;
   * without a ':' only the exact text `QUIT` means anything.
   */
  function HandleEngineCommand(cmd: string, hasRandomSetters: bool): (r: EngineAction)
    ensures r == Quit <==> cmd == "QUIT"
    ensures ':' !in cmd && cmd != "QUIT" ==> r == NoAction
    ensures ':' in cmd ==> var parts := SplitN(cmd, ':', 1);
              |parts| == 2 && r == Dispatch(Upper(parts[0]), parts[1], hasRandomSetters)
  {
    if ':' in cmd then
      var parts := SplitN(cmd, ':', 1);
      Dispatch(Upper(parts[0]), parts[1], hasRandomSetters)
    else if cmd == "QUIT" then Quit
    else NoAction
  }

  /** The loop stops only for `QUIT`. */
  predicate Quits(cmd: string) {
    HandleEngineCommand(cmd, false).Quit?
  }

  /** A colon-free key without lower-case letters reaches the dispatch as written. */
  lemma KeyCommand(key: string, val: string, hasRandomSetters: bool)
    requires ':' !in key && forall i :: 0 <= i < |key| ==> !('a' <= key[i] <= 'z')
    ensures HandleEngineCommand(key + ":" + val, hasRandomSetters) == Dispatch(key, val, hasRandomSetters)
  {
    CommandKeyValue(key, val, hasRandomSetters);
    UpperFixed(key);
  }

  /** `SET_WINDOW:n` and `SET_STRIDE:n` configure the receiver with `n`. */
  lemma DispatchReceiver(window: bool, n: int, hasRandomSetters: bool)
    ensures var key := if window then "SET_WINDOW" else "SET_STRIDE";
            Dispatch(key, Numeric.ShowInt(n), hasRandomSetters) == ConfigureReceiver(key, n)
  {
    ReceiverKeys();
    Numeric.ParseShowInt(n);
  }

  /** `SET_RANDOM_GAMIFIED:1|0` sets the gamified flag on an estimator that has the setter. */
  lemma DispatchGamified(enabled: bool)
    ensures Dispatch("SET_RANDOM_GAMIFIED", if enabled then "1" else "0", true) == SetRandomGamified(enabled)
  {
    Numeric.ParseShowInt(if enabled then 1 else 0);
    assert Numeric.ShowInt(if enabled then 1 else 0) == if enabled then "1" else "0";
  }

  /** The key is read case-insensitively, and the value is everything after the first ':'. */
  lemma CommandKeyValue(key: string, val: string, hasRandomSetters: bool)
    requires ':' !in key
    ensures HandleEngineCommand(key + ":" + val, hasRandomSetters) == Dispatch(Upper(key), val, hasRandomSetters)
    ensures HandleEngineCommand(Lower(key) + ":" + val, hasRandomSetters) == Dispatch(Upper(key), val, hasRandomSetters)
  {
    SplitOnceAfterPrefix(key, val, ':');
    assert key + ":" + val == key + [':'] + val;
    var low := Lower(key);
    assert ':' !in low by {
      forall i | 0 <= i < |low| ensures low[i] != ':' { assert key[i] != ':'; }
    }
    SplitOnceAfterPrefix(low, val, ':');
    assert low + ":" + val == low + [':'] + val;
    assert Upper(low) == Upper(key);
    assert ':' in key + ":" + val && ':' in low + ":" + val;
  }

  /** The effect of a command on the estimator; the others act on the receiver or on other modes. */
  function ApplyToEstimator(e: BpmEstimation.Estimator, action: EngineAction): (r: BpmEstimation.Estimator)
    ensures action.SetAlphaUp? ==> r == BpmEstimation.SetAlphaUp(e, action.alpha)
    ensures action.SetAlphaDown? ==> r == BpmEstimation.SetAlphaDown(e, action.alpha)
    ensures action.SetManualBpm? ==> r.pendingManualBpm == Some(action.bpm)
    ensures action == SwitchMode("manual") ==> r.manualMode
    ensures !action.SetAlphaUp? && !action.SetAlphaDown? && !action.SetManualBpm? && action != SwitchMode("manual") ==> r == e
    ensures BpmEstimation.Valid(e) ==> BpmEstimation.Valid(r)
  {
    match action
    case SetAlphaUp(a) => BpmEstimation.SetAlphaUp(e, a)
    case SetAlphaDown(a) => BpmEstimation.SetAlphaDown(e, a)
    case SetManualBpm(b) => BpmEstimation.SetManualBpm(e, Some(b))
    case SwitchMode(m) => if m == "manual" then BpmEstimation.SetManualMode(e, true) else e
    case _ => e
  }
}
