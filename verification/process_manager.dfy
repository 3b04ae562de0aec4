/**
 * The GUI's handle on the engine process: the command line it launches the
 * engine with, the classification of the engine's standard-output lines, and
 * the `KEY:VALUE` command strings it writes to the engine's standard input.
 *
 * Numbers are rendered by `str()`; float rendering is not modelled, so a
 * number arrives as its value together with its text.
 */
module ProcessManager {
  import opened Wrappers
  import opened Text
  import Numeric
  import Comms
  import GuiCommands

  /** A number and the text `str()` renders it as. */
  datatype Num = Num(value: real, text: string)

  /** Python truthiness of an optional number: present and non-zero. */
  predicate TruthyNum(n: Option<Num>) {
    n.Some? && n.value.value != 0.0
  }

  /** Python truthiness of an optional string: present and non-empty. */
  predicate TruthyText(s: Option<string>) {
    s.Some? && s.value != ""
  }

  /** The constructor's arguments. */
  datatype Launch = Launch(
    python: string,
    midiPath: string,
    manualMode: bool,
    manualBpm: Option<Num>,
    serialPort: Option<string>,
    smoothingWindow: Option<Num>,
    stride: Option<Num>,
    alphaUp: Option<Num>,
    alphaDown: Option<Num>,
    sessionName: Option<string>,
    hybridMode: bool,
    randomMode: bool,
    randomSpan: Option<Num>,
    hybridLockSteps: Option<Num>,
    hybridUnlockTime: Option<Num>,
    hybridStabilityThreshold: Option<Num>,
    hybridUnlockThreshold: Option<Num>,
    randomGamified: Option<bool>,
    randomSimpleThreshold: Option<Num>,
    randomSimpleSteps: Option<Num>,
    randomSimpleTimeout: Option<Num>)

  /** The engine's command-line flags. */
  datatype Flag =
    | Manual | Bpm | SerialPort | Smoothing | Stride | AlphaUp | AlphaDown | SessionName
    | Hybrid | HybridLockSteps | HybridUnlockTime | HybridStabilityThreshold | HybridUnlockThreshold
    | Random | RandomSpan | RandomGamified | RandomSimpleThreshold | RandomSimpleSteps | RandomSimpleTimeout

  function FlagName(f: Flag): string {
    match f
    case Manual => "--manual"
    case Bpm => "--bpm"
    case SerialPort => "--serial-port"
    case Smoothing => "--smoothing"
    case Stride => "--stride"
    case AlphaUp => "--alpha-up"
    case AlphaDown => "--alpha-down"
    case SessionName => "--session-name"
    case Hybrid => "--hybrid"
    case HybridLockSteps => "--hybrid-lock-steps"
    case HybridUnlockTime => "--hybrid-unlock-time"
    case HybridStabilityThreshold => "--hybrid-stability-threshold"
    case HybridUnlockThreshold => "--hybrid-unlock-threshold"
    case Random => "--random"
    case RandomSpan => "--random-span"
    case RandomGamified => "--random-gamified"
    case RandomSimpleThreshold => "--random-simple-threshold"
    case RandomSimpleSteps => "--random-simple-steps"
    case RandomSimpleTimeout => "--random-simple-timeout"
  }

  /** One element of the command line: a positional word, a bare flag, or a flag with its value. */
  datatype Arg = Word(text: string) | Switch(flag: Flag) | Valued(flag: Flag, value: string)

  /** The words the process receives. */
  function Flatten(args: seq<Arg>): (argv: seq<string>)
    ensures |argv| >= |args|
  {
    if |args| == 0 then []
    else
      var head := match args[0]
        case Word(t) => [t]
        case Switch(f) => [FlagName(f)]
        case Valued(f, v) => [FlagName(f), v];
      head + Flatten(args[1..])
  }

  /** The value of the first occurrence of flag `f`. */
  function ValueOf(args: seq<Arg>, f: Flag): Option<string> {
    if |args| == 0 then None
    else if args[0].Valued? && args[0].flag == f then Some(args[0].value)
    else ValueOf(args[1..], f)
  }

  /** Whether the bare flag `f` is present. */
  predicate HasSwitch(args: seq<Arg>, f: Flag) {
    Switch(f) in args
  }

  /** The groups `__init__` appends flags in, in order. */
  datatype Group = ManualGroup | ConnectionGroup | HybridGroup | RandomGroup

  function GroupOf(f: Flag): Group {
    match f
    case Manual | Bpm => ManualGroup
    case Hybrid | HybridLockSteps | HybridUnlockTime | HybridStabilityThreshold | HybridUnlockThreshold => HybridGroup
    case Random | RandomSpan | RandomGamified | RandomSimpleThreshold | RandomSimpleSteps | RandomSimpleTimeout => RandomGroup
    case _ => ConnectionGroup
  }

  /** Every element is a flag of group `g`. */
  predicate InGroup(args: seq<Arg>, g: Group) {
    forall i :: 0 <= i < |args| ==> !args[i].Word? && GroupOf(args[i].flag) == g
  }

  lemma InGroupAppend(a: seq<Arg>, b: seq<Arg>, g: Group)
    requires InGroup(a, g) && InGroup(b, g)
    ensures InGroup(a + b, g)
  {
    assert forall i :: |a| <= i < |a + b| ==> (a + b)[i] == b[i - |a|];
  }

  /** `--flag value` when the number is given (`is not None`). */
  function OptNum(f: Flag, n: Option<Num>): (args: seq<Arg>)
    ensures InGroup(args, GroupOf(f))
  {
    if n.Some? then [Valued(f, n.value.text)] else []
  }

  /** `--flag value` when the number is truthy (`if n:`). */
  function IfNum(f: Flag, n: Option<Num>): (args: seq<Arg>)
    ensures InGroup(args, GroupOf(f))
  {
    if TruthyNum(n) then [Valued(f, n.value.text)] else []
  }

  /** `--flag value` when the string is truthy. */
  function IfText(f: Flag, s: Option<string>): (args: seq<Arg>)
    ensures InGroup(args, GroupOf(f))
  {
    if TruthyText(s) then [Valued(f, s.value)] else []
  }

  /** The text an optional number contributes. */
  function TextOf(n: Option<Num>): Option<string> {
    if n.Some? then Some(n.value.text) else None
  }

  /** Looking up flag `g` in what one optional flag `f` contributes. */
  lemma OptNumValue(f: Flag, n: Option<Num>, g: Flag)
    ensures ValueOf(OptNum(f, n), g) == if f == g then TextOf(n) else None
  {
  }

  lemma IfNumValue(f: Flag, n: Option<Num>, g: Flag)
    ensures ValueOf(IfNum(f, n), g) == if f == g && TruthyNum(n) then Some(n.value.text) else None
  {
  }

  lemma IfTextAbsent(f: Flag, s: Option<string>, g: Flag)
    requires f != g
    ensures ValueOf(IfText(f, s), g).None?
  {
  }

  function ManualArgs(c: Launch): (args: seq<Arg>)
    ensures InGroup(args, ManualGroup)
  {
    if c.manualMode then [Switch(Manual)] + IfNum(Bpm, c.manualBpm) else []
  }

  /** The settings after the serial port, smoothing window and stride. */
  function ConnectionTail(c: Launch): (args: seq<Arg>)
    ensures InGroup(args, ConnectionGroup)
  {
    var up, down, name := OptNum(AlphaUp, c.alphaUp), OptNum(AlphaDown, c.alphaDown), IfText(SessionName, c.sessionName);
    InGroupAppend(down, name, ConnectionGroup);
    InGroupAppend(up, down + name, ConnectionGroup);
    up + (down + name)
  }

  function ConnectionArgs(c: Launch): (args: seq<Arg>)
    ensures InGroup(args, ConnectionGroup)
  {
    var port, w, s := IfText(SerialPort, c.serialPort), OptNum(Smoothing, c.smoothingWindow), OptNum(Stride, c.stride);
    InGroupAppend(s, ConnectionTail(c), ConnectionGroup);
    InGroupAppend(w, s + ConnectionTail(c), ConnectionGroup);
    InGroupAppend(port, w + (s + ConnectionTail(c)), ConnectionGroup);
    port + (w + (s + ConnectionTail(c)))
  }

  /** The hybrid settings after `--hybrid`. */
  function HybridSettings(c: Launch): (args: seq<Arg>)
    ensures InGroup(args, HybridGroup)
  {
    var a, b := OptNum(HybridLockSteps, c.hybridLockSteps), OptNum(HybridUnlockTime, c.hybridUnlockTime);
    var d, e := OptNum(HybridStabilityThreshold, c.hybridStabilityThreshold), OptNum(HybridUnlockThreshold, c.hybridUnlockThreshold);
    InGroupAppend(d, e, HybridGroup);
    InGroupAppend(b, d + e, HybridGroup);
    InGroupAppend(a, b + (d + e), HybridGroup);
    a + (b + (d + e))
  }

  function HybridArgs(c: Launch): (args: seq<Arg>)
    ensures InGroup(args, HybridGroup)
  {
    if c.hybridMode then [Switch(Hybrid)] + HybridSettings(c) else []
  }

  /** `--random-gamified 1|0` when the setting is given. */
  function GamifiedArg(g: Option<bool>): (args: seq<Arg>)
    ensures InGroup(args, RandomGroup)
  {
    if g.Some? then [Valued(RandomGamified, if g.value then "1" else "0")] else []
  }

  /** The simple-game settings after `--random-gamified`. */
  function RandomSimple(c: Launch): (args: seq<Arg>)
    ensures InGroup(args, RandomGroup)
  {
    var a, b, d := OptNum(RandomSimpleThreshold, c.randomSimpleThreshold), OptNum(RandomSimpleSteps, c.randomSimpleSteps),
                   OptNum(RandomSimpleTimeout, c.randomSimpleTimeout);
    InGroupAppend(b, d, RandomGroup);
    InGroupAppend(a, b + d, RandomGroup);
    a + (b + d)
  }

  function RandomArgs(c: Launch): (args: seq<Arg>)
    ensures InGroup(args, RandomGroup)
  {
    if c.randomMode then
      var span, g := IfNum(RandomSpan, c.randomSpan), GamifiedArg(c.randomGamified);
      InGroupAppend(g, RandomSimple(c), RandomGroup);
      InGroupAppend(span, g + RandomSimple(c), RandomGroup);
      InGroupAppend([Switch(Random)], span + (g + RandomSimple(c)), RandomGroup);
      [Switch(Random)] + (span + (g + RandomSimple(c)))
    else []
  }

  /** The command line built in `__init__`, group by group in the source's order. */
  function CommandArgs(c: Launch): (args: seq<Arg>)
    ensures |args| >= 3 && args[..3] == [Word(c.python), Word("main.py"), Word(c.midiPath)]
  {
    Words(c) + ManualArgs(c) + ConnectionArgs(c) + HybridArgs(c) + RandomArgs(c)
  }

  /** The argument vector always begins with the interpreter, `main.py` and the MIDI file. */
  lemma ArgvPrefix(c: Launch)
    ensures var argv := Flatten(CommandArgs(c));
            |argv| >= 3 && argv[..3] == [c.python, "main.py", c.midiPath]
  {
    WordsPrefix(CommandArgs(c), c.python, "main.py", c.midiPath);
  }

  /** Three leading words flatten to themselves, whatever follows. */
  lemma WordsPrefix(args: seq<Arg>, a: string, b: string, d: string)
    requires |args| >= 3 && args[..3] == [Word(a), Word(b), Word(d)]
    ensures |Flatten(args)| >= 3 && Flatten(args)[..3] == [a, b, d]
  {
    assert args[0] == Word(a) && args[1] == Word(b) && args[2] == Word(d);
    assert args[1..][0] == Word(b) && args[1..][1..] == args[2..];
    assert args[2..][0] == Word(d) && args[2..][1..] == args[3..];
    var rest := Flatten(args[3..]);
    assert Flatten(args[2..]) == [d] + rest;
    assert Flatten(args[1..]) == [b] + ([d] + rest);
    assert Flatten(args) == [a] + ([b] + ([d] + rest));
  }


  /** Looking a flag up in a concatenation looks in the first part, then the second. */
  lemma {:induction false} ValueOfAppend(a: seq<Arg>, b: seq<Arg>, f: Flag)
    ensures ValueOf(a + b, f) == if ValueOf(a, f).Some? then ValueOf(a, f) else ValueOf(b, f)
    decreases |a|
  {
    if |a| == 0 {
      assert a + b == b;
    } else {
      assert (a + b)[1..] == a[1..] + b;
      ValueOfAppend(a[1..], b, f);
    }
  }

  /** Where no element carries flag `f`, it has no value and is not a bare flag. */
  lemma {:induction false} FlagAbsent(args: seq<Arg>, f: Flag)
    requires forall i :: 0 <= i < |args| ==> args[i].Word? || args[i].flag != f
    ensures ValueOf(args, f).None? && !HasSwitch(args, f)
    decreases |args|
  {
    if |args| > 0 {
      FlagAbsent(args[1..], f);
      assert args == [args[0]] + args[1..];
    }
  }

  /** Flags of one group are absent from arguments made of other groups and words. */
  lemma OtherGroups(args: seq<Arg>, f: Flag)
    requires forall i :: 0 <= i < |args| ==> args[i].Word? || GroupOf(args[i].flag) != GroupOf(f)
    ensures ValueOf(args, f).None? && !HasSwitch(args, f)
  {
    FlagAbsent(args, f);
  }

  /** Arguments outside group `g`: words, or flags of other groups. */
  predicate Outside(args: seq<Arg>, g: Group) {
    forall i :: 0 <= i < |args| ==> args[i].Word? || GroupOf(args[i].flag) != g
  }

  lemma OutsideAppend(a: seq<Arg>, b: seq<Arg>, g: Group)
    requires Outside(a, g) && Outside(b, g)
    ensures Outside(a + b, g)
  {
    assert forall i :: |a| <= i < |a + b| ==> (a + b)[i] == b[i - |a|];
  }

  lemma InGroupOutside(args: seq<Arg>, g: Group, h: Group)
    requires InGroup(args, g) && g != h
    ensures Outside(args, h)
  {
  }

  /** A flag's value and presence are decided by the part of the arguments holding its group. */
  lemma Isolate(before: seq<Arg>, own: seq<Arg>, after: seq<Arg>, f: Flag)
    requires Outside(before, GroupOf(f)) && Outside(after, GroupOf(f))
    ensures ValueOf(before + own + after, f) == ValueOf(own, f)
    ensures HasSwitch(before + own + after, f) <==> HasSwitch(own, f)
  {
    assert before + own + after == before + (own + after);
    OtherGroups(before, f);
    OtherGroups(after, f);
    ValueOfAppend(before, own + after, f);
    ValueOfAppend(own, after, f);
    HasSwitchAppend(before, own + after, f);
    HasSwitchAppend(own, after, f);
  }

  function Words(c: Launch): seq<Arg> {
    [Word(c.python), Word("main.py"), Word(c.midiPath)]
  }

  /** The command line's layout: the words, then one part per group. */
  predicate Layout(w: seq<Arg>, m: seq<Arg>, n: seq<Arg>, h: seq<Arg>, r: seq<Arg>) {
    (forall i :: 0 <= i < |w| ==> w[i].Word?)
    && InGroup(m, ManualGroup) && InGroup(n, ConnectionGroup) && InGroup(h, HybridGroup) && InGroup(r, RandomGroup)
  }

  lemma CommandLayout(c: Launch)
    ensures Layout(Words(c), ManualArgs(c), ConnectionArgs(c), HybridArgs(c), RandomArgs(c))
    ensures CommandArgs(c) == Words(c) + ManualArgs(c) + ConnectionArgs(c) + HybridArgs(c) + RandomArgs(c)
  {
  }

  lemma InManual(w: seq<Arg>, m: seq<Arg>, n: seq<Arg>, h: seq<Arg>, r: seq<Arg>, f: Flag)
    requires Layout(w, m, n, h, r) && GroupOf(f) == ManualGroup
    ensures ValueOf(w + m + n + h + r, f) == ValueOf(m, f)
    ensures HasSwitch(w + m + n + h + r, f) <==> HasSwitch(m, f)
  {
    var g := ManualGroup;
    InGroupOutside(n, ConnectionGroup, g);
    InGroupOutside(h, HybridGroup, g);
    InGroupOutside(r, RandomGroup, g);
    OutsideAppend(n, h, g);
    OutsideAppend(n + h, r, g);
    assert w + m + n + h + r == w + m + (n + h + r);
    Isolate(w, m, n + h + r, f);
  }

  lemma InConnection(w: seq<Arg>, m: seq<Arg>, n: seq<Arg>, h: seq<Arg>, r: seq<Arg>, f: Flag)
    requires Layout(w, m, n, h, r) && GroupOf(f) == ConnectionGroup
    ensures ValueOf(w + m + n + h + r, f) == ValueOf(n, f)
  {
    var g := ConnectionGroup;
    InGroupOutside(m, ManualGroup, g);
    OutsideAppend(w, m, g);
    InGroupOutside(h, HybridGroup, g);
    InGroupOutside(r, RandomGroup, g);
    OutsideAppend(h, r, g);
    assert w + m + n + h + r == (w + m) + n + (h + r);
    Isolate(w + m, n, h + r, f);
  }

  lemma InHybrid(w: seq<Arg>, m: seq<Arg>, n: seq<Arg>, h: seq<Arg>, r: seq<Arg>, f: Flag)
    requires Layout(w, m, n, h, r) && GroupOf(f) == HybridGroup
    ensures ValueOf(w + m + n + h + r, f) == ValueOf(h, f)
    ensures HasSwitch(w + m + n + h + r, f) <==> HasSwitch(h, f)
  {
    var g := HybridGroup;
    InGroupOutside(m, ManualGroup, g);
    InGroupOutside(n, ConnectionGroup, g);
    OutsideAppend(w, m, g);
    OutsideAppend(w + m, n, g);
    InGroupOutside(r, RandomGroup, g);
    Isolate(w + m + n, h, r, f);
  }

  lemma InRandom(w: seq<Arg>, m: seq<Arg>, n: seq<Arg>, h: seq<Arg>, r: seq<Arg>, f: Flag)
    requires Layout(w, m, n, h, r) && GroupOf(f) == RandomGroup
    ensures ValueOf(w + m + n + h + r, f) == ValueOf(r, f)
    ensures HasSwitch(w + m + n + h + r, f) <==> HasSwitch(r, f)
  {
    var g := RandomGroup;
    InGroupOutside(m, ManualGroup, g);
    InGroupOutside(n, ConnectionGroup, g);
    InGroupOutside(h, HybridGroup, g);
    OutsideAppend(w, m, g);
    OutsideAppend(w + m, n, g);
    OutsideAppend(w + m + n, h, g);
    assert w + m + n + h + r == w + m + n + h + r + [];
    Isolate(w + m + n + h, r, [], f);
  }

  lemma HasSwitchAppend(a: seq<Arg>, b: seq<Arg>, f: Flag)
    ensures HasSwitch(a + b, f) <==> HasSwitch(a, f) || HasSwitch(b, f)
  {
  }

  /** `--bpm` is passed only after `--manual`, and only for a truthy BPM; `--manual` exactly in manual mode. */
  lemma ManualFlags(c: Launch)
    ensures ValueOf(CommandArgs(c), Bpm) == (if c.manualMode && TruthyNum(c.manualBpm) then Some(c.manualBpm.value.text) else None)
    ensures HasSwitch(CommandArgs(c), Manual) <==> c.manualMode
  {
    CommandLayout(c);
    InManual(Words(c), ManualArgs(c), ConnectionArgs(c), HybridArgs(c), RandomArgs(c), Bpm);
    InManual(Words(c), ManualArgs(c), ConnectionArgs(c), HybridArgs(c), RandomArgs(c), Manual);
    if c.manualMode {
      assert ManualArgs(c)[0] == Switch(Manual);
      IfNumValue(Bpm, c.manualBpm, Bpm);
      ValueOfAppend([Switch(Manual)], IfNum(Bpm, c.manualBpm), Bpm);
      assert Switch(Manual) !in IfNum(Bpm, c.manualBpm);
    }
  }

  /** `--smoothing` and `--stride` appear exactly when given, with their text. */
  lemma WindowAndStrideFlags(c: Launch)
    ensures ValueOf(CommandArgs(c), Smoothing) == TextOf(c.smoothingWindow)
    ensures ValueOf(CommandArgs(c), Stride) == TextOf(c.stride)
  {
    CommandLayout(c);
    InConnection(Words(c), ManualArgs(c), ConnectionArgs(c), HybridArgs(c), RandomArgs(c), Smoothing);
    InConnection(Words(c), ManualArgs(c), ConnectionArgs(c), HybridArgs(c), RandomArgs(c), Stride);
    var port, w, s, tail := IfText(SerialPort, c.serialPort), OptNum(Smoothing, c.smoothingWindow), OptNum(Stride, c.stride), ConnectionTail(c);
    IfTextAbsent(SerialPort, c.serialPort, Smoothing);
    IfTextAbsent(SerialPort, c.serialPort, Stride);
    OptNumValue(Smoothing, c.smoothingWindow, Smoothing);
    OptNumValue(Smoothing, c.smoothingWindow, Stride);
    OptNumValue(Stride, c.stride, Stride);
    ValueOfAppend(port, w + (s + tail), Smoothing);
    ValueOfAppend(w, s + tail, Smoothing);
    ValueOfAppend(port, w + (s + tail), Stride);
    ValueOfAppend(w, s + tail, Stride);
    ValueOfAppend(s, tail, Stride);
    OptNumValue(Stride, c.stride, Smoothing);
    ValueOfAppend(s, tail, Smoothing);
    TailLacks(c, Smoothing);
    TailLacks(c, Stride);
  }

  lemma TailLacks(c: Launch, f: Flag)
    requires f != AlphaUp && f != AlphaDown && f != SessionName
    ensures ValueOf(ConnectionTail(c), f).None?
  {
    var up, down, name := OptNum(AlphaUp, c.alphaUp), OptNum(AlphaDown, c.alphaDown), IfText(SessionName, c.sessionName);
    OptNumValue(AlphaUp, c.alphaUp, f);
    OptNumValue(AlphaDown, c.alphaDown, f);
    IfTextAbsent(SessionName, c.sessionName, f);
    ValueOfAppend(down, name, f);
    ValueOfAppend(up, down + name, f);
  }

  /** `--hybrid` is passed exactly in hybrid mode, and the hybrid settings only with it. */
  lemma HybridFlags(c: Launch, f: Flag)
    requires GroupOf(f) == HybridGroup
    ensures HasSwitch(CommandArgs(c), Hybrid) <==> c.hybridMode
    ensures !c.hybridMode ==> ValueOf(CommandArgs(c), f).None?
  {
    CommandLayout(c);
    InHybrid(Words(c), ManualArgs(c), ConnectionArgs(c), HybridArgs(c), RandomArgs(c), Hybrid);
    InHybrid(Words(c), ManualArgs(c), ConnectionArgs(c), HybridArgs(c), RandomArgs(c), f);
    if c.hybridMode {
      assert HybridArgs(c)[0] == Switch(Hybrid);
    }
  }

  /** `--random` is passed exactly in random mode. */
  lemma RandomSwitch(c: Launch)
    ensures HasSwitch(CommandArgs(c), Random) <==> c.randomMode
  {
    CommandLayout(c);
    InRandom(Words(c), ManualArgs(c), ConnectionArgs(c), HybridArgs(c), RandomArgs(c), Random);
    if c.randomMode {
      assert RandomArgs(c)[0] == Switch(Random);
    }
  }

  /**
   * The random settings reach the engine only with `--random`: the span when
   * it is truthy, the simple-game settings whenever they are given.
   */
  lemma RandomFlags(c: Launch, f: Flag)
    requires GroupOf(f) == RandomGroup
    ensures !c.randomMode ==> ValueOf(CommandArgs(c), f).None?
    ensures ValueOf(CommandArgs(c), RandomSpan)
            == if c.randomMode && TruthyNum(c.randomSpan) then Some(c.randomSpan.value.text) else None
    ensures ValueOf(CommandArgs(c), RandomSimpleThreshold) == if c.randomMode then TextOf(c.randomSimpleThreshold) else None
    ensures ValueOf(CommandArgs(c), RandomSimpleSteps) == if c.randomMode then TextOf(c.randomSimpleSteps) else None
    ensures ValueOf(CommandArgs(c), RandomSimpleTimeout) == if c.randomMode then TextOf(c.randomSimpleTimeout) else None
  {
    RandomValue(c, f);
    RandomValue(c, RandomSpan);
    RandomValue(c, RandomSimpleThreshold);
    RandomValue(c, RandomSimpleSteps);
    RandomValue(c, RandomSimpleTimeout);
    if c.randomMode {
      RandomArgsValues(c);
    }
  }

  /** A random-group flag's value on the whole command line is its value among the random arguments. */
  lemma RandomValue(c: Launch, f: Flag)
    requires GroupOf(f) == RandomGroup
    ensures ValueOf(CommandArgs(c), f) == ValueOf(RandomArgs(c), f)
  {
    CommandLayout(c);
    InRandom(Words(c), ManualArgs(c), ConnectionArgs(c), HybridArgs(c), RandomArgs(c), f);
  }

  /** Inside random mode, what each valued random flag carries. */
  lemma RandomArgsValues(c: Launch)
    requires c.randomMode
    ensures ValueOf(RandomArgs(c), RandomSpan) == if TruthyNum(c.randomSpan) then Some(c.randomSpan.value.text) else None
    ensures ValueOf(RandomArgs(c), RandomSimpleThreshold) == TextOf(c.randomSimpleThreshold)
    ensures ValueOf(RandomArgs(c), RandomSimpleSteps) == TextOf(c.randomSimpleSteps)
    ensures ValueOf(RandomArgs(c), RandomSimpleTimeout) == TextOf(c.randomSimpleTimeout)
  {
    RandomArgsValue(c, RandomSpan);
    RandomArgsValue(c, RandomSimpleThreshold);
    RandomArgsValue(c, RandomSimpleSteps);
    RandomArgsValue(c, RandomSimpleTimeout);
    IfNumValue(RandomSpan, c.randomSpan, RandomSpan);
    IfNumValue(RandomSpan, c.randomSpan, RandomSimpleThreshold);
    IfNumValue(RandomSpan, c.randomSpan, RandomSimpleSteps);
    IfNumValue(RandomSpan, c.randomSpan, RandomSimpleTimeout);
    RandomSimpleValues(c);
  }

  /** Looking a valued random flag up: the span first, then the simple-game settings. */
  lemma RandomArgsValue(c: Launch, f: Flag)
    requires c.randomMode && f != Random && f != RandomGamified
    ensures var span := IfNum(RandomSpan, c.randomSpan);
            ValueOf(RandomArgs(c), f) == if ValueOf(span, f).Some? then ValueOf(span, f) else ValueOf(RandomSimple(c), f)
  {
    var span, g, rest := IfNum(RandomSpan, c.randomSpan), GamifiedArg(c.randomGamified), RandomSimple(c);
    assert RandomArgs(c) == [Switch(Random)] + (span + (g + rest));
    ValueOfAppend([Switch(Random)], span + (g + rest), f);
    ValueOfAppend(span, g + rest, f);
    ValueOfAppend(g, rest, f);
    assert ValueOf([Switch(Random)], f).None?;
    assert ValueOf(g, f).None?;
  }

  /** What the simple-game settings carry. */
  lemma RandomSimpleValues(c: Launch)
    ensures ValueOf(RandomSimple(c), RandomSpan).None?
    ensures ValueOf(RandomSimple(c), RandomSimpleThreshold) == TextOf(c.randomSimpleThreshold)
    ensures ValueOf(RandomSimple(c), RandomSimpleSteps) == TextOf(c.randomSimpleSteps)
    ensures ValueOf(RandomSimple(c), RandomSimpleTimeout) == TextOf(c.randomSimpleTimeout)
  {
    var a, b, d := OptNum(RandomSimpleThreshold, c.randomSimpleThreshold), OptNum(RandomSimpleSteps, c.randomSimpleSteps),
                   OptNum(RandomSimpleTimeout, c.randomSimpleTimeout);
    forall f | f in {RandomSimpleThreshold, RandomSimpleSteps, RandomSimpleTimeout}
      ensures ValueOf(RandomSimple(c), f) == TextOf(if f == RandomSimpleThreshold then c.randomSimpleThreshold
                                                    else if f == RandomSimpleSteps then c.randomSimpleSteps
                                                    else c.randomSimpleTimeout)
    {
      OptNumValue(RandomSimpleThreshold, c.randomSimpleThreshold, f);
      OptNumValue(RandomSimpleSteps, c.randomSimpleSteps, f);
      OptNumValue(RandomSimpleTimeout, c.randomSimpleTimeout, f);
      ValueOfAppend(a, b + d, f);
      ValueOfAppend(b, d, f);
    }
    OptNumValue(RandomSimpleThreshold, c.randomSimpleThreshold, RandomSpan);
    OptNumValue(RandomSimpleSteps, c.randomSimpleSteps, RandomSpan);
    OptNumValue(RandomSimpleTimeout, c.randomSimpleTimeout, RandomSpan);
    ValueOfAppend(a, b + d, RandomSpan);
    ValueOfAppend(b, d, RandomSpan);
  }

  /** `--random-gamified` carries "1" or "0", and only in random mode with the setting given. */
  lemma GamifiedFlag(c: Launch)
    ensures ValueOf(CommandArgs(c), RandomGamified)
            == (if c.randomMode && c.randomGamified.Some? then Some(if c.randomGamified.value then "1" else "0") else None)
  {
    CommandLayout(c);
    InRandom(Words(c), ManualArgs(c), ConnectionArgs(c), HybridArgs(c), RandomArgs(c), RandomGamified);
    if c.randomMode {
      var span, g, rest := IfNum(RandomSpan, c.randomSpan), GamifiedArg(c.randomGamified), RandomSimple(c);
      assert RandomArgs(c) == [Switch(Random)] + (span + (g + rest));
      IfNumValue(RandomSpan, c.randomSpan, RandomGamified);
      ValueOfAppend([Switch(Random)], span + (g + rest), RandomGamified);
      ValueOfAppend(span, g + rest, RandomGamified);
      ValueOfAppend(g, rest, RandomGamified);
      if c.randomGamified.None? {
        SimpleLacksGamified(c);
      }
    }
  }

  lemma SimpleLacksGamified(c: Launch)
    ensures ValueOf(RandomSimple(c), RandomGamified).None?
  {
    var a, b, d := OptNum(RandomSimpleThreshold, c.randomSimpleThreshold), OptNum(RandomSimpleSteps, c.randomSimpleSteps),
                   OptNum(RandomSimpleTimeout, c.randomSimpleTimeout);
    OptNumValue(RandomSimpleThreshold, c.randomSimpleThreshold, RandomGamified);
    OptNumValue(RandomSimpleSteps, c.randomSimpleSteps, RandomGamified);
    OptNumValue(RandomSimpleTimeout, c.randomSimpleTimeout, RandomGamified);
    ValueOfAppend(b, d, RandomGamified);
    ValueOfAppend(a, b + d, RandomGamified);
  }

  /** What the reader thread does with one standard-output line. */
  datatype StdoutEvent =
    | SessionDir(path: string)
    | DataPacket(json: string)
    | GuiSync(key: string, value: string)
    | Swallowed
    | ExitClean
    | EngineLog(text: string)

  const SessionDirPrefix: string := "SESSION_DIR:"
  const DataPacketPrefix: string := "DATA_PACKET:"
  const GuiSyncPrefix: string := "GUI_SYNC:"

  /** A line that starts with `head` and a colon, where `head` has none, splits once into `head` and the rest. */
  lemma SplitAfterHead(line: string, head: string)
    requires StartsWith(line, head + [':']) && ':' !in head
    ensures SplitN(line, ':', 1) == [head, line[|head| + 1..]]
  {
    assert line == head + [':'] + line[|head| + 1..];
    SplitOnceAfterPrefix(head, line[|head| + 1..], ':');
  }

  /** The colon-free head of each protocol prefix. */
  lemma PrefixHeads()
    ensures SessionDirPrefix == "SESSION_DIR" + [':'] && ':' !in "SESSION_DIR"
    ensures DataPacketPrefix == "DATA_PACKET" + [':'] && ':' !in "DATA_PACKET"
    ensures GuiSyncPrefix == "GUI_SYNC" + [':'] && ':' !in "GUI_SYNC"
  {
  }

  /**
   * `_read_stdout` on one stripped line: the protocol prefixes are consumed
   * and never logged; `GUI_SYNC:` needs both a key and a value; `EXIT_CLEAN`
   * stops the reader; anything else is logged as `[Engine] line`.
   */
  function Classify(line: string): (r: StdoutEvent)
    ensures r.SessionDir? <==> StartsWith(line, SessionDirPrefix)
    ensures r.SessionDir? ==> r.path == line[|SessionDirPrefix|..]
    ensures r.DataPacket? ==> StartsWith(line, DataPacketPrefix) && r.json == line[|DataPacketPrefix|..]
    ensures r.GuiSync? ==> GuiSyncPrefix + r.key + [':'] + r.value == line && ':' !in r.key
    ensures r.Swallowed? ==> StartsWith(line, GuiSyncPrefix) && ':' !in line[|GuiSyncPrefix|..]
    ensures r.EngineLog? <==> !StartsWith(line, SessionDirPrefix) && !StartsWith(line, DataPacketPrefix)
                              && !StartsWith(line, GuiSyncPrefix) && line != "EXIT_CLEAN"
    ensures r.EngineLog? ==> r.text == "[Engine] " + line
  {
    PrefixHeads();
    if StartsWith(line, SessionDirPrefix) then
      SplitAfterHead(line, "SESSION_DIR");
      SessionDir(SplitN(line, ':', 1)[1])
    else if StartsWith(line, DataPacketPrefix) then
      SplitAfterHead(line, "DATA_PACKET");
      DataPacket(SplitN(line, ':', 1)[1])
    else if StartsWith(line, GuiSyncPrefix) then
      var rest := line[|GuiSyncPrefix|..];
      assert line == "GUI_SYNC" + [':'] + rest;
      SplitNHead("GUI_SYNC", rest, ':', 2);
      var parts := SplitN(line, ':', 2);
      if |parts| == 3 then
        var p := SplitN(rest, ':', 1);
        GuiSyncParts(rest);
        assert parts[1] == p[0] && parts[2] == p[1];
        assert line == GuiSyncPrefix + rest;
        PrefixedPair(GuiSyncPrefix, p[0], p[1], rest);
        GuiSync(parts[1], parts[2])
      else
        Swallowed
    else if line == "EXIT_CLEAN" then ExitClean
    else EngineLog("[Engine] " + line)
  }

  /** Prefixing a `key:value` pair prefixes the text it was split from. */
  lemma PrefixedPair(prefix: string, key: string, value: string, rest: string)
    requires key + [':'] + value == rest
    ensures prefix + key + [':'] + value == prefix + rest
  {
    assert prefix + key + [':'] + value == prefix + (key + [':'] + value);
  }

  lemma GuiSyncParts(rest: string)
    requires |SplitN(rest, ':', 1)| == 2
    ensures var p := SplitN(rest, ':', 1); p[0] + [':'] + p[1] == rest && ':' !in p[0]
  {
    var p := SplitN(rest, ':', 1);
    assert Join(p, ':') == p[0] + [':'] + Join(p[1..], ':');
  }

  /** `EXIT_CLEAN` is the one line that stops the reader. */
  lemma ExitCleanOnly(line: string)
    ensures Classify(line) == ExitClean <==> line == "EXIT_CLEAN"
  {
    if line == "EXIT_CLEAN" {
      assert line[0] != SessionDirPrefix[0] && line[0] != DataPacketPrefix[0] && line[0] != GuiSyncPrefix[0];
    }
  }

  /** A session folder path keeps its own colons (a drive letter, say). */
  lemma SessionDirPayload(path: string)
    ensures Classify(SessionDirPrefix + path) == SessionDir(path)
  {
    var line := SessionDirPrefix + path;
    assert line[..|SessionDirPrefix|] == SessionDirPrefix;
    assert line[|SessionDirPrefix|..] == path;
  }

  /** A sync line with a colon-free key is forwarded whole; its value may hold further colons. */
  lemma GuiSyncPayload(key: string, value: string)
    requires ':' !in key
    ensures Classify(GuiSyncPrefix + key + [':'] + value) == GuiSync(key, value)
  {
    var line := GuiSyncPrefix + key + [':'] + value;
    assert line[..|GuiSyncPrefix|] == GuiSyncPrefix;
    assert !StartsWith(line, SessionDirPrefix) by { assert line[0] != SessionDirPrefix[0]; }
    assert !StartsWith(line, DataPacketPrefix) by { assert line[0] != DataPacketPrefix[0]; }
    assert line[|GuiSyncPrefix|..] == key + [':'] + value;
    assert (key + [':'] + value)[|key|] == ':';
    var r := Classify(line);
    assert r.GuiSync?;
    assert line == GuiSyncPrefix + r.key + [':'] + r.value;
    ColonSplitUnique(key, value, r.key, r.value);
  }

  /** Splitting at the first colon is unique. */
  lemma ColonSplitUnique(k1: string, v1: string, k2: string, v2: string)
    requires ':' !in k1 && ':' !in k2 && k1 + [':'] + v1 == k2 + [':'] + v2
    ensures k1 == k2 && v1 == v2
  {
    SplitOnceAfterPrefix(k1, v1, ':');
    SplitOnceAfterPrefix(k2, v2, ':');
  }

  /** A sync line without a second colon is swallowed. */
  lemma GuiSyncNeedsValue(key: string)
    requires ':' !in key
    ensures Classify(GuiSyncPrefix + key) == Swallowed
  {
    var line := GuiSyncPrefix + key;
    assert line[..|GuiSyncPrefix|] == GuiSyncPrefix;
    assert line[|GuiSyncPrefix|..] == key;
    assert !StartsWith(line, SessionDirPrefix) by { assert line[0] != SessionDirPrefix[0]; }
    assert !StartsWith(line, DataPacketPrefix) by { assert line[0] != DataPacketPrefix[0]; }
  }

  /** The events of a whole stream of stripped lines: everything up to the end or to `EXIT_CLEAN`, which is the last. */
  function Events(lines: seq<string>): (r: seq<StdoutEvent>)
    ensures |r| <= |lines|
    ensures forall i :: 0 <= i < |r| ==> r[i] == Classify(lines[i])
    ensures forall i :: 0 <= i < |r| - 1 ==> r[i] != ExitClean
    ensures |r| < |lines| ==> |r| > 0 && r[|r| - 1] == ExitClean
    decreases |lines|
  {
    if |lines| == 0 then []
    else
      var e := Classify(lines[0]);
      if e == ExitClean then [e] else [e] + Events(lines[1..])
  }

  /** One step of `Events` from position `i`. */
  lemma EventsStep(lines: seq<string>, i: nat)
    requires i < |lines|
    ensures var e := Classify(lines[i]);
            Events(lines[i..]) == if e == ExitClean then [e] else [e] + Events(lines[i + 1..])
  {
    assert lines[i..][0] == lines[i];
    assert lines[i..][1..] == lines[i + 1..];
  }

  /** Moving one event that does not stop the reader from the pending stream to the events seen. */
  lemma EventsExtend(events: seq<StdoutEvent>, lines: seq<string>, i: nat)
    requires i < |lines| && Classify(lines[i]) != ExitClean
    ensures events + Events(lines[i..]) == (events + [Classify(lines[i])]) + Events(lines[i + 1..])
  {
    EventsStep(lines, i);
  }

  /**
   * `_read_stdout` over the lines read, each already stripped (see
   * `Comms.Received`): until the stream ends or the engine says `EXIT_CLEAN`.
   */
  method ReadStdout(lines: seq<string>) returns (events: seq<StdoutEvent>, running: bool)
    ensures events == Events(lines)
    ensures !running <==> ExitClean in events
  {
    events := [];
    running := true;
    var i := 0;
    while i < |lines|
      invariant 0 <= i <= |lines| && running
      invariant events + Events(lines[i..]) == Events(lines)
      invariant ExitClean !in events
    {
      var e := Classify(lines[i]);
      EventsStep(lines, i);
      if e == ExitClean {
        events := events + [e];
        running := false;
        return;
      }
      EventsExtend(events, lines, i);
      events := events + [e];
      i := i + 1;
    }
    assert lines[i..] == [];
  }

  /** A line without its terminating newline, as the reading side sees it. */
  function Chomp(line: string): string {
    if |line| > 0 && line[|line| - 1] == '\n' then line[..|line| - 1] else line
  }

  function SendCommand(running: bool, cmd: string): (written: seq<string>)
    ensures |written| == (if running then 1 else 0)
    ensures forall i :: 0 <= i < |written| ==> Chomp(written[i]) == cmd
  {
    if running then
      assert (cmd + "\n")[..|cmd|] == cmd;
      [cmd + "\n"]
    else []
  }

  /** An `update_*` or `set_*_mode` call: its command line, if it has one and the engine runs. */
  function SendUpdate(running: bool, u: GuiCommands.Update): (written: seq<string>)
    ensures |written| == 1 <==> running && GuiCommands.UpdateCommand(u).Some?
    ensures |written| <= 1
  {
    match GuiCommands.UpdateCommand(u)
    case Some(cmd) => SendCommand(running, cmd)
    case None => []
  }

  /** Whatever a running engine receives from the GUI, it acts on as the call intended. */
  lemma SentUpdateIsIntended(running: bool, u: GuiCommands.Update, hasRandomSetters: bool)
    ensures forall i :: 0 <= i < |SendUpdate(running, u)| ==>
              Comms.HandleEngineCommand(Chomp(SendUpdate(running, u)[i]), hasRandomSetters)
              == GuiCommands.Intended(u, hasRandomSetters)
  {
    if |SendUpdate(running, u)| == 1 {
      GuiCommands.UpdateReachesEngine(u, hasRandomSetters);
    }
  }

  /** What stopping leaves behind: the lines written to the engine, and whether it had to be killed. */
  datatype Stopped = Stopped(written: seq<string>, killed: bool)

  /**
   * The engine leaves the two-second wait by itself when it was told to quit,
   * or when it exits for a reason of its own (`exitsUnprompted`); otherwise
   * the wait times out and it is killed.
   */
  predicate KilledAfterWait(written: seq<string>, exitsUnprompted: bool) {
    !exitsUnprompted && forall i :: 0 <= i < |written| ==> !Comms.Quits(Chomp(written[i]))
  }

  /**
   * `stop` as written: `running` is cleared first, so the `send_command`
   * guard drops the `QUIT` whatever `running` was, and an engine that does
   * not exit by itself is killed after the wait.
   */
  function StopAsWritten(hasProcess: bool, running: bool, exitsUnprompted: bool): (r: Stopped)
    ensures r.written == []
    ensures r.killed <==> hasProcess && !exitsUnprompted
  {
    var stillRunning := false;
    if !hasProcess then Stopped([], false)
    else
      var written := SendCommand(stillRunning, "QUIT");
      Stopped(written, KilledAfterWait(written, exitsUnprompted))
  }

  /** A running engine that would not exit on its own is never told to quit, and is killed. */
  lemma StopNeverQuits()
    ensures StopAsWritten(true, true, false) == Stopped([], true)
    ensures Stop(true, true, false) == Stopped(["QUIT\n"], false)
  {
    var w := ["QUIT\n"];
    assert "QUIT" + "\n" == w[0];
    assert SendCommand(true, "QUIT") == w;
    assert Chomp(w[0]) == "QUIT";
    assert Comms.Quits(Chomp(w[0]));
  }

  /** `stop` with `QUIT` written while `running` still holds, and only then cleared. */
  function Stop(hasProcess: bool, running: bool, exitsUnprompted: bool): (r: Stopped)
    ensures !hasProcess ==> r == Stopped([], false)
    ensures |r.written| <= 1 && (|r.written| == 1 <==> hasProcess && running)
    ensures forall i :: 0 <= i < |r.written| ==> Chomp(r.written[i]) == "QUIT"
  {
    if !hasProcess then Stopped([], false)
    else
      var written := SendCommand(running, "QUIT");
      Stopped(written, KilledAfterWait(written, exitsUnprompted))
  }

  /** Stopping a running engine writes `QUIT`, the one command that ends its loop, so it is not killed. */
  lemma StopQuits(running: bool, exitsUnprompted: bool)
    requires running
    ensures var r := Stop(true, running, exitsUnprompted);
            |r.written| == 1 && Comms.Quits(Chomp(r.written[0])) && !r.killed
  {
  }
}
