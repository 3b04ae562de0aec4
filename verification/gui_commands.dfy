/**
 * The `KEY:VALUE` commands the GUI's process manager writes to the engine's
 * standard input, and what the engine's command handler makes of them.
 */
module GuiCommands {
  import opened Wrappers
  import opened Text
  import Numeric
  import Comms

  /** The engine modes the GUI can switch to. */
  datatype EngineMode = ManualMode | RandomMode | HybridMode | DynamicMode

  function ModeName(m: EngineMode): string {
    match m
    case ManualMode => "manual"
    case RandomMode => "random"
    case HybridMode => "hybrid"
    case DynamicMode => "dynamic"
  }

  /**
   * The GUI's `update_*` and `set_*_mode` calls. Integers are rendered by
   * `str()`; a float setting is carried as the text it renders to.
   */
  datatype Update =
    | UpdateManualBpm(bpm: string)
    | SetModeTo(mode: EngineMode)
    | UpdateAlphaUp(alphaUp: string)
    | UpdateAlphaDown(alphaDown: string)
    | UpdateEspConfig(cmdType: string, value: int)
    | UpdateRandomSpan(span: string)
    | UpdateRandomGamified(enabled: bool)
    | UpdateRandomSimpleThreshold(threshold: string)
    | UpdateRandomSimpleSteps(steps: int)
    | UpdateRandomSimpleTimeout(timeout: string)
    | UpdateHybridLockSteps(lockSteps: int)
    | UpdateHybridUnlockTime(unlockTime: string)
    | UpdateHybridStabilityThreshold(stability: string)
    | UpdateHybridUnlockThreshold(unlock: string)

  /** The command key each call writes. */
  function Key(u: Update): string {
    match u
    case UpdateManualBpm(_) => "SET_MANUAL_BPM"
    case SetModeTo(_) => "SET_MODE"
    case UpdateAlphaUp(_) => "SET_ALPHA_UP"
    case UpdateAlphaDown(_) => "SET_ALPHA_DOWN"
    case UpdateEspConfig(t, _) => if t == "window" then "SET_WINDOW" else "SET_STRIDE"
    case UpdateRandomSpan(_) => "SET_RANDOM_SPAN"
    case UpdateRandomGamified(_) => "SET_RANDOM_GAMIFIED"
    case UpdateRandomSimpleThreshold(_) => "SET_RANDOM_SIMPLE_THRESHOLD"
    case UpdateRandomSimpleSteps(_) => "SET_RANDOM_SIMPLE_STEPS"
    case UpdateRandomSimpleTimeout(_) => "SET_RANDOM_SIMPLE_TIMEOUT"
    case UpdateHybridLockSteps(_) => "SET_HYBRID_LOCK_STEPS"
    case UpdateHybridUnlockTime(_) => "SET_HYBRID_UNLOCK_TIME"
    case UpdateHybridStabilityThreshold(_) => "SET_HYBRID_STABILITY_THRESHOLD"
    case UpdateHybridUnlockThreshold(_) => "SET_HYBRID_UNLOCK_THRESHOLD"
  }

  /** The value text each call writes. */
  function Value(u: Update): string {
    match u
    case UpdateManualBpm(t) => t
    case SetModeTo(m) => ModeName(m)
    case UpdateAlphaUp(t) => t
    case UpdateAlphaDown(t) => t
    case UpdateEspConfig(_, n) => Numeric.ShowInt(n)
    case UpdateRandomSpan(t) => t
    case UpdateRandomGamified(b) => if b then "1" else "0"
    case UpdateRandomSimpleThreshold(t) => t
    case UpdateRandomSimpleSteps(n) => Numeric.ShowInt(n)
    case UpdateRandomSimpleTimeout(t) => t
    case UpdateHybridLockSteps(n) => Numeric.ShowInt(n)
    case UpdateHybridUnlockTime(t) => t
    case UpdateHybridStabilityThreshold(t) => t
    case UpdateHybridUnlockThreshold(t) => t
  }

  /** The command string a call sends; `update_esp_config` sends nothing for an unknown type. */
  function UpdateCommand(u: Update): (r: Option<string>)
    ensures r.None? <==> u.UpdateEspConfig? && u.cmdType != "window" && u.cmdType != "stride"
    ensures r.Some? ==> StartsWith(r.value, Key(u) + ":")
  {
    if u.UpdateEspConfig? && u.cmdType != "window" && u.cmdType != "stride" then None
    else
      var cmd := Key(u) + ":" + Value(u);
      assert cmd[..|Key(u) + ":"|] == Key(u) + ":";
      Some(cmd)
  }

  /** What each call asks the engine to do, given the value the engine parses from its text. */
  function Intended(u: Update, hasRandomSetters: bool): Comms.EngineAction {
    match u
    case UpdateManualBpm(t) => RealIntended(t, x => Comms.SetManualBpm(x))
    case SetModeTo(m) => Comms.SwitchMode(ModeName(m))
    case UpdateAlphaUp(t) => RealIntended(t, x => Comms.SetAlphaUp(x))
    case UpdateAlphaDown(t) => RealIntended(t, x => Comms.SetAlphaDown(x))
    case UpdateEspConfig(_, n) => Comms.ConfigureReceiver(Key(u), n)
    case UpdateRandomSpan(t) => if hasRandomSetters then RealIntended(t, x => Comms.SetRandomSpan(x)) else Comms.NoAction
    case UpdateRandomGamified(b) => if hasRandomSetters then Comms.SetRandomGamified(b) else Comms.NoAction
    case UpdateRandomSimpleThreshold(t) =>
      if hasRandomSetters then RealIntended(t, x => Comms.SetRandomSimpleThreshold(x)) else Comms.NoAction
    case UpdateRandomSimpleSteps(n) => if hasRandomSetters then Comms.SetRandomSimpleSteps(n) else Comms.NoAction
    case UpdateRandomSimpleTimeout(t) =>
      if hasRandomSetters then RealIntended(t, x => Comms.SetRandomSimpleTimeout(x)) else Comms.NoAction
    case UpdateHybridLockSteps(n) => Comms.SetHybridLockSteps(n)
    case UpdateHybridUnlockTime(t) => RealIntended(t, x => Comms.SetHybridUnlockTime(x))
    case UpdateHybridStabilityThreshold(t) => RealIntended(t, x => Comms.SetHybridStabilityThreshold(x))
    case UpdateHybridUnlockThreshold(t) => RealIntended(t, x => Comms.SetHybridUnlockThreshold(x))
  }

  /** A float setting whose text does not parse reaches the engine as a format error. */
  function RealIntended(t: string, f: real -> Comms.EngineAction): Comms.EngineAction {
    if Numeric.ParseReal(t).Some? then f(Numeric.ParseReal(t).value) else Comms.InvalidFormat
  }

  lemma PlainManualBpm()
    ensures Upper("SET_MANUAL_BPM") == "SET_MANUAL_BPM" && ':' !in "SET_MANUAL_BPM"
  {
  }

  lemma PlainMode()
    ensures Upper("SET_MODE") == "SET_MODE" && ':' !in "SET_MODE"
  {
  }

  lemma PlainAlphaUp()
    ensures Upper("SET_ALPHA_UP") == "SET_ALPHA_UP" && ':' !in "SET_ALPHA_UP"
  {
  }

  lemma PlainAlphaDown()
    ensures Upper("SET_ALPHA_DOWN") == "SET_ALPHA_DOWN" && ':' !in "SET_ALPHA_DOWN"
  {
  }

  lemma PlainRandomSpan()
    ensures Upper("SET_RANDOM_SPAN") == "SET_RANDOM_SPAN" && ':' !in "SET_RANDOM_SPAN"
  {
  }

  lemma PlainRandomGamified()
    ensures Upper("SET_RANDOM_GAMIFIED") == "SET_RANDOM_GAMIFIED" && ':' !in "SET_RANDOM_GAMIFIED"
  {
  }

  lemma PlainRandomSimpleThreshold()
    ensures Upper("SET_RANDOM_SIMPLE_THRESHOLD") == "SET_RANDOM_SIMPLE_THRESHOLD" && ':' !in "SET_RANDOM_SIMPLE_THRESHOLD"
  {
  }

  lemma PlainRandomSimpleSteps()
    ensures Upper("SET_RANDOM_SIMPLE_STEPS") == "SET_RANDOM_SIMPLE_STEPS" && ':' !in "SET_RANDOM_SIMPLE_STEPS"
  {
  }

  lemma PlainRandomSimpleTimeout()
    ensures Upper("SET_RANDOM_SIMPLE_TIMEOUT") == "SET_RANDOM_SIMPLE_TIMEOUT" && ':' !in "SET_RANDOM_SIMPLE_TIMEOUT"
  {
  }

  lemma PlainHybridLockSteps()
    ensures Upper("SET_HYBRID_LOCK_STEPS") == "SET_HYBRID_LOCK_STEPS" && ':' !in "SET_HYBRID_LOCK_STEPS"
  {
  }

  lemma PlainHybridUnlockTime()
    ensures Upper("SET_HYBRID_UNLOCK_TIME") == "SET_HYBRID_UNLOCK_TIME" && ':' !in "SET_HYBRID_UNLOCK_TIME"
  {
  }

  lemma PlainHybridStabilityThreshold()
    ensures Upper("SET_HYBRID_STABILITY_THRESHOLD") == "SET_HYBRID_STABILITY_THRESHOLD" && ':' !in "SET_HYBRID_STABILITY_THRESHOLD"
  {
  }

  lemma PlainHybridUnlockThreshold()
    ensures Upper("SET_HYBRID_UNLOCK_THRESHOLD") == "SET_HYBRID_UNLOCK_THRESHOLD" && ':' !in "SET_HYBRID_UNLOCK_THRESHOLD"
  {
  }

  lemma PlainWindow()
    ensures Upper("SET_WINDOW") == "SET_WINDOW" && ':' !in "SET_WINDOW"
  {
  }

  lemma PlainStride()
    ensures Upper("SET_STRIDE") == "SET_STRIDE" && ':' !in "SET_STRIDE"
  {
  }

  /** Every key is upper-case and colon-free, so it reaches the dispatch unchanged. */
  lemma KeyIsPlain(u: Update)
    ensures ':' !in Key(u) && Upper(Key(u)) == Key(u)
  {
    match u
    case UpdateManualBpm(_) => PlainManualBpm();
    case SetModeTo(_) => PlainMode();
    case UpdateAlphaUp(_) => PlainAlphaUp();
    case UpdateAlphaDown(_) => PlainAlphaDown();
    case UpdateRandomSpan(_) => PlainRandomSpan();
    case UpdateRandomGamified(_) => PlainRandomGamified();
    case UpdateRandomSimpleThreshold(_) => PlainRandomSimpleThreshold();
    case UpdateRandomSimpleSteps(_) => PlainRandomSimpleSteps();
    case UpdateRandomSimpleTimeout(_) => PlainRandomSimpleTimeout();
    case UpdateHybridLockSteps(_) => PlainHybridLockSteps();
    case UpdateHybridUnlockTime(_) => PlainHybridUnlockTime();
    case UpdateHybridStabilityThreshold(_) => PlainHybridStabilityThreshold();
    case UpdateHybridUnlockThreshold(_) => PlainHybridUnlockThreshold();
    case UpdateEspConfig(_, _) => PlainWindow(); PlainStride();
  }

  /** Each command the GUI sends makes the engine do what the call asks for. */
  lemma UpdateReachesEngine(u: Update, hasRandomSetters: bool)
    requires UpdateCommand(u).Some?
    ensures Comms.HandleEngineCommand(UpdateCommand(u).value, hasRandomSetters) == Intended(u, hasRandomSetters)
  {
    KeyIsPlain(u);
    Comms.CommandKeyValue(Key(u), Value(u), hasRandomSetters);
    DispatchIntended(u, hasRandomSetters);
  }

  lemma DispatchManualBpm(t: string, hasRandomSetters: bool)
    ensures Comms.Dispatch("SET_MANUAL_BPM", t, hasRandomSetters) == RealIntended(t, x => Comms.SetManualBpm(x))
  {
    Comms.UpdateKeys();
  }

  lemma DispatchAlphaUp(t: string, hasRandomSetters: bool)
    ensures Comms.Dispatch("SET_ALPHA_UP", t, hasRandomSetters) == RealIntended(t, x => Comms.SetAlphaUp(x))
  {
    Comms.UpdateKeys();
  }

  lemma DispatchAlphaDown(t: string, hasRandomSetters: bool)
    ensures Comms.Dispatch("SET_ALPHA_DOWN", t, hasRandomSetters) == RealIntended(t, x => Comms.SetAlphaDown(x))
  {
    Comms.UpdateKeys();
  }

  lemma DispatchRandomSpan(t: string, hasRandomSetters: bool)
    ensures Comms.Dispatch("SET_RANDOM_SPAN", t, hasRandomSetters) == if hasRandomSetters then RealIntended(t, x => Comms.SetRandomSpan(x)) else Comms.NoAction
  {
    Comms.UpdateKeys();
  }

  lemma DispatchRandomSimpleThreshold(t: string, hasRandomSetters: bool)
    ensures Comms.Dispatch("SET_RANDOM_SIMPLE_THRESHOLD", t, hasRandomSetters) == if hasRandomSetters then RealIntended(t, x => Comms.SetRandomSimpleThreshold(x)) else Comms.NoAction
  {
    Comms.ThresholdKeys();
  }

  lemma DispatchRandomSimpleTimeout(t: string, hasRandomSetters: bool)
    ensures Comms.Dispatch("SET_RANDOM_SIMPLE_TIMEOUT", t, hasRandomSetters) == if hasRandomSetters then RealIntended(t, x => Comms.SetRandomSimpleTimeout(x)) else Comms.NoAction
  {
    Comms.UpdateKeys();
  }

  lemma DispatchHybridUnlockTime(t: string, hasRandomSetters: bool)
    ensures Comms.Dispatch("SET_HYBRID_UNLOCK_TIME", t, hasRandomSetters) == RealIntended(t, x => Comms.SetHybridUnlockTime(x))
  {
    Comms.UpdateKeys();
  }

  lemma DispatchHybridStabilityThreshold(t: string, hasRandomSetters: bool)
    ensures Comms.Dispatch("SET_HYBRID_STABILITY_THRESHOLD", t, hasRandomSetters) == RealIntended(t, x => Comms.SetHybridStabilityThreshold(x))
  {
    Comms.UpdateKeys();
  }

  lemma DispatchHybridUnlockThreshold(t: string, hasRandomSetters: bool)
    ensures Comms.Dispatch("SET_HYBRID_UNLOCK_THRESHOLD", t, hasRandomSetters) == RealIntended(t, x => Comms.SetHybridUnlockThreshold(x))
  {
    Comms.ThresholdKeys();
  }

  lemma DispatchMode(m: EngineMode, hasRandomSetters: bool)
    ensures Comms.Dispatch("SET_MODE", ModeName(m), hasRandomSetters) == Comms.SwitchMode(ModeName(m))
  {
    LowerFixed(ModeName(m));
  }

  lemma DispatchRandomSimpleSteps(n: int, hasRandomSetters: bool)
    ensures Comms.Dispatch("SET_RANDOM_SIMPLE_STEPS", Numeric.ShowInt(n), hasRandomSetters)
            == if hasRandomSetters then Comms.SetRandomSimpleSteps(n) else Comms.NoAction
  {
    Comms.UpdateKeys();
    Numeric.ParseShowInt(n);
  }

  lemma DispatchHybridLockSteps(n: int, hasRandomSetters: bool)
    ensures Comms.Dispatch("SET_HYBRID_LOCK_STEPS", Numeric.ShowInt(n), hasRandomSetters) == Comms.SetHybridLockSteps(n)
  {
    Comms.UpdateKeys();
    Numeric.ParseShowInt(n);
  }

  lemma DispatchIntended(u: Update, hasRandomSetters: bool)
    requires UpdateCommand(u).Some?
    ensures Comms.Dispatch(Key(u), Value(u), hasRandomSetters) == Intended(u, hasRandomSetters)
  {
    match u
    case SetModeTo(m) => DispatchMode(m, hasRandomSetters);
    case UpdateEspConfig(t, n) =>
      Comms.DispatchReceiver(t == "window", n, hasRandomSetters);
    case UpdateRandomGamified(b) =>
      if hasRandomSetters {
        Comms.DispatchGamified(b);
      }
    case UpdateRandomSimpleSteps(n) => DispatchRandomSimpleSteps(n, hasRandomSetters);
    case UpdateHybridLockSteps(n) => DispatchHybridLockSteps(n, hasRandomSetters);
    case _ => DispatchIntendedFloat(u, hasRandomSetters);
  }

  /** The settings whose value is float text. */
  lemma DispatchIntendedFloat(u: Update, hasRandomSetters: bool)
    requires !u.SetModeTo? && !u.UpdateEspConfig? && !u.UpdateRandomGamified?
    requires !u.UpdateRandomSimpleSteps? && !u.UpdateHybridLockSteps?
    ensures Comms.Dispatch(Key(u), Value(u), hasRandomSetters) == Intended(u, hasRandomSetters)
  {
    match u
    case UpdateManualBpm(t) => DispatchManualBpm(t, hasRandomSetters);
    case UpdateAlphaUp(t) => DispatchAlphaUp(t, hasRandomSetters);
    case UpdateAlphaDown(t) => DispatchAlphaDown(t, hasRandomSetters);
    case UpdateRandomSpan(t) => DispatchRandomSpan(t, hasRandomSetters);
    case UpdateRandomSimpleThreshold(t) => DispatchRandomSimpleThreshold(t, hasRandomSetters);
    case UpdateRandomSimpleTimeout(t) => DispatchRandomSimpleTimeout(t, hasRandomSetters);
    case UpdateHybridUnlockTime(t) => DispatchHybridUnlockTime(t, hasRandomSetters);
    case UpdateHybridStabilityThreshold(t) => DispatchHybridStabilityThreshold(t, hasRandomSetters);
    case UpdateHybridUnlockThreshold(t) => DispatchHybridUnlockThreshold(t, hasRandomSetters);
  }
}
