# A Dafny model of the walking-tempo music host

This project models the host side of a system that plays a song whose tempo
follows a walker's cadence. A foot-sensor receiver sends one line per step
over a serial link. The host turns the steps into a target BPM and drives a
MIDI player at that tempo. It logs the session for plotting, and a GUI
controls it through a child engine process.

The model covers:

- **Tempo estimation.** The main estimator (`server/utils/BPM_estimation.py`)
  does alpha smoothing with a dead-band, a boost on fast change, a warm-up
  limit and decay when steps stop. Also modelled: the legacy estimator
  (`server/BPM_estimation.py`), and the dynamic, manual, hybrid (lock on a
  stable cadence) and random (target-matching game) modes.
- **Cadence and playback.** The offline cadence calculator; the MIDI players'
  song tempo, tempo factor, mid-wait rescaling and drum phase correction.
- **The receiver protocol.** The `PREFIX,value` settings and the calibration
  command with their retries, the RESET/START handshake, and the step line.
  Both the current helpers and the standalone runner's copy are modelled,
  with one pass of the runner's loop driving the main estimator.
- **The GUI side.** The engine's `KEY:VALUE` command dispatch and the
  process manager that builds the engine's command line. It also classifies
  the engine's output lines and writes the GUI's commands.
- **Logging and plotting.** The session logger's stamps, folders and
  timer, and the plotter's reading of those stamps and its axis growth. Also
  the offline step logger's validation, sorting and split by foot.
- **Offline tools.** The sprite-sheet slicer's column runs and crops, and the
  training script's windowing and window search.

Everything is pure functions over immutable data. Several inputs that the
source reads from the outside world are parameters here:

- clock readings;
- random draws;
- serial replies, as the sequence of lines `readline` returns;
- MIDI tracks;
- content masks;
- a model's error per window.

The modules follow the source files. Text, Numeric and Stats hold the string
and number helpers the others share. They model Python's `strip`, `split`,
`upper`, `int` and `float` on plain decimal text, and `deque(maxlen=n)`.

## Model

| member | source | states |
|---|---|---|
| BpmEstimation.New | server/utils/BPM_estimation.py:7-27 | the target starts at the player's walking BPM, with no steps counted, last recorded BPM 0, both alphas 0.025, both clocks at the creation time, and the given manual mode and queued BPM |
| BpmEstimation.ClampAlpha | server/utils/BPM_estimation.py:31-37 | the clamped alpha always lies in [0.001, 1.0]; an alpha already in range is kept, one below becomes 0.001 and one above becomes 1.0 |
| BpmEstimation.ClampAlphaIdempotent | server/utils/BPM_estimation.py:31-37 | clamping an alpha a second time changes nothing |
| BpmEstimation.SetAlphaUp | server/utils/BPM_estimation.py:31-33 | only the attack alpha changes, to the clamped value, so the estimator stays valid |
| BpmEstimation.SetAlphaDown | server/utils/BPM_estimation.py:35-37 | only the decay alpha changes, to the clamped value, so the estimator stays valid |
| BpmEstimation.SetManualBpm | server/utils/BPM_estimation.py:39-41 | only the queued manual BPM changes |
| BpmEstimation.SetManualMode | server/utils/BPM_estimation.py:43-45 | only the manual-mode flag changes |
| BpmEstimation.CheckManualBpmUpdate | server/utils/BPM_estimation.py:47-53 | hands out the queued BPM (or nothing) and leaves the queue empty, with no other field touched |
| BpmEstimation.ManualBpmTakenOnce | server/utils/BPM_estimation.py:39-53 | a queued BPM is handed out by the first check and the check right after it yields nothing |
| BpmEstimation.RegisterStep | server/utils/BPM_estimation.py:55-72 | the step count grows by exactly one, the step BPM and time are recorded, and the target is the step BPM without a prediction or lies 70% of the way from the step BPM to the prediction; nothing else changes |
| BpmEstimation.UpdateRecordedValues | server/utils/BPM_estimation.py:75-78 | exactly the decay timer and the last recorded BPM change |
| BpmEstimation.SmoothingAlpha | server/utils/BPM_estimation.py:120-137 | the decay alpha is used whenever the target is not above the current BPM, and the attack alpha with the dynamic modes' boost whenever it is above; the chosen alpha is positive when both alphas are |
| BpmEstimation.LimitStep | server/utils/BPM_estimation.py:146-150 | the limited step keeps its sign, is unchanged when already within the limit, and otherwise is exactly the limit with the step's sign |
| BpmEstimation.NextBpm | server/utils/BPM_estimation.py:113-158 | the player is left alone exactly when the target is within 0.1 BPM; otherwise the new BPM is the current BPM plus the limited smoothing step when that step does not pass the target, and the target itself when it would |
| BpmEstimation.NextBpmNoOvershoot | server/utils/BPM_estimation.py:139-156 | for non-negative alphas and elapsed time, the new BPM lies between the current BPM and the target |
| BpmEstimation.NextBpmCloser | server/utils/BPM_estimation.py:139-156 | with positive alphas and time elapsed, a pass strictly shrinks the distance to the target |
| BpmEstimation.NextBpmWarmupLimit | server/utils/BPM_estimation.py:144-150 | during the first five steps the BPM moves by at most 10 BPM per elapsed second |
| BpmEstimation.LimitedStepSign | server/utils/BPM_estimation.py:139-150 | the limited step has the sign of the gap to the target and is non-zero when gap, alpha and time are |
| BpmEstimation.DecayedTarget | server/utils/BPM_estimation.py:95-102 | the decay never raises the target and does nothing before the first step or without time since it; otherwise the target is kept or replaced by 60 / seconds-since-last-step, whichever is lower |
| BpmEstimation.UpdateBpm | server/utils/BPM_estimation.py:80-158 | in manual mode or right after the first step nothing changes; otherwise the update time is the clock reading, the target is the decayed target, the player is untouched inside the dead band, only those fields change, the song BPM is kept and the player stays valid |
| BpmEstimation.UpdateBpmCloser | server/utils/BPM_estimation.py:104-158 | outside the dead band one update moves the walking BPM strictly closer to the decayed target without passing it, and during warm-up by at most 10 BPM per second since the last update |
| BpmEstimation.UpdateBpmTowardsTarget | server/utils/BPM_estimation.py:80-158 | with a clock that does not run backwards, the player is untouched or its new walking BPM lies between the old one and the decayed target |
| BpmEstimation.ManualModeFreezes | server/utils/BPM_estimation.py:86-87 | in manual mode any number of loop passes leave the estimator and the player as they were |
| LegacyEstimation.New | server/BPM_estimation.py:6-10 | the decay timer starts at the construction time and the recorded BPM at 0 |
| LegacyEstimation.UpdateRecordedValues | server/BPM_estimation.py:12-14 | exactly the decay timer and the recorded BPM are set |
| LegacyEstimation.UpdateBpm | server/BPM_estimation.py:16-23 | manual mode leaves the player alone; otherwise the walking BPM never rises, and when it falls it falls to exactly 60 / interval |
| LegacyEstimation.UpdateBpmIsDecayCeiling | server/BPM_estimation.py:20-23 | for a positive interval the legacy update is the shared decay ceiling applied to the walking BPM |
| LegacyEstimation.UpdateBpmAntitone | server/BPM_estimation.py:20-23 | the longer since the last step, the lower or equal the walking BPM after the update |
| TempoRules.BoostFactor | server/utils/Modes/dynamic_mode.py:33-36 | for a gap above 5 BPM the boost factor is above 1, at most 4 and at most 1 + 0.1 per BPM beyond 5, and is either the cap or exactly that |
| TempoRules.BoostedAlpha | server/utils/Modes/dynamic_mode.py:33-36 | the attack alpha is unchanged unless the target is more than 5 BPM ahead; then it is the alpha times the boost factor of the gap, so it grows by a factor of at most 4 |
| TempoRules.BoostFactorMonotone | server/utils/Modes/dynamic_mode.py:33-36 | a larger gap never earns a smaller boost factor |
| TempoRules.BoostedAlphaMonotone | server/utils/BPM_estimation.py:127-134 | a target further ahead never yields a smaller boosted alpha |
| TempoRules.DecayCeiling | server/utils/Modes/dynamic_mode.py:22-27 | the decayed target is never above the target and, for a positive interval, never above 60 / interval; it is one of the two |
| TempoRules.DecayAntitone | server/utils/Modes/dynamic_mode.py:22-27 | a longer silence gives a lower or equal decayed target |
| TempoRules.DecayIdempotent | server/utils/Modes/dynamic_mode.py:22-27 | applying the ceiling twice at the same moment is applying it once |
| TempoRules.ModeDecay | server/utils/Modes/dynamic_mode.py:21-27 | before the first step (last step time 0) the target is kept; afterwards it is capped at 60 / seconds-since-last-step, never raised |
| TempoRules.ModeDecayAntitone | server/utils/Modes/hybrid_mode.py:70-80 | the longer since the last step, the lower or equal a mode's target |
| TempoRules.DecayAndBoost | server/utils/Modes/dynamic_mode.py:19-40 | a mode's target is its base target after the decay, never above the base, and the smoother is called with the boosted attack alpha (0.025 when the context has none) |
| DynamicMode.New | server/utils/Modes/dynamic_mode.py:4-7 | no step recorded yet (time 0) and the base target is the player's walking BPM |
| DynamicMode.OnStep | server/utils/Modes/dynamic_mode.py:9-12 | exactly the step time and step BPM are recorded |
| DynamicMode.HandleStep | server/utils/Modes/dynamic_mode.py:14-40 | the target is the last step's BPM or, once a step was seen and time has passed, 60 / interval when that is lower; it is never above the step BPM |
| DynamicMode.TargetAfterStep | server/utils/Modes/dynamic_mode.py:9-27 | right after a step, the target is that step's BPM whatever the smoother does |
| DynamicMode.BoostBounded | server/utils/Modes/dynamic_mode.py:29-38 | the alpha handed to the smoother is between the context's alpha and four times it, and equal to it unless the target is more than 5 BPM ahead |
| ManualMode.New | server/utils/Modes/manual_mode.py:4-6 | the initial target is 100 BPM, inside [40, 240] |
| ManualMode.Clamp | server/utils/Modes/manual_mode.py:8-9 | the clamped BPM always lies in [40, 240], and a BPM in range is kept |
| ManualMode.SetBpm | server/utils/Modes/manual_mode.py:8-10 | the stored target is the clamped BPM, so always within [40, 240] |
| ManualMode.AdjustBpm | server/utils/Modes/manual_mode.py:12-15 | the returned and stored target are both the clamped sum of the old target and the nudge |
| ManualMode.AdjustUndo | server/utils/Modes/manual_mode.py:12-15 | a nudge that stays in range is undone by the opposite nudge |
| ManualMode.AdjustCompose | server/utils/Modes/manual_mode.py:12-15 | two nudges, the first staying in range, equal one nudge by their sum |
| ManualMode.HandleStep | server/utils/Modes/manual_mode.py:17-19 | the mode returns its stored target whatever the time and current BPM, so within [40, 240] when the target is |
| HybridMode.New | server/utils/Modes/hybrid_mode.py:5-18 | the mode starts unlocked with an empty buffer, no unlock timer, last step time 0 and the player's walking BPM as the followed BPM, and keeps the four given settings |
| HybridMode.Reset | server/utils/Modes/hybrid_mode.py:20-23 | the lock, the buffer and the unlock timer are cleared and nothing else changes |
| HybridMode.SetLockSteps | server/utils/Modes/hybrid_mode.py:25-27 | the lock length is at least 2, equal to the request when the request is at least 2, and nothing else changes |
| HybridMode.SetUnlockTime | server/utils/Modes/hybrid_mode.py:29-31 | the unlock time is at least 0.5 s, equal to the request when that is at least 0.5, and nothing else changes |
| HybridMode.SetStabilityThreshold | server/utils/Modes/hybrid_mode.py:33-35 | the stability threshold is at least 1 BPM, equal to the request when that is at least 1, and nothing else changes |
| HybridMode.SetUnlockThreshold | server/utils/Modes/hybrid_mode.py:37-39 | the unlock threshold is at least 5 BPM, equal to the request when that is at least 5, and nothing else changes |
| HybridMode.TryLock | server/utils/Modes/hybrid_mode.py:52-56 | the mode locks exactly when the buffer is full and its spread is below the stability threshold, and then at the buffer's mean |
| HybridMode.OnStepAsWritten | server/utils/Modes/hybrid_mode.py:41-56 | the step time and BPM are always recorded; while locked nothing else changes; a buffer no longer than the lock length keeps the latest readings; a new lock means the buffer was stable |
| HybridMode.OverfullNeverLocks | server/utils/Modes/hybrid_mode.py:47-56 | as written, a buffer longer than the lock length keeps its length for ever and the mode never locks again, whatever the steps |
| HybridMode.LoweredLockStepsNeverLocks | server/utils/Modes/hybrid_mode.py:25-56 | after three unstable readings fill a three-step buffer, lowering the lock length to two means no run of steps locks again |
| HybridMode.UnstableFill | server/utils/Modes/hybrid_mode.py:47-56 | readings 60, 100, 60 fill a three-step buffer without locking it |
| HybridMode.OnStep | server/utils/Modes/hybrid_mode.py:41-56 | with the buffer cut to the latest lock-length readings, an unlocked step locks exactly when that buffer is stable, at its mean; a locked step only records time and BPM |
| HybridMode.OnStepAgrees | server/utils/Modes/hybrid_mode.py:47-50 | the corrected and as-written steps agree whenever the buffer is no longer than the lock length |
| HybridMode.LockedStaysLocked | server/utils/Modes/hybrid_mode.py:47 | once locked, further steps keep the same locked BPM |
| HybridMode.FullBandLocks | server/utils/Modes/hybrid_mode.py:52-56 | when the buffer's latest readings and the new one all lie in a band narrower than the threshold and fill the buffer, the step locks |
| HybridMode.StableRunLocks | server/utils/Modes/hybrid_mode.py:41-56 | with the corrected buffer rule, lock-length readings that agree to within the stability threshold always lock the mode |
| HybridMode.LockedCheck | server/utils/Modes/hybrid_mode.py:91-108 | a deviation within the unlock threshold keeps the locked target and clears the timer; a larger deviation that does not unlock leaves the timer at its start, or at now when none was running; the mode unlocks exactly when the deviation exceeds the threshold for longer than the unlock time, and then follows the last step BPM |
| HybridMode.FirstDeviationKeepsLock | server/utils/Modes/hybrid_mode.py:95-100 | a first deviation never unlocks at once; it starts the unlock timer at now, while a reading within the threshold leaves no timer |
| HybridMode.DeviationTimedFromFirst | server/utils/Modes/hybrid_mode.py:91-105 | a deviation that persists is timed from its first reading: a later check within the unlock time keeps the lock and that timer, and a check more than the unlock time after the first unlocks |
| HybridMode.PersistentDeviationUnlocks | server/utils/Modes/hybrid_mode.py:95-104 | a deviation that persists past the unlock time, timed from its first sighting, unlocks and returns the last step BPM |
| HybridMode.HandleStep | server/utils/Modes/hybrid_mode.py:58-89 | unlocked, the state is kept and the target is the followed BPM after the decay; locked, the locked check decides the base target and the state, and the decay never raises it |
| RandomMode.New | server/utils/Modes/random_mode.py:5-17 | no target, no timers, a zero step counter, a 20% span and the gamified variant |
| RandomMode.SetSpan | server/utils/Modes/random_mode.py:19-21 | only the span changes |
| RandomMode.SetGamified | server/utils/Modes/random_mode.py:23-28 | the variant is set and the current target dropped; nothing else changes |
| RandomMode.Activate | server/utils/Modes/random_mode.py:30-36 | the target, both timers and the step counter are reset while span and variant are kept |
| RandomMode.UniformBetween | server/utils/Modes/random_mode.py:122 | a draw in [0, 1] gives a value between the two bounds |
| RandomMode.Draw | server/utils/Modes/random_mode.py:118-125 | the kept value is the draw at `RandomMode.KeptDraw`: without a previous target the first remaining draw, otherwise the first that jumps by more than 10 BPM, or the seventh and last draw |
| RandomMode.KeptDraw | server/utils/Modes/random_mode.py:118-125 | the index of the kept draw: every earlier remaining draw stays within 10 BPM of the previous target, and the kept one jumps by more than 10 BPM unless it is the seventh and last draw |
| RandomMode.DrawBetween | server/utils/Modes/random_mode.py:118-125 | with draws in [0, 1] the kept value lies between the range bounds |
| RandomMode.PickNewTarget | server/utils/Modes/random_mode.py:113-131 | the target is the value the retry loop keeps over [max(40, song - span), min(200, song + span)], assigned now with the hold timer cleared; nothing else changes |
| RandomMode.PickInRange | server/utils/Modes/random_mode.py:113-127 | the new target lies in the draw range, and so within [40, 200] whenever that range is not inverted |
| RandomMode.OnStep | server/utils/Modes/random_mode.py:38-63 | nothing happens in the gamified variant or without a target; a non-matching step resets the count; a matching one counts, and the twentieth picks a new target and resets the count |
| RandomMode.MatchingStepsCount | server/utils/Modes/random_mode.py:47-56 | fewer than twenty matching steps in a row keep the target and raise the count by their number |
| RandomMode.HandleStep | server/utils/Modes/random_mode.py:65-111 | the returned BPM is always the new target; the first call picks one; the simple variant returns its target unchanged; a target older than 20 s is replaced; losing the match clears the hold timer |
| RandomMode.HoldNeedsTenSeconds | server/utils/Modes/random_mode.py:92-102 | a match held for at most 10 s keeps the target, and the first matching call starts the hold timer |
| RandomMode.HeldMatchWins | server/utils/Modes/random_mode.py:100-129 | a match held for more than 10 s picks a new target, assigned now, with the hold timer cleared |
| Cadence.New | midi_files/BPMcalculations.py:12-15 | a fresh calculator has no step time and an empty window |
| Cadence.Push | midi_files/BPMcalculations.py:15-33 | the window holds at most `size` positive intervals, and they are the last `size` of the old window plus the new interval |
| Cadence.AddStep | midi_files/BPMcalculations.py:18-37 | the step time is always recorded; the first step and a non-positive interval give no reading and leave the window alone; otherwise the instant BPM is 60 over the interval and the smoothed BPM 60 over the mean of the updated window |
| Cadence.AddStepGap | midi_files/BPMcalculations.py:22-33 | the window after a step is the last `size` of the old window plus the interval the step contributes, if any |
| Cadence.FeedWindow | midi_files/BPMcalculations.py:15-33 | after any sequence of steps the window is exactly the last `size` positive intervals of the whole history |
| Cadence.WindowStep | midi_files/BPMcalculations.py:15-33 | one step followed by later intervals leaves the same last `size` intervals as the history they extend |
| Cadence.SmoothedWithinWindow | midi_files/BPMcalculations.py:35-36 | the smoothed BPM lies between the BPMs of the longest and the shortest interval in the window |
| Cadence.SteadyCadence | midi_files/BPMcalculations.py:34-36 | at a steady interval the instant and smoothed BPM agree |
| MidiPlayer.TempoToBpm | server/utils/midi_player.py:29 | a tempo in microseconds per quarter note converts to a positive BPM |
| MidiPlayer.FirstTempoIn | server/utils/midi_player.py:27-29 | the tempo of a track's first `set_tempo` message; none exactly when the track has no such message |
| MidiPlayer.FirstTempo | server/utils/midi_player.py:25-30 | the first `set_tempo` found, tracks in file order and messages in track order; none exactly when no track has one |
| MidiPlayer.New | server/utils/midi_player.py:8-18 | construction fails exactly when the file has no tempo; otherwise the walking BPM starts at the song BPM with factor 1 |
| MidiPlayer.SetBpm | server/utils/midi_player.py:32-37 | a non-positive BPM changes nothing; otherwise the player follows it with factor times walking BPM equal to the song BPM |
| MidiPlayer.SetBpmIdempotent | server/utils/midi_player.py:32-37 | setting the same BPM twice is setting it once |
| MidiPlayer.RescaleRemaining | server/utils/midi_player.py:77-82 | when the factor changes mid-wait, the remaining wait scales so that the song time still to wait is unchanged |
| Song.New | midi_files/song.py:11-21 | construction fails exactly when the file has no tempo; otherwise the player follows the song BPM with factor 1 and no predicted drum |
| Song.PhaseCorrection | midi_files/song.py:46-56 | the correction always lies in [0.90, 1.10]; it is 1 without a prediction, `1 - 0.04 * phase error` whenever that lies in the bounds, and the nearer bound when it does not |
| Song.PhaseCorrectionAntitone | midi_files/song.py:47-54 | a later drum never speeds the correction up |
| Song.SetBpm | midi_files/song.py:36-58 | a non-positive BPM changes nothing; otherwise the factor is the song-to-walking ratio times the phase correction, with the song BPM and prediction kept |
| Song.SetBpmFactorBounds | midi_files/song.py:42-58 | the corrected factor stays within 10% of the song-to-walking ratio |
| Song.ObserveMessage | midi_files/song.py:69-75 | a tracked drum hit records when it is due; any other message leaves the prediction, and nothing else ever changes |
| Comms.Received | server/utils/comms.py:19-20 | each line read is handed over stripped, one per read |
| Comms.Exchange | server/utils/comms.py:15-30 | an exchange writes at most `retries` times; a success took at least one write and a failure used all of them |
| Comms.ExchangeSpec | server/utils/comms.py:15-30 | an exchange succeeds exactly when some reply within its attempts is accepted, stops at the first accepted reply, and fails only when no reply is accepted |
| Comms.Repeat | server/utils/comms.py:15-17 | the retry loop writes the same line every time |
| Comms.SendWithRetries | server/comms.py:14-29 | the loop's verdict and written lines are those of the exchange: the command line, once per attempt made |
| Comms.ConfigLine | server/utils/comms.py:11 | a setting line starts with the prefix and a comma and ends with a newline |
| Comms.ConfigLineRoundTrip | server/utils/comms.py:11 | cutting the stripped setting line at its first comma gives back the prefix and a field that parses to the value |
| Comms.StripTrailingNewline | server/utils/comms.py:20 | stripping a line that was written with a trailing newline gives the line back |
| Comms.SendConfigCommand | server/utils/comms.py:6-30 | success exactly when one of the first three replies starts with the acknowledgement prefix; one to three identical setting lines are written, all three on failure; writing stops at the first accepted reply, so on success the last reply was the acknowledgement and none before it was |
| Comms.RetriesOutcome | server/utils/comms.py:15-30 | for any acknowledgement rule, the retry loop succeeds exactly when one of its attempts is accepted, writes once per attempt up to the first accepted one, which is the last written, and uses every attempt on failure |
| Comms.CalibrationLine | server/utils/comms.py:35 | the calibration line carries the margin in decimal after `CAL_WEIGHT,` |
| Comms.SendCalibrationCommand | server/utils/comms.py:32-47 | success exactly when one of the first three replies starts with `ACK,CAL_WEIGHT`; one to three calibration lines are written, all three on failure; writing stops at the first accepted reply, so on success it is the last one |
| Comms.SendHandshakeCommand | server/utils/comms.py:49-60 | success exactly when one of the first five replies equals the acknowledgement; one to five copies of the command are written, all five on failure; writing stops at the first reply equal to it, so on success it is the last one |
| Comms.WindowWrites | server/utils/comms.py:69-71 | the window setting costs at most three writes |
| Comms.StrideWrites | server/utils/comms.py:74-76 | the stride setting costs at most three writes |
| Comms.ConfigLineIsNotHandshake | server/utils/comms.py:69-82 | a setting line is never mistaken for RESET or START |
| Comms.SettingLines | server/utils/comms.py:68-76 | the lines written before RESET contain neither RESET nor START |
| Comms.SessionHandshake | server/utils/comms.py:62-87 | the settings come first, then RESET; if RESET is never acknowledged the handshake fails without writing START; success needs RESET acknowledged and ends with START |
| Comms.HandshakeLines | server/utils/comms.py:68-84 | the written lines are the settings, then the RESET attempts, then the START attempts |
| Comms.OneResetOneStart | server/utils/comms.py:78-84 | one attempt each gives exactly RESET then START |
| Comms.DefaultHandshake | server/comms.py:44-69 | with the default window (3) and stride (2) no setting is written: the handshake is the RESET exchange, then the START exchange only if RESET succeeded |
| Comms.HandshakeFirstLine | server/utils/comms.py:69-78 | the first line written is the window setting, else the stride setting, else RESET |
| Comms.HandshakeSucceedsIff | server/utils/comms.py:78-87 | the handshake succeeds exactly when RESET and then START are acknowledged |
| Comms.PromptReceiverStarts | server/utils/comms.py:62-87 | a receiver that acknowledges at once starts the session after exactly RESET and START |
| Comms.ParseStepLine | server/utils/comms.py:89-103 | a step line is accepted exactly when it has four comma-separated fields that parse as integer, integer, number, number; the fields are returned in order, with an average of 0 replaced by the walking BPM |
| Comms.StepLineSplits | server/utils/comms.py:90-92 | a rendered step line splits back into its four fields |
| Comms.SplitFour | server/utils/comms.py:90-92 | four comma-free fields joined by commas split back into themselves once stripped |
| Comms.StepLineRoundTrip | server/utils/comms.py:89-103 | parsing a rendered step line returns its timestamp, foot, instant BPM and average (or the walking BPM for a zero average) |
| Comms.Dispatch | server/utils/comms.py:116-167 | no setting command quits; `CAL_WEIGHT` with no value calibrates with margin 200; `SET_MODE` switches to the lower-cased mode |
| Comms.HandleEngineCommand | server/utils/comms.py:106-170 | only the exact text `QUIT` quits; a command without ':' and other than QUIT does nothing; otherwise the key before the first ':' is upper-cased and dispatched with the rest as value |
| Comms.KeyCommand | server/utils/comms.py:113-115 | a colon-free key without lower-case letters reaches the dispatch unchanged |
| Comms.DispatchReceiver | server/utils/comms.py:126-129 | `SET_WINDOW:n` and `SET_STRIDE:n` configure the receiver with `n` |
| Comms.DispatchGamified | server/utils/comms.py:133-135 | `SET_RANDOM_GAMIFIED:1` turns the gamified variant on and `:0` off, on an estimator with that setter |
| Comms.CommandKeyValue | server/utils/comms.py:113-115 | the key is case-insensitive and the value is everything after the first ':' |
| Comms.ApplyToEstimator | server/utils/comms.py:117-148 | the alpha commands set the clamped alpha, a manual BPM becomes pending, switching to manual sets manual mode, and every other command leaves the estimator alone; the estimator stays valid |
| SessionRunner.Handshake | server/session_runner.py:9-39 | the runner's own handshake has the same verdict and writes the same lines as the shared handshake with the default window and stride |
| SessionRunner.AckStep | server/session_runner.py:14-22 | one more attempt ends the exchange on an exactly matching reply and otherwise leaves one attempt fewer |
| SessionRunner.AckLoop | server/session_runner.py:14-36 | each `for` loop acknowledges and stops exactly as the shared five-attempt exact-match exchange does |
| SessionRunner.IntervalFor | server/session_runner.py:124 | for a positive BPM the interval is the whole number of milliseconds in one beat, rounded down; otherwise 0 |
| SessionRunner.ParseStep | server/session_runner.py:114-130 | a line is rejected exactly when it lacks four fields or a field does not parse; a zero interval with a zero BPM becomes the walking BPM and its interval, and any other step keeps its fields |
| SessionRunner.ParseRenderedStep | server/session_runner.py:115-120 | a rendered step that is not the all-zero placeholder parses back to its fields |
| SessionRunner.PlaceholderFollowsWalkingBpm | server/session_runner.py:122-124 | the placeholder `ts,foot,0,0` reads as a step at the walking BPM |
| SessionRunner.CreateSession | server/session_runner.py:50-54 | the session starts with a valid estimator holding the manual flag and manual BPM given, no steps counted, and the player's tempo as its target |
| SessionRunner.ApplyPending | server/session_runner.py:99-104 | a pending manual BPM is handed to the player and cleared, leaving the rest of the estimator as it was; without one nothing changes |
| SessionRunner.RecordStep | server/session_runner.py:132-137 | exactly the step's time and BPM are recorded in the estimator, and the player follows the BPM only outside manual mode |
| SessionRunner.Tick | server/session_runner.py:99-139 | a pass clears the pending BPM and changes at most the target, the step record and the update time; a missing or malformed line keeps the step record, changes nothing but the pending BPM in manual mode, and otherwise sets the decayed target; a well-formed step is recorded, keeps the target and is followed outside manual mode; the player stays valid |
| SessionRunner.ParseStepDefined | server/session_runner.py:114-124 | whether a line parses does not depend on the walking BPM it may fall back to |
| SessionRunner.Run | server/session_runner.py:91-142 | the loop keeps the mode, the step count and both smoothing factors, and after any pass has no pending manual BPM |
| SessionRunner.ManualModeHoldsTempo | server/session_runner.py:107-137 | in manual mode no sequence of lines moves the tempo once the pending BPM was applied |
| SessionRunner.PendingAppliedOnce | server/session_runner.py:99-104 | a pending manual BPM is applied on the first pass and never again |
| SessionRunner.TargetStaysAtStart | server/session_runner.py:106-137 | as the runner never counts a step, from a fresh estimator no sequence of lines changes the target tempo |
| SessionRunner.StepThenSilenceDriftsBack | server/session_runner.py:106-137 | after a step sets the player to its BPM, a later pass with no line pulls the walking BPM strictly back towards the starting target, by at most 10 BPM per second |
| SessionRunner.RenderedStepFollowed | server/session_runner.py:114-137 | outside manual mode a rendered step sets the player to its BPM and records only its time and BPM |
| ProcessManager.Flatten | server/utils/process_manager.py:29-75 | every element of the command line gives at least one word |
| ProcessManager.OptNum | server/utils/process_manager.py:39-47 | an optional flag built for a given value belongs to that flag's group |
| ProcessManager.IfNum | server/utils/process_manager.py:32-33 | a flag guarded by truthiness belongs to that flag's group |
| ProcessManager.IfText | server/utils/process_manager.py:49-50 | a flag guarded by a non-empty string belongs to that flag's group |
| ProcessManager.OptNumValue | server/utils/process_manager.py:39-42 | a `is not None` flag carries the number's text exactly when the number is given |
| ProcessManager.IfNumValue | server/utils/process_manager.py:32-33 | a truthiness-guarded flag carries the number's text exactly when the number is present and non-zero |
| ProcessManager.ManualArgs | server/utils/process_manager.py:30-33 | the manual part holds only manual flags |
| ProcessManager.ConnectionArgs | server/utils/process_manager.py:35-50 | the connection part holds only connection flags |
| ProcessManager.HybridArgs | server/utils/process_manager.py:52-61 | the hybrid part holds only hybrid flags |
| ProcessManager.GamifiedArg | server/utils/process_manager.py:67-69 | the gamified flag belongs to the random group |
| ProcessManager.RandomArgs | server/utils/process_manager.py:63-75 | the random part holds only random flags |
| ProcessManager.CommandArgs | server/utils/process_manager.py:29 | the command line begins with the interpreter, `main.py` and the MIDI file |
| ProcessManager.ArgvPrefix | server/utils/process_manager.py:29 | the argument vector the process receives begins with the interpreter, `main.py` and the MIDI file |
| ProcessManager.ValueOfAppend | server/utils/process_manager.py:29-75 | looking a flag up in appended arguments finds the first part's occurrence before the second's |
| ProcessManager.Isolate | server/utils/process_manager.py:29-75 | a flag's value and presence depend only on the part that holds its group |
| ProcessManager.CommandLayout | server/utils/process_manager.py:29-75 | the command line is the three words, then the manual, connection, hybrid and random parts, in that order |
| ProcessManager.ManualFlags | server/utils/process_manager.py:30-33 | `--manual` is present exactly in manual mode, and `--bpm` carries the BPM's text exactly in manual mode with a truthy BPM |
| ProcessManager.WindowAndStrideFlags | server/utils/process_manager.py:39-42 | `--smoothing` and `--stride` appear exactly when their value is given, carrying its text |
| ProcessManager.HybridFlags | server/utils/process_manager.py:52-61 | `--hybrid` is present exactly in hybrid mode, and no hybrid setting is passed outside it |
| ProcessManager.RandomFlags | server/utils/process_manager.py:63-75 | no random setting is passed outside random mode; inside it the span is passed only when truthy and each simple-game setting exactly when given |
| ProcessManager.RandomSwitch | server/utils/process_manager.py:63-64 | `--random` is present exactly in random mode |
| ProcessManager.GamifiedFlag | server/utils/process_manager.py:63-69 | `--random-gamified` carries "1" or "0" exactly in random mode with the setting given |
| ProcessManager.Classify | server/utils/process_manager.py:129-163 | a `SESSION_DIR:` line gives its path, and only such lines do; a `DATA_PACKET:` line gives its payload; a `GUI_SYNC:` line gives a colon-free key and the rest as value, or is swallowed without a second colon; exactly the other lines except `EXIT_CLEAN` are logged, prefixed `[Engine] ` |
| ProcessManager.ExitCleanOnly | server/utils/process_manager.py:159-161 | exactly the line `EXIT_CLEAN` stops the reader |
| ProcessManager.SessionDirPayload | server/utils/process_manager.py:132-133 | a session folder path comes through whole, its own colons included |
| ProcessManager.GuiSyncPayload | server/utils/process_manager.py:149-155 | a sync line with a colon-free key forwards that key and the whole value, colons included |
| ProcessManager.ColonSplitUnique | server/utils/process_manager.py:153 | a line splits at its first colon in only one way |
| ProcessManager.GuiSyncNeedsValue | server/utils/process_manager.py:153-154 | a sync line with no colon after the key is dropped |
| ProcessManager.Events | server/utils/process_manager.py:122-165 | each line read gives its classified event, in order; the reader stops at the end of the stream or right after `EXIT_CLEAN` |
| ProcessManager.EventsStep | server/utils/process_manager.py:124-161 | the reader handles one line and continues unless it was `EXIT_CLEAN` |
| ProcessManager.ReadStdout | server/utils/process_manager.py:122-165 | the loop produces exactly the events of the stream and stops running exactly when it saw `EXIT_CLEAN` |
| ProcessManager.SendCommand | server/utils/process_manager.py:167-174 | a running engine receives the command as one newline-terminated line; a stopped one receives nothing |
| ProcessManager.SendUpdate | server/utils/process_manager.py:176-229 | a GUI call writes one line exactly when the engine runs and the call has a command |
| ProcessManager.SentUpdateIsIntended | server/utils/process_manager.py:176-229 | every line a GUI call writes is read by the engine's dispatcher as the action the call intends |
| ProcessManager.StopAsWritten | server/utils/process_manager.py:231-239 | as written, stop clears the running flag first, so nothing is written to the engine, which is killed exactly when it does not exit by itself |
| ProcessManager.StopNeverQuits | server/utils/process_manager.py:231-238 | for a running engine that does not exit by itself, the stop as written writes nothing and kills it, while the corrected stop writes `QUIT` and kills nothing |
| ProcessManager.Stop | server/utils/process_manager.py:231-239 | with `QUIT` sent while still running: nothing happens without a process, at most one line is written, exactly when the engine was running, and that line is `QUIT` |
| ProcessManager.StopQuits | server/utils/process_manager.py:231-238 | stopping a running engine writes `QUIT`, the one command that ends the engine's loop, so it is never killed |
| GuiCommands.UpdateCommand | server/utils/process_manager.py:176-229 | every GUI call but an unknown `update_esp_config` type writes a command, and it starts with the call's key and a colon |
| GuiCommands.KeyIsPlain | server/utils/process_manager.py:177-229 | every key the GUI writes is upper-case and colon-free, so the engine's upper-casing and first-colon split leave it intact |
| GuiCommands.UpdateReachesEngine | server/utils/comms.py:113-165 | the engine's command handler turns each command the GUI writes into the action the GUI call intends |
| GuiCommands.DispatchIntended | server/utils/comms.py:116-165 | for each GUI call's key and value the dispatch chooses the intended action |
| GuiCommands.DispatchIntendedFloat | server/utils/comms.py:117-163 | each float setting dispatches to its setter, or to a format error when the text does not parse |
| GuiCommands.DispatchManualBpm | server/utils/comms.py:123-124 | `SET_MANUAL_BPM` sets the manual BPM it parses |
| GuiCommands.DispatchAlphaUp | server/utils/comms.py:117-118 | `SET_ALPHA_UP` sets the rising alpha it parses |
| GuiCommands.DispatchAlphaDown | server/utils/comms.py:120-121 | `SET_ALPHA_DOWN` sets the falling alpha it parses |
| GuiCommands.DispatchRandomSpan | server/utils/comms.py:130-132 | `SET_RANDOM_SPAN` sets the span only on an estimator that has the setter, and does nothing otherwise |
| GuiCommands.DispatchRandomSimpleThreshold | server/utils/comms.py:136-138 | `SET_RANDOM_SIMPLE_THRESHOLD` acts only on an estimator that has the setter |
| GuiCommands.DispatchRandomSimpleTimeout | server/utils/comms.py:142-144 | `SET_RANDOM_SIMPLE_TIMEOUT` acts only on an estimator that has the setter |
| GuiCommands.DispatchRandomSimpleSteps | server/utils/comms.py:139-141 | `SET_RANDOM_SIMPLE_STEPS:n` sets `n` steps only on an estimator that has the setter |
| GuiCommands.DispatchHybridLockSteps | server/utils/comms.py:156-157 | `SET_HYBRID_LOCK_STEPS:n` sets `n` lock steps |
| GuiCommands.DispatchHybridUnlockTime | server/utils/comms.py:158-159 | `SET_HYBRID_UNLOCK_TIME` sets the unlock time it parses |
| GuiCommands.DispatchHybridStabilityThreshold | server/utils/comms.py:160-161 | `SET_HYBRID_STABILITY_THRESHOLD` sets the stability threshold it parses |
| GuiCommands.DispatchHybridUnlockThreshold | server/utils/comms.py:162-163 | `SET_HYBRID_UNLOCK_THRESHOLD` sets the unlock threshold it parses |
| GuiCommands.DispatchMode | server/utils/comms.py:145-155 | `SET_MODE` with each of the four GUI mode names switches to that mode |
| SessionPlotLogger.ParseFields | data_processing/session_plot_logger.py:63-71 | the six fields give a sample exactly when fields 1-4 are integers and field 5 a float |
| SessionPlotLogger.ParseLine | data_processing/session_plot_logger.py:50-78 | a line not starting `STEP` is ignored, one without six fields is malformed, and an accepted line's fields give its sample, whose foot is 1 or 2 and whose FSR peak lies in [0, 5000] |
| SessionPlotLogger.CsvLine | data_processing/session_plot_logger.py:86 | the CSV line starts `STEP,` and ends with a newline |
| SessionPlotLogger.CsvLineRoundTrip | data_processing/session_plot_logger.py:58-86 | the CSV line written for an accepted sample is read back by the same checks as that sample |
| SessionPlotLogger.AcceptedLine | data_processing/session_plot_logger.py:55-78 | a `STEP` line with six fields denoting a valid sample is accepted as that sample |
| SessionPlotLogger.FieldsRoundTrip | data_processing/session_plot_logger.py:64-86 | the written fields parse back to the sample |
| SessionPlotLogger.CsvSplits | data_processing/session_plot_logger.py:58-86 | the stripped CSV line splits at its commas into the written fields |
| SessionPlotLogger.Step | data_processing/session_plot_logger.py:49-94 | an accepted line appends its sample, and any other line changes nothing |
| SessionPlotLogger.StepKeepsConsistent | data_processing/session_plot_logger.py:80-94 | each iteration keeps `t0` as the first sample's time and every time relative to it |
| SessionPlotLogger.CollectConsistent | data_processing/session_plot_logger.py:37-94 | after the whole session `t0` is the first sample's time, every time is relative to it, and every foot is 1 or 2 |
| SessionPlotLogger.FirstSampleAtZero | data_processing/session_plot_logger.py:80-83 | the first accepted step is at time zero |
| SessionPlotLogger.CollectKeepsAccepted | data_processing/session_plot_logger.py:49-94 | the kept samples are exactly the samples of the accepted lines, in order |
| SessionPlotLogger.Points | data_processing/session_plot_logger.py:106-110 | one point per sample, each with foot 1 or 2 |
| SessionPlotLogger.Insert | data_processing/session_plot_logger.py:106-109 | inserting adds the one point and loses none |
| SessionPlotLogger.InsertSorted | data_processing/session_plot_logger.py:106-109 | inserting into a time-sorted series keeps it sorted |
| SessionPlotLogger.SortByTime | data_processing/session_plot_logger.py:106-110 | the sorted series is ordered by time and a permutation of the points |
| SessionPlotLogger.OfFoot | data_processing/session_plot_logger.py:113-117 | a foot's series holds only that foot's points |
| SessionPlotLogger.FeetPartition | data_processing/session_plot_logger.py:113-117 | the right (1) and left (2) series together are exactly the points |
| SessionPlotLogger.SortedSplitPartitions | data_processing/session_plot_logger.py:106-117 | after sorting, the two feet still partition the points and each series is in time order |
| SessionPlotLogger.FootKeepsOrder | data_processing/session_plot_logger.py:113-117 | splitting a sorted series by foot keeps each part sorted and draws only from it |
| Logger.FieldsDecompose | server/utils/logger.py:9-11 | the hour, minute, second and millisecond fields are in range and add up to the duration |
| Logger.FormatElapsed | server/utils/logger.py:8-12 | read from the right, the stamp is hours, two-digit minutes below 60, two-digit seconds below 60 and three-digit milliseconds, separated by `:`, `:` and `.`, whose weighted sum is the duration |
| Logger.ElapsedReadsBack | server/utils/logger.py:8-12 | below 100 hours the stamp has the `HH:MM:SS.sss` layout, its minutes and seconds are below 60, and its digit groups add back up to the duration |
| Logger.KeepNameChars | server/utils/logger.py:32 | the sanitised name keeps exactly the name's letters, digits, spaces, `_` and `-`, and nothing else |
| Logger.SafeName | server/utils/logger.py:32 | the safe name holds only allowed characters taken from the name, with no surrounding space, and keeps every allowed character of the name other than a space |
| Logger.ParentFolderAsWritten | server/utils/logger.py:30-38 | the constructor files a session in `Default` when no name is given and otherwise in the safe name, and adds no folder at all exactly when the given name sanitises to nothing |
| Logger.PunctuationNameLandsInLogsRoot | server/utils/logger.py:30-35 | the session name `!!!` counts as given but sanitises to nothing, so its session folder lands directly in `logs` |
| Logger.ParentFolder | server/utils/logger.py:30-39 | every session gets exactly one non-empty, sanitised folder below `logs`: the safe name when a name is given and keeps a character, `Default` otherwise; it differs from the code as written exactly for given names that sanitise to nothing |
| Logger.SessionFolder | server/utils/logger.py:35-39 | the session folder is `session_<timestamp>` inside the parent folder |
| Logger.MetaOf | server/utils/logger.py:50-54 | given meta values are kept, and missing ones default to window 3, stride 1 and run type `dynamic` |
| Logger.ElapsedMs | server/utils/logger.py:60-69 | zero before the timer starts; afterwards the time since the start, never negative |
| Logger.LogData | server/utils/logger.py:84-110 | the timer starts, with its message, exactly at the first call with a positive song BPM and then never moves; the CSV row and the data packet carry the same stamp and values; the instant BPM is sent exactly for a step event that has one |
| Logger.LogAll | server/utils/logger.py:84-96 | one row per call |
| Logger.FirstPlaying | server/utils/logger.py:87 | the first call with a positive song BPM, if any |
| Logger.StartedTimerStays | server/utils/logger.py:87-89 | once started, no further call moves the timer |
| Logger.TimerStartsAtFirstPlaying | server/utils/logger.py:87-89 | over a session the timer starts exactly once, at the first call with a positive song BPM, and never without one |
| Logger.FirstRowIsZero | server/utils/logger.py:65-92 | the first row of a session is stamped zero |
| Logger.SilentCallShifts | server/utils/logger.py:87-92 | a call with no positive song BPM leaves the timer unstarted, so later rows are as if the session began after it |
| Logger.SilentPrefixShifts | server/utils/logger.py:87-92 | until the timer starts, each row is the row its call would get at the start of a session |
| Logger.RowsBeforeStartAreZero | server/utils/logger.py:65-92 | every row up to and including the one that starts the timer is stamped zero |
| Plotter.ElapsedToSeconds | server/utils/plotter.py:36-38 | a stamp that does not split into exactly three fields at ':' is rejected |
| Plotter.ParseRealDigits | server/utils/plotter.py:38 | `float` reads a run of digits as its value |
| Plotter.StampFields | server/utils/plotter.py:37 | a logged stamp splits at ':' into its hour, minute and `SS.sss` fields |
| Plotter.StampValue | server/utils/plotter.py:38 | hours times 3600 plus minutes times 60 plus seconds is the duration the fields were cut from |
| Plotter.SecondsFieldReads | server/utils/plotter.py:38 | the `SS.sss` field reads back as its value |
| Plotter.ClockReads | server/utils/plotter.py:36-38 | a clock reading with in-range milliseconds reads back as its value in seconds |
| Plotter.ElapsedRoundTrip | server/utils/plotter.py:36-38 | every stamp the logger writes reads back as the logged duration in seconds |
| Plotter.LoggedTimeReadsBack | server/utils/plotter.py:36-38 | every time cell the logger writes reads back as the elapsed seconds it stamped |
| Plotter.StepEventReadsBack | server/utils/plotter.py:70-73 | the `step_event` column reads back exactly the flag the logger wrote |
| Plotter.StepEventIgnoresCase | server/utils/plotter.py:71-73 | the step flag is read case-insensitively |
| Plotter.Valid | server/utils/plotter.py:279-284 | the rows kept are exactly those with a time and a song BPM, in order |
| Plotter.Times | server/utils/plotter.py:274-281 | the time column of the kept rows |
| Plotter.Songs | server/utils/plotter.py:276-283 | the song BPM column of the kept rows |
| Plotter.StepWalks | server/utils/plotter.py:290-296 | the walking readings trusted are exactly those of step rows |
| Plotter.MaxOrZero | server/utils/plotter.py:311-324 | the maximum of a column, or 0 for an empty one |
| Plotter.Update | server/utils/plotter.py:264-330 | a frame with no kept row changes nothing; the largest time seen never shrinks; a sane view stays sane |
| Plotter.UpdateCoversTimes | server/utils/plotter.py:311-317 | after an update the x axis covers every kept time with five seconds to spare |
| Plotter.UpdateCoversSongs | server/utils/plotter.py:322-330 | after an update the y axis is at least 160 and clears every kept song BPM by 10 |
| Plotter.UpdateCoversSteps | server/utils/plotter.py:290-330 | after an update the y axis clears every trusted walking reading by 10 |
| Plotter.UpdateGrowsOnlyToData | server/utils/plotter.py:311-314 | the x range grows only to a time some kept row carries |
| Plotter.UpdateYOnlyToData | server/utils/plotter.py:322-330 | with rows kept, the y limit is 160 or exactly 10 above a kept song BPM or trusted walking reading |
| Plotter.ValidAppend | server/utils/plotter.py:279-284 | filtering an appended row filters the rows, then the new row |
| Plotter.DroppedRowIgnored | server/utils/plotter.py:279-284 | a row with no time or no song BPM changes nothing |
| Plotter.UpdateAllMonotone | server/utils/plotter.py:234-330 | across any run of frames the view stays at least 10 s and 160 BPM and the x range never shrinks |
| SliceSprites.ColumnsWithContent | server/utils/slice_sprites.py:67 | a column holds content exactly when some row of the mask is set in it |
| SliceSprites.RowsWithContent | server/utils/slice_sprites.py:95 | a row holds content exactly when some column of it is set |
| SliceSprites.ScanContent | server/utils/slice_sprites.py:74-75 | a content column opens a run if none is open, keeping what the scan knows |
| SliceSprites.ScanGap | server/utils/slice_sprites.py:76-80 | a column without content closes the open run, keeping what the scan knows |
| SliceSprites.ScanEnd | server/utils/slice_sprites.py:82-83 | closing the open run at the right edge completes the runs: all maximal, in order, covering every content column |
| SliceSprites.ColumnRuns | server/utils/slice_sprites.py:71-83 | the scan yields maximal runs of content columns, left to right, covering every content column |
| SliceSprites.WideFrames | server/utils/slice_sprites.py:86 | the kept runs are exactly those wider than 50 columns |
| SliceSprites.WideFramesOrdered | server/utils/slice_sprites.py:86 | the filter keeps the runs in order |
| SliceSprites.FirstTrue | server/utils/slice_sprites.py:97-99 | the first content row |
| SliceSprites.LastTrue | server/utils/slice_sprites.py:97-99 | the last content row |
| SliceSprites.RowBounds | server/utils/slice_sprites.py:95-105 | the row range lies in the image and holds every content row; it is the first and last content rows padded by 5 and clamped, or the whole height without content |
| SliceSprites.PadColumns | server/utils/slice_sprites.py:109-110 | a padded run contains the run, stays in the image, and widens each side by 5 unless clamped at the edge |
| SliceSprites.MaximalRunsShareNothing | server/utils/slice_sprites.py:71-83 | two maximal runs that share a column are the same run |
| SliceSprites.WideFramesAreWideRuns | server/utils/slice_sprites.py:71-86 | from a complete list of maximal runs the filter keeps exactly the wide maximal runs |
| SliceSprites.CropsOf | server/utils/slice_sprites.py:107-112 | one crop per frame, in order: the frame padded, between the shared row bounds |
| SliceSprites.CropsOrdered | server/utils/slice_sprites.py:107-110 | padding keeps the crops in left-to-right order |
| SliceSprites.CropsFromWideRuns | server/utils/slice_sprites.py:107-112 | every crop is a wide maximal run, padded |
| SliceSprites.WideRunsCropped | server/utils/slice_sprites.py:107-112 | every wide maximal run has its crop |
| SliceSprites.CropRuns | server/utils/slice_sprites.py:71-112 | the crops of a column profile are exactly the padded wide maximal runs, strictly left to right, all between the given rows |
| SliceSprites.SpriteCrops | server/utils/slice_sprites.py:67-112 | the saved crops are exactly the padded wide maximal runs of content columns, strictly left to right, all between the padded content rows |
| TrainKnn.PrepareDataset | research/train_knn.py:28-41 | sample `i` is the `w` values from `i` and its target is the value after them, one sample per position that has a target |
| TrainKnn.WindowsSlide | research/train_knn.py:28-41 | each window is the previous one shifted by one, its target appended |
| TrainKnn.DatasetRebuildsSeries | research/train_knn.py:28-41 | the first window followed by every target is the whole series |
| TrainKnn.KeepPositive | research/train_knn.py:59 | the kept values are exactly the positive values of the series |
| TrainKnn.KeepPositiveAppend | research/train_knn.py:59 | filtering commutes with concatenation, so the kept values keep the series' order |
| TrainKnn.KeepPositiveIdempotent | research/train_knn.py:59 | filtering twice is filtering once |
| TrainKnn.PositiveSeriesKept | research/train_knn.py:59 | an all-positive series passes unchanged |
| TrainKnn.Dummy | research/train_knn.py:49-55 | the synthetic series has 50 values, each between 100 and 104 |
| TrainKnn.TrainingSeries | research/train_knn.py:49-59 | the logged series filtered to positive values, or the 50-value synthetic series when nothing was logged; every value is positive |
| TrainKnn.QualifyingWindowsArePrefix | research/train_knn.py:66-77 | a window is evaluated exactly when it is at most 10 and leaves at least 10 samples, so the evaluated windows are a prefix of 2..10 |
| TrainKnn.EmptyLogsEvaluateEveryWindow | research/train_knn.py:49-77 | on the synthetic series every window from 2 to 10 is evaluated |
| TrainKnn.BestWindowUnique | research/train_knn.py:66-89 | the choice of window is determined: two windows that both meet it are equal |
| TrainKnn.SelectBestWindow | research/train_knn.py:66-89 | the default 3 when no window is evaluated; otherwise an evaluated window of least error, earlier than any other of equal error |

## Left out

- The receiver firmware and the sensor hardware: only the host's side of the line protocol is modelled.
- Threads, locks, subprocesses, pipes, the serial port, `time.sleep` and busy-waiting: each exchange is a pure function of the lines read, and each loop pass a function of its inputs.
- Console and file output, `logger.log` messages, GUI callbacks and matplotlib drawing: only the values written are modelled, not the writing. This includes the axis limits of the offline step plot at `data_processing/session_plot_logger.py:134-142`.
- Floating point: BPMs and times are exact reals. Python's float `repr` is not modelled: where a float is rendered, its text is an input (`ProcessManager.Num`, a render function or a `whole.frac` pair).
- `int` and `float` on text are modelled for optional sign, ASCII digits and one decimal point after stripping ASCII whitespace. Exponents, `inf`/`nan`, underscores and non-ASCII digits are not modelled, and neither are the non-ASCII cases of `isalnum`, `strip` and `upper`.
- `Logger.FormatElapsed`: times are whole milliseconds, so the rounding of `{:06.3f}` on a fractional millisecond is not modelled.
- `_smooth_towards`, called by the dynamic and hybrid modes (`server/utils/Modes/dynamic_mode.py:38`, `server/utils/Modes/hybrid_mode.py:87`) but not defined in the source, is a function parameter. The estimator's own update smooths inline and is modelled in full.
- `random.uniform` is a sequence of draws in [0, 1] given as a parameter.
- The KNN and LightGBM predictors and `train_test_split`, fitting and scoring in the training script: a window's error is a function parameter. `TrainKnn.SelectBestWindow` does not model a NaN error, nor the failure of the final fit when no positive value is left.
- `server/session_runner.py` imports `BPM_estimation` from its own directory, whose legacy class takes no `manual_mode` or `manual_bpm` arguments and has no `manual_mode` or `check_manual_bpm_update`, so as written the runner fails when it builds the estimator. The model follows the interface the runner calls, that of `server/utils/BPM_estimation.py`.
- LegacyEstimation.UpdateBpm: the legacy decay divides by the time since the last step, so a pass at that same instant raises ZeroDivisionError in the source; the model requires a different clock reading outside manual mode rather than model the crash.
- HybridMode.OnStepAsWritten: the constructor does not clamp `lock_steps`, so with `lock_steps` 0 the first step appends a reading, pops it again and raises at `max([])` (`server/utils/Modes/hybrid_mode.py:40-55`); the model requires a non-zero lock length rather than model that crash, and the other hybrid members require at least one.
- MidiPlayer.TempoToBpm: the `Tempo` type excludes 0, on which `mido.tempo2bpm` (`server/utils/midi_player.py:29`) divides by zero; a file whose first `set_tempo` carries tempo 0 is not modelled.
- Cadence.New: `deque(maxlen=0)` accepts a window of size 0, after which the second step divides by zero; the model requires a window of at least one interval rather than model that crash. The only caller passes 3 (`midi_files/side_test.py:11`).
- The dispatch calls `set_random_mode`, `set_hybrid_mode` and the hybrid setters on the estimator, but the estimator shown has no such methods. Only the action chosen is modelled (`Comms.EngineAction`); its effect is modelled for the estimator's own setters (`Comms.ApplyToEstimator`).
- `Comms.KeyOf` tests only the keys of the same length as the key given. As no two keys are equal, this chooses the same branch as the source's chain of comparisons.
- `Comms.Dispatch`: its own contract states three cases; the value of each remaining key is stated by the `GuiCommands.Dispatch*` lemmas and `Comms.DispatchReceiver`.
- `_read_stderr`, which only logs, and the `json.loads` of data packets: a packet's payload is kept as text.
- The static post-session plot (`save_static_plot`), apart from its reading of the `step_event` column, and `finalize_plot`'s interpolation.
- The sprite slicer's image loading, header crop and content-mask tests: the mask is an input.
- SessionRunner.Run: its contract states only what every pass keeps; what a pass does is stated by `SessionRunner.Tick`, and what runs of passes do by the lemmas about `Run`.

## Findings

| source | as written | input that shows it | evidently intended | confidence | as-written member | corrected member |
|---|---|---|---|---|---|---|
| server/utils/Modes/hybrid_mode.py:49-50 | an overfull stability buffer drops only one reading per step, so after the lock length is lowered its length never equals the lock length | lock length 3, readings 60, 100, 60, then the lock length set to 2: no later run of steps ever locks | the buffer keeps the latest lock-length readings, so a stable run of that length locks | not executed | HybridMode.OnStepAsWritten, HybridMode.OverfullNeverLocks, HybridMode.LoweredLockStepsNeverLocks | HybridMode.OnStep, HybridMode.StableRunLocks |
| server/utils/logger.py:30-35 | a name that is not blank but keeps no allowed character gives an empty safe name, so the session folder is created directly in `logs` | session name `!!!` | such a session goes to `logs/Default` like an unnamed one | not executed | Logger.ParentFolderAsWritten, Logger.PunctuationNameLandsInLogsRoot | Logger.ParentFolder |
| server/utils/process_manager.py:231-238 | stop clears `running` before calling `send_command`, whose guard then drops `QUIT` | stopping a running engine that does not exit by itself: nothing is written and the engine is killed after the 2-second wait | `QUIT` is written before the running flag is cleared, so the engine ends its own loop | not executed | ProcessManager.StopAsWritten, ProcessManager.StopNeverQuits | ProcessManager.Stop, ProcessManager.StopQuits |
