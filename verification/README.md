# Voice plant: the tick-driven core in Dafny

The voice plant is a browser game. The player sustains their voice to grow a
plant. In challenge mode the round is lost when the voice drops out for too
long. This project models the game's decision logic as pure per-frame step
functions over immutable records:

- **Dropout detector** (`VoiceContinuity`). It counts consecutive quiet frames. It has a
  grace window measured in frames since reset, and a latched "voice has started" flag.
- **Growth and end detectors.**
  - `Growth` is the MAX-sustain growth system. The height is clamped to 0..400 and grows in steps of 2.
  - `GameFlow` is the controller that ends a round after 60 quiet frames. It only counts once some frame has exceeded the threshold.
- **Challenge view** (`ChallengeView`). It composes the detector with an abstract plant.
  A dropout forces a game over only while the plant is still growing.
- **Scene manager** (`SceneManagement`). It holds one active scene.
  - An unregistered switch is silently ignored.
  - A switch runs the exit hook, then the entry hook.
  - The game mode persists across switches.
- **Scenes.**
  - The countdown (`CountdownScene`), the result screen (`ResultScene`), and the two play scenes (`PlayScenes`).
  - The mode-select and challenge-idle screens (`SelectScenes`), whose clicks are hit-tested on canvas buttons.
- **View selection** (`ViewSelection`). The view type and the Easy-Mode flag choose the view that receives each frame.
- **Helpers.** L-system rewriting (`LSystem`), the Easy-Mode volume gain (`Utils.AmplifyVolume`), and the frequency-band averaging (`Utils.AverageFrequencyBands`).
- **Wiring** (`App`). The scenes are connected through one scene manager.
  - A scene never calls another object directly. Its frame returns a list of requests: set the mode, switch scene, set the result, or initialise audio.
  - `App` carries out those requests in order. Each switch runs the hooks of the scenes involved at once, as the program's synchronous calls do.

Volumes, thresholds and the countdown's alpha are `real`; the result screen's fade alpha is an `int`. Frame counts are `nat` or `int`.
A quantity the program computes by calling code outside this model is a
parameter:

- the plant's own per-frame state;
- the volume an analyzer reports;
- whether an optional method or callback exists.

Where the documentation and the code disagree, the model follows the code:

- **Dropout frame.** The dropout is reported on the 90th consecutive quiet frame, not
  the 91st, because the code compares `silentFrames >= maxSilentFrames`
  (src/systems/VoiceContinuityDetector.ts:65). See `VoiceContinuity.DefaultDropoutOnNinetiethQuietFrame`.
- **Detector defaults.** The comment at src/views/ChallengeModeView.ts:33 gives them as
  0.15, 30 frames and 2 s. The constructor (src/systems/VoiceContinuityDetector.ts:29-36)
  uses 0.05, 90 frames and 3 s. The model uses the constructor's values.
- **Threshold range.**
  - src/scenes/ChallengePlayingScene.ts:115 documents 0.03–0.20.
  - src/systems/VoiceContinuityDetector.ts:25 documents 0.005–0.15.
  - The code only clamps to [0, 1] (src/systems/VoiceContinuityDetector.ts:107). The model does the same.
- **Fade duration.** The result screen's comments speak of a fade of about two seconds. With a step
  of 8 per frame the fade is complete 41 frames after entry, which is under one second at 60 frames per second.

## Model

| member | source | states |
|---|---|---|
| VoiceContinuity.Update | src/systems/VoiceContinuityDetector.ts:42-54 | Every frame adds exactly one elapsed frame. A sample at or above the threshold clears the quiet count and latches the started flag. A quieter one adds exactly one quiet frame and leaves the flag. The settings are untouched. |
| VoiceContinuity.Reset | src/systems/VoiceContinuityDetector.ts:72-76 | Both counters return to zero and the started flag clears. The threshold, the dropout length and the grace window are kept. |
| VoiceContinuity.SetVolumeThreshold | src/systems/VoiceContinuityDetector.ts:106-108 | The stored threshold is the given value clamped to [0, 1]: the value itself when in range, 0 below, 1 above. Nothing else changes. |
| VoiceContinuity.SetMaxSilentFrames | src/systems/VoiceContinuityDetector.ts:114-116 | The stored dropout length is the given value when that is at least 1, and exactly 1 otherwise. Nothing else changes. |
| VoiceContinuity.RunEffect | src/systems/VoiceContinuityDetector.ts:42-54 | Characterises any run of samples. Elapsed frames grow by the run's length. The started flag is set iff it was set or some sample reached the threshold. The quiet count is the length of the run after the last loud sample. |
| VoiceContinuity.VoiceLatchHolds | src/systems/VoiceContinuityDetector.ts:47-53 | Once voice has started, no run of samples clears the flag; only a reset does. |
| VoiceContinuity.NeverLostWithoutVoice | src/systems/VoiceContinuityDetector.ts:60-66 | If no sample ever reaches the threshold from a fresh state, no prefix of the run reports a dropout. |
| VoiceContinuity.LostAfterQuietRun | src/systems/VoiceContinuityDetector.ts:60-66 | After voice started and with a zero quiet count, a quiet run reports a dropout iff the grace window is over and the run is at least the dropout length. |
| VoiceContinuity.DefaultDropoutOnNinetiethQuietFrame | src/systems/VoiceContinuityDetector.ts:29-36 | With the constructor's defaults and the grace window over, the dropout is reported from the 90th quiet sample on, and not before. |
| VoiceContinuity.ResetIsFresh | src/systems/VoiceContinuityDetector.ts:72-76 | A reset detector equals a newly constructed one with the same threshold, dropout length and grace seconds. |
| VoiceContinuity.New | src/systems/VoiceContinuityDetector.ts:29-36 | The defaults are 0.05, 90 frames and 3 s; the grace window is the seconds at 60 frames per second. A new detector has no quiet or elapsed frames, has not heard voice, reports no dropout, and is in its grace window iff the grace time is positive. |
| VoiceContinuity.IsVoiceLost | src/systems/VoiceContinuityDetector.ts:60-66 | Never inside the grace window and never before voice started; otherwise a dropout iff the quiet run is at least the dropout length. |
| VoiceContinuity.IsInGracePeriod | src/systems/VoiceContinuityDetector.ts:90-92 | A non-positive window is never active; at frame 0 the window is active iff it is positive. |
| VoiceContinuity.GraceWindow | src/systems/VoiceContinuityDetector.ts:90-92 | After a reset, the detector is in its grace window iff fewer frames than the window's length have been fed, whatever their volumes. |
| Growth.Update | src/systems/GrowthSystem.ts:21-45 | The recorded maximum never falls, and only a sample of at least 0.15 can raise it. The plant grows (and the sustain count rises by one) iff the sample is at least 0.15 and at least 95 % of the updated maximum, and that maximum is strictly above 0.15. Growth adds min(2, 400 - h). Otherwise the sustain count resets and the height stays. The height invariant is kept. |
| Growth.SetCurrentHeight | src/systems/GrowthSystem.ts:59-61 | The height is the given value clamped to [0, 400]: the value itself when in range, 0 below, 400 above. Nothing else changes. |
| Growth.Reset | src/systems/GrowthSystem.ts:98-102 | Returns the initial state, which satisfies the invariant. |
| Growth.ReachedMaxIffAtTop | src/systems/GrowthSystem.ts:91-93 | Under the invariant, the maximum is reached iff the height is exactly 400. |
| Growth.UpdateNeverShrinks | src/systems/GrowthSystem.ts:35-44 | An update either leaves the height or raises it by min(2, 400 - h). |
| Growth.HasReachedMax | src/systems/GrowthSystem.ts:91-93 | Within the plant's range, the maximum is reached iff the height is exactly 400. |
| Growth.ValidAcrossOps | src/systems/GrowthSystem.ts:40 | The height stays in [0, 400] across any sequence of updates, height sets and resets. |
| Growth.RunMaximum | src/systems/GrowthSystem.ts:23-28 | After any run, the maximum is at least the starting one and at least every sample of 0.15 or more, and it is either the starting maximum or one of those samples. |
| Growth.NoGrowthAtFloor | src/systems/GrowthSystem.ts:23-35 | A session whose samples never exceed 0.15, from a maximum of at most 0.15, never grows the plant, and it leaves the sustain count at 0. |
| GameFlow.Update | src/systems/GameFlowController.ts:23-37 | The maximum becomes the larger of itself and the sample. A sample strictly above the threshold latches the exceeded flag and clears the quiet count. A sample at or below it adds a quiet frame only once the flag is set. |
| GameFlow.ShouldEndGame | src/systems/GameFlowController.ts:43-46 | Never before some sample exceeded the threshold; after that, iff at least 60 quiet frames followed. |
| GameFlow.SetGoalReached | src/systems/GameFlowController.ts:52-54 | Records the goal flag; the threshold, maximum, quiet count and exceeded flag are unchanged. |
| GameFlow.SetVolumeThreshold | src/systems/GameFlowController.ts:84-86 | The stored threshold is the given value clamped to [0, 1]: the value itself when in range, 0 below, 1 above. Nothing else changes. |
| GameFlow.Reset | src/systems/GameFlowController.ts:107-112 | Counters, flags and the maximum return to their initial values. The threshold is kept. |
| GameFlow.RunEffect | src/systems/GameFlowController.ts:23-37 | Characterises any run. The flag is set iff it was set or some sample exceeded the threshold. The quiet count is the number of samples after the last exceeding one. |
| GameFlow.NoEndBeforeExceeding | src/systems/GameFlowController.ts:43-46 | Before the threshold has been exceeded, no run whose samples stay at or below it ends the game or changes the quiet count. |
| GameFlow.EndsOnSixtiethQuietFrame | src/systems/GameFlowController.ts:15 | After one loud sample, the game ends iff at least 60 quiet samples follow. |
| GameFlow.MaxFromReset | src/systems/GameFlowController.ts:26-28 | After a reset, the maximum is the largest sample of the run, or 0. |
| ChallengeView.New | src/views/ChallengeModeView.ts:28-35 | A new view holds a growing plant and a detector built with the detector's defaults; that detector is in its grace window and reports no dropout. |
| ChallengeView.Update | src/views/ChallengeModeView.ts:41-65 | The detector is updated first, then the plant, then both visualizers. A game over is forced iff the plant still grows and the updated detector reports a dropout. Otherwise the plant keeps the state it reported. |
| ChallengeView.UpdatePreview | src/views/ChallengeModeView.ts:104-114 | A preview never touches the detector or the plant's state. |
| ChallengeView.Reset | src/views/ChallengeModeView.ts:211-214 | The plant returns to growing and the detector is reset, in that order. |
| ChallengeView.SetVolumeThreshold | src/views/ChallengeModeView.ts:235-243 | The plant receives the threshold first, iff it accepts one; the detector always receives it, last. |
| ChallengeView.GetPlantState | src/views/ChallengeModeView.ts:197-199 | Forwards the plant's state; the view has none of its own. |
| ChallengeView.ClearedIsBarrier | src/views/ChallengeModeView.ts:57 | A plant that reports itself cleared is never forced to a game over. |
| ChallengeView.PlayFeedsDetector | src/views/ChallengeModeView.ts:45 | Over a session, the view's detector is exactly the detector run over the session's volumes. |
| ChallengeView.PreviewKeepsDetector | src/views/ChallengeModeView.ts:104-114 | Any number of preview frames leaves the detector as it was. |
| ChallengeView.ClearedStaysCleared | src/views/ChallengeModeView.ts:53-61 | A session that starts cleared, whose plant keeps reporting cleared, is cleared after every frame: the dropout check at :57 only fires while growing. |
| ChallengeView.SilentSessionNeverForced | src/views/ChallengeModeView.ts:57-61 | A session in which no sample reaches the threshold never forces a game over. |
| SceneManagement.AddScene | src/scenes/SceneManager.ts:45-47 | Registers the scene under its name, replacing an earlier one. Other registrations, the active scene and the mode are kept. |
| SceneManagement.SwitchTo | src/scenes/SceneManager.ts:53-71 | An unregistered name changes nothing and runs no hook. Otherwise the active scene is exited (if any), then the target entered, and the target becomes active. The mode is unchanged. |
| SceneManagement.SetMode | src/scenes/SceneManager.ts:113-116 | Stores the mode and nothing else. |
| SceneManagement.DelegateTarget | src/scenes/SceneManager.ts:77-91 | `update` and `draw` go to the active scene only; in a consistent manager there is one iff some scene name is active. |
| SceneManagement.GetMode | src/scenes/SceneManager.ts:122-124 | Reports the stored mode, which only `setMode` changes (see SceneManagement.ModeIsLastSet). |
| SceneManagement.GetCurrentSceneName | src/scenes/SceneManager.ts:105-107 | Reports the active scene's name; in a consistent manager it is a registered name, present iff a scene is active. |
| SceneManagement.SwitchToSelfReenters | src/scenes/SceneManager.ts:61-68 | Switching to the active scene exits and re-enters it. |
| SceneManagement.AddThenSwitchEntersNewScene | src/scenes/SceneManager.ts:45-68 | After a re-registration, the switch enters the newly registered object. |
| SceneManagement.ModeIsLastSet | src/scenes/SceneManager.ts:122-124 | The mode read back is the one set last, whatever registrations and switches happened. |
| SceneManagement.HooksAreChained | src/scenes/SceneManager.ts:77-91 | From a new manager, a scene is active exactly when a registered name is. Each hook is part of one exit/enter chain that ends at the active scene, which alone receives update and draw. |
| CountdownScene.PlayTarget | src/scenes/CountdownScene.ts:94-102 | Challenge mode leads to the challenge play scene, test mode to the test play scene. |
| CountdownScene.OnEnter | src/scenes/CountdownScene.ts:29-33 | Entry restarts the count at 5 with the frame counter and alpha at 0, whatever an earlier session left. |
| CountdownScene.Update | src/scenes/CountdownScene.ts:54-104 | The counter wraps every 60 frames and the count drops by one at each wrap. The fade-in alpha lies in [0, 255] and is full from frame 30 of a count. A switch is requested exactly when a wrap takes the count below 0. |
| CountdownScene.CounterSchedule | src/scenes/CountdownScene.ts:29-38 | n frames after entry the counter is n mod 60 and the count is 5 - n div 60. |
| CountdownScene.SwitchSchedule | src/scenes/CountdownScene.ts:81-102 | Frame n+1 after entry requests the switch iff n+1 is a multiple of 60 and at least 360. |
| CountdownScene.FirstSwitchOnFrame360 | src/scenes/CountdownScene.ts:17-19 | No request during the first 359 frames; frame 360 requests the mode's play scene. |
| ResultScene.SetResult | src/scenes/ResultScene.ts:181-185 | Stores the outcome and leaves the counters. |
| ResultScene.OnEnter | src/scenes/ResultScene.ts:38-84 | Entry never changes the outcome. A game over starts a 10-frame shake and a transparent fade. A clear shows at full opacity with no shake. |
| ResultScene.Update | src/scenes/ResultScene.ts:109-132 | For a game over the shake counts down. Once the shake is over the fade rises by 8 each frame, capped at 255, until it is full; it never rises earlier. A clear is untouched. The fade never falls and the counters stay in range. |
| ResultScene.HandleBack | src/scenes/ResultScene.ts:171-175 | The back action requests the opening scene. |
| ResultScene.GameOverSchedule | src/scenes/ResultScene.ts:114-125 | n frames after a game-over entry, the shake is max(0, 10 - n) and the fade follows the closed form. |
| ResultScene.FullyFadedOnFrame41 | src/scenes/ResultScene.ts:121-124 | The game-over fade is 255 iff at least 41 frames have passed since entry. |
| ResultScene.OutcomeIsLastSet | src/scenes/ResultScene.ts:18 | The outcome shown is always the one set last (or the default); entry and frames never rewrite it. |
| ResultScene.ValidAcrossOps | src/scenes/ResultScene.ts:25-27 | The counters stay in range under any sequence of sets, entries and frames. |
| PlayScenes.ToResult | src/scenes/PlayingScene.ts:69-73 | Always ends with the switch to the result scene. It is preceded by setting the result exactly when a result scene is wired in. |
| PlayScenes.ChallengeOnEnter | src/scenes/ChallengePlayingScene.ts:55 | Every entry starts a fresh session: growing plant, reset detector. |
| PlayScenes.ChallengeUpdate | src/scenes/ChallengePlayingScene.ts:80-102 | Without an analyzer, nothing happens. Otherwise the view is updated. Cleared sets a clear, then switches. A game over sets a game over, then switches. Growing requests nothing. |
| PlayScenes.DropoutGoesToResult | src/scenes/ChallengePlayingScene.ts:96-100 | A dropout while growing sets a game over, then switches to the result. |
| PlayScenes.ClearedGoesToClear | src/scenes/ChallengePlayingScene.ts:91-95 | A cleared plant always leads to a clear, whatever the detector says. |
| PlayScenes.PlayingOnEnter | src/scenes/PlayingScene.ts:32-37 | Entry asks the view manager to reset and changes nothing else. |
| PlayScenes.PlayingUpdate | src/scenes/PlayingScene.ts:49-89 | Without an analyzer, nothing happens. The switch to the result happens iff the plant is cleared, or is over with a confirmed reset. Cleared is checked first. No result is set without a result scene. |
| PlayScenes.PlayingStaysWithoutOutcome | src/scenes/PlayingScene.ts:63-85 | A view without a plant state, a growing plant, or a game over without a confirmed reset keeps the scene. |
| SelectScenes.HitTestIsInclusive | src/scenes/ModeSelectScene.ts:164-175 | All four corners of a button hit it; a point one unit beyond any edge does not. |
| SelectScenes.ModeButtonsDisjoint | src/scenes/ModeSelectScene.ts:24-25 | No point lies in both mode buttons. |
| SelectScenes.ModeSelectClick | src/scenes/ModeSelectScene.ts:137-159 | Test button: set test mode, then switch to the test idle scene. Challenge button: initialise audio if an initializer exists, then set challenge mode and switch. Elsewhere: nothing. |
| SelectScenes.ChallengeIdleClick | src/scenes/ChallengeIdleScene.ts:133-151 | Inside the start button: initialise audio, then switch to the message scene. Elsewhere: nothing. Never a mode change. |
| SelectScenes.ChallengeIdleUpdate | src/scenes/ChallengeIdleScene.ts:85-90 | Without an analyzer nothing changes; with one, only the preview runs and the detector is untouched. |
| ViewSelection.SelectRoundTrip | src/ViewManager.ts:60-68 | The chosen view displays the selected type. It is an Easy variant iff Easy Mode is on, except for the visualizer, which has none. |
| ViewSelection.UpdateCurrentView | src/ViewManager.ts:60-68 | Afterwards the current view is the one the type and flag select. |
| ViewSelection.SwitchView | src/ViewManager.ts:43-46 | Sets the type, keeps the flag, and re-selects the view. |
| ViewSelection.SetEasyMode | src/ViewManager.ts:52-55 | Sets the flag, keeps the type, and re-selects the view. |
| ViewSelection.SwitchAndEasyCommute | src/ViewManager.ts:43-55 | Switching the type and setting the flag commute. Setting the flag twice is setting it once. |
| ViewSelection.GettersReportLastSet | src/ViewManager.ts:73-82 | From the constructor, the getters report the last type and flag set. The view receiving update and draw is the one those select. |
| LSystem.Expand | src/views/experimental/fractalAlgorithms.ts:116 | A character becomes its rule when the rule is non-empty, and stays itself otherwise (an empty rule counts as no rule). |
| LSystem.StepDistributes | src/views/experimental/fractalAlgorithms.ts:115-117 | One iteration of a concatenation is the concatenation of the iterations. |
| LSystem.StepOfChar | src/views/experimental/fractalAlgorithms.ts:115-117 | One iteration of a single character is its expansion. |
| LSystem.StepNeverShrinks | src/views/experimental/fractalAlgorithms.ts:115-118 | An iteration is never shorter than its input, and is the identity when no character has a rule. |
| LSystem.GenerateGrows | src/views/experimental/fractalAlgorithms.ts:113-119 | The length never decreases with the number of iterations. |
| LSystem.GenerateComposes | src/views/experimental/fractalAlgorithms.ts:113-119 | n iterations after m iterations are m + n iterations. |
| LSystem.NoRulesKeepsAxiom | src/views/experimental/fractalAlgorithms.ts:112-120 | Without non-empty rules, the axiom is returned unchanged after any number of iterations. |
| LSystem.GenerateLSystem | src/views/experimental/fractalAlgorithms.ts:111-121 | The nested loops compute exactly the iterated rewriting, which is never shorter than the axiom. |
| Utils.AmplifyVolume | src/utils.ts:106-108 | Never above 1. It equals the product when that is at most 1, and is 1 otherwise. |
| Utils.AmplifyIsMonotone | src/utils.ts:107 | For non-negative inputs the gain lies in [0, 1] and never decreases as the volume grows. |
| Utils.DefaultGainSaturatesAtOneThird | src/utils.ts:106 | With the default gain of 3, the output is 1 iff the volume is at least one third. |
| Utils.Boost | src/utils.ts:91-93 | Upper-range segments are multiplied by 1.6, and the result is exactly 1 whenever that product exceeds 1. The others pass through. |
| Utils.AverageFrequencyBands | src/utils.ts:46-98 | Always exactly `segments` values, 16 when the caller gives none. An empty input gives all zeros. Otherwise each value is its segment's shaped average, boosted in the upper range, and so at most 1 there. |
| App.ModeIsLastRequested | src/scenes/SceneManager.ts:113-124 | After a scene's requests, the mode is the one the last mode request names, or the old one. |
| App.SwitchEnters | src/scenes/SceneManager.ts:53-71 | In a wired program, a switch makes its target active and runs the target's entry hook. |
| App.Tick | src/scenes/SceneManager.ts:77-81 | Only the active scene is updated. No frame changes the mode or the registry, and the wiring is kept. |
| App.Click | src/scenes/ModeSelectScene.ts:137-159 | Only the mode-select and challenge-idle scenes react to clicks, and only the mode-select scene can change the mode. |
| App.Back | src/scenes/ResultScene.ts:171-175 | The back action acts only on the result screen and leads to the opening scene. |
| App.ChallengeClearShowsClear | src/scenes/ChallengePlayingScene.ts:91-95 | A challenge frame with a cleared plant makes the result scene active, showing a clear at full opacity with no shake. |
| App.ChallengeDropoutShowsGameOver | src/views/ChallengeModeView.ts:57-61 | A challenge frame with a dropout while growing makes the result scene active, showing a game over with a full shake and zero fade. |
| App.TestClearShowsClear | src/scenes/PlayingScene.ts:67-74 | With a result scene wired in, a test frame with a cleared plant makes the result scene active, showing a clear at full opacity with no shake. |
| App.TestClearWithoutResultScene | src/scenes/PlayingScene.ts:26 | Without a result scene wired in, a cleared plant still switches to the result scene, whose outcome stays as it was. |
| App.ChooseChallenge | src/scenes/ModeSelectScene.ts:147-157 | The challenge button sets challenge mode and opens the challenge idle scene, after one audio start-up if an initializer was given. |
| App.CountdownHoldsScene | src/scenes/CountdownScene.ts:54-83 | For the first 359 frames after entry, only the countdown's own state changes. |
| App.CountdownRoutesByMode | src/scenes/CountdownScene.ts:94-102 | 360 frames after entry, the play scene of the mode chosen earlier is active. A challenge session then starts with a growing plant. |

## Left out

- **Rendering.** Every `draw` method, and the canvas, DOM, overlay and sound side effects of the scenes.
  - Sound calls in the countdown are among them.
  - So is the status message at src/views/ChallengeModeView.ts:64.
- CountdownScene.Update: assumes the sound-manager lookup at src/scenes/CountdownScene.ts:86 succeeds. src/scenes/SceneManager.ts defines no `getSoundManager`, so as written every wrap throws there, before the switch at :94-102; the `?.` only guards a missing result, not a missing method. The model drops the sound call and keeps the switch.
- PlayScenes.PlayingUpdate: assumes the view lookup at src/scenes/PlayingScene.ts:62 succeeds. src/ViewManager.ts defines `getCurrentViewType` (:73) but no `getCurrentView`, so as written every frame with an analyzer throws there. The model takes the current view's report as an input instead.
- **The plant's own logic.** The plant views are not part of this model.
  - The state the plant reports after its per-frame update is an input.
  - So are whether it accepts a volume threshold, and the test-mode view's optional plant state and reset check.
  - src/PlantView.ts does not define the methods the challenge view calls on it. The plant is therefore an abstract record with the states growing, cleared and game over.
- ChallengeView.New: a new plant view starting in the growing state is an assumption, because src/PlantView.ts does not define the plant state the view reads.
- **Other scenes.** The message, opening, idle and test-idle scenes appear only as names a switch can target.
  - The message scene times itself with the wall clock.
- **Entry hooks.** Only the countdown, result, challenge-play and test-play scenes have modelled entry effects.
  - Every exit hook touches only the page.
- **View manager reset.** PlayScenes.PlayingOnEnter records the call to the view manager's `reset`, which src/ViewManager.ts does not define. The model leaves the selection unchanged rather than modelling the missing method.
- **setClearThreshold.** The view manager's and the challenge view's `setClearThreshold`, `getRemainingTime` and `isResetComplete` forward to the plant views, which are not part of this model.
- **Audio start-up.** It is an opaque step, counted by `App` but not modelled. The program awaits it before continuing, and the model treats it as completing.
- **Start-up wiring.** The program's start-up wiring and the view-manager buttons in src/main.ts are not modelled. `App` is stated for any program in which every scene is registered under its own name. It also assumes that the result scene the play scenes hand their outcome to is the same object registered as the result scene.
- Utils.AverageFrequencyBands: the threshold, power and rounding shaping of each segment's average (src/utils.ts:57-88) is a function parameter, because it needs floating-point powers. The model states the length, the all-zero result for an empty input, and the upper-range boost, not the shaped values.
- **JavaScript numbers.** A fractional or negative iteration count in `generateLSystem`, a fractional dropout length, and a negative or fractional `segments` count in `averageFrequencyBands` (where `new Array(segments)` throws) are not modelled.
  - Iterations and segments are `nat`s; the dropout length is an integer.
  - NaN inputs to the clamps are not modelled either.
- Growth.Update: comparisons are over exact reals, not IEEE-754 doubles. Rounding can decide ties differently: with the doubles 0.16 for the maximum and 0.16*0.95 for the volume, `volume >= maxVolume * 0.95` at src/systems/GrowthSystem.ts:32 holds in JavaScript, but over the exact values of those doubles it does not, so the model does not grow the plant. The same holds for `graceSeconds * 60` in VoiceContinuity.New and for the constants 0.15 and 0.95 in `Growth` and 0.4 and 1.6 in `Utils`. It also holds for the product in `amplifyVolume`: in JavaScript `(1/3) * 3` is exactly 1, so the double nearest one third, which lies below one third, already saturates, whereas Utils.DefaultGainSaturatesAtOneThird, stated over exact reals, says a volume below one third does not.
- **Lone surrogates.** The L-system rewrites Unicode scalar values, as `for…of` does. Strings with lone surrogate code units are not modelled.
- **The wider repository.** Particles, effects, the video player, the sound manager and the audio analyzer are not part of this model.
