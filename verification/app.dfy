/** The scenes wired to one scene manager: every frame goes to the active
    scene, whose requests (mode changes, switches, result setting, audio
    start-up) are carried out in order, each switch running its exit and
    entry hooks at once. The scene objects are named by their `SceneType`;
    the states of the modelled scenes live beside the manager. */
module App {
  import opened Common
  import SceneManagement
  import CountdownScene
  import ResultScene
  import PlayScenes
  import SelectScenes
  import ChallengeView
  import VoiceContinuity

  datatype World = World(
    manager: SceneManagement.Manager<SceneType>,
    challengeIdle: SelectScenes.ChallengeIdleState,
    countdown: CountdownScene.CountdownState,
    challengePlaying: PlayScenes.ChallengePlayingState,
    playing: PlayScenes.PlayingState,
    result: ResultScene.ResultState,
    audioInits: nat)

  /** Every scene is registered under its own name, and the active object is
      the one the active name denotes. */
  predicate Wired(w: World) {
    && (forall t :: t in w.manager.scenes && w.manager.scenes[t] == t)
    && w.manager.current == w.manager.currentType
  }

  /** What the platform offers during one frame: whether an analyzer exists,
      its volume, the state the challenge plant reports after its own update,
      and what the test-mode view exposes. */
  datatype FrameInput = FrameInput(
    analyzer: bool,
    volume: real,
    reported: PlantState,
    report: PlayScenes.ViewReport)

  /** The entry hook of a scene; the hooks of the other scenes, and every
      exit hook, act only on the page. */
  function Enter(w: World, t: SceneType): (r: World)
    ensures r.manager == w.manager && r.audioInits == w.audioInits
    ensures t == Countdown ==> r.countdown == CountdownScene.Initial
    ensures t == Result ==> r.result == ResultScene.OnEnter(w.result)
    ensures t == ChallengePlaying ==> r.challengePlaying.view.plant.state == Growing
    ensures t !in {Countdown, Result, ChallengePlaying} ==> r == w
  {
    match t
    case Countdown => w.(countdown := CountdownScene.OnEnter(w.countdown))
    case Result => w.(result := ResultScene.OnEnter(w.result))
    case ChallengePlaying => w.(challengePlaying := PlayScenes.ChallengeOnEnter(w.challengePlaying))
    case Playing => w.(playing := PlayScenes.PlayingOnEnter(w.playing).scene)
    case _ => w
  }

  /** Runs the hooks of a switch in order. */
  function RunHooks(w: World, hooks: seq<SceneManagement.Hook<SceneType>>): (r: World)
    ensures r.manager == w.manager && r.audioInits == w.audioInits
    decreases |hooks|
  {
    if |hooks| == 0 then w
    else
      var next := if hooks[0].Enter? then Enter(w, hooks[0].scene) else w;
      RunHooks(next, hooks[1..])
  }

  /** Carries out one request of a scene. */
  function Perform(w: World, req: Request): (r: World)
    ensures r.manager.scenes == w.manager.scenes
    ensures Wired(w) ==> Wired(r)
    ensures req.SetMode? ==> r.manager.mode == req.mode
    ensures !req.SetMode? ==> r.manager.mode == w.manager.mode
    ensures req.SwitchTo? && Wired(w) ==> r.manager.currentType == Some(req.target)
    ensures !req.SwitchTo? ==> r.manager.currentType == w.manager.currentType
    ensures r.audioInits == w.audioInits + (if req.InitializeAudio? then 1 else 0)
  {
    match req
    case SetMode(mode) => w.(manager := SceneManagement.SetMode(w.manager, mode))
    case SwitchTo(t) =>
      var s := SceneManagement.SwitchTo(w.manager, t);
      RunHooks(w.(manager := s.manager), s.hooks)
    case SetResult(result) => w.(result := ResultScene.SetResult(w.result, result))
    case InitializeAudio => w.(audioInits := w.audioInits + 1)
  }

  /** Carries out a scene's requests in order. */
  function PerformAll(w: World, reqs: seq<Request>): (r: World)
    ensures r.manager.scenes == w.manager.scenes
    ensures Wired(w) ==> Wired(r)
    ensures (forall i :: 0 <= i < |reqs| ==> !reqs[i].SetMode?) ==> r.manager.mode == w.manager.mode
    ensures (forall i :: 0 <= i < |reqs| ==> !reqs[i].SwitchTo?) ==> r.manager.currentType == w.manager.currentType
    decreases |reqs|
  {
    if |reqs| == 0 then w else PerformAll(Perform(w, reqs[0]), reqs[1..])
  }

  /** The mode after a scene's requests is the one the last `SetMode` among
      them names, or the old one. */
  function LastMode(reqs: seq<Request>, mode: GameMode): GameMode
    decreases |reqs|
  {
    if |reqs| == 0 then mode
    else if reqs[|reqs| - 1].SetMode? then reqs[|reqs| - 1].mode
    else LastMode(reqs[..|reqs| - 1], mode)
  }

  lemma {:induction false} ModeIsLastRequested(w: World, reqs: seq<Request>)
    ensures PerformAll(w, reqs).manager.mode == LastMode(reqs, w.manager.mode)
    decreases |reqs|
  {
    if |reqs| > 0 {
      ModeIsLastRequested(Perform(w, reqs[0]), reqs[1..]);
      LastModeOfCons(reqs[0], reqs[1..], w.manager.mode);
      assert [reqs[0]] + reqs[1..] == reqs;
    }
  }

  /** Peeling the first request off the front. */
  lemma {:induction false} LastModeOfCons(first: Request, rest: seq<Request>, mode: GameMode)
    ensures LastMode([first] + rest, mode) == LastMode(rest, if first.SetMode? then first.mode else mode)
    decreases |rest|
  {
    var all := [first] + rest;
    if |rest| > 0 {
      assert all[..|all| - 1] == [first] + rest[..|rest| - 1];
      assert all[|all| - 1] == rest[|rest| - 1];
      LastModeOfCons(first, rest[..|rest| - 1], mode);
    } else {
      assert all[..0] == [];
    }
  }

  /** In a wired world a switch makes its target active and then runs the
      target's entry hook, whatever was active before. */
  lemma SwitchEnters(w: World, t: SceneType)
    requires Wired(w)
    ensures Perform(w, SwitchTo(t)) == Enter(w.(manager := w.manager.(current := Some(t), currentType := Some(t))), t)
  {
    var s := SceneManagement.SwitchTo(w.manager, t);
    var w' := w.(manager := s.manager);
    assert s.manager == w.manager.(current := Some(t), currentType := Some(t));
    if w.manager.current.Some? {
      assert s.hooks == [SceneManagement.Exit(w.manager.current.value), SceneManagement.Enter(t)];
      assert s.hooks[1..] == [SceneManagement.Enter(t)];
      assert s.hooks[1..][1..] == [];
      assert RunHooks(w', s.hooks) == RunHooks(w', s.hooks[1..]);
      assert RunHooks(w', s.hooks[1..]) == RunHooks(Enter(w', t), []);
    } else {
      assert s.hooks == [SceneManagement.Enter(t)];
      assert s.hooks[1..] == [];
      assert RunHooks(w', s.hooks) == RunHooks(Enter(w', t), []);
    }
  }

  /** A request list of one or two requests is carried out one by one. */
  lemma PerformPair(w: World, a: Request, b: Request)
    ensures PerformAll(w, [a]) == Perform(w, a)
    ensures PerformAll(w, [a, b]) == Perform(Perform(w, a), b)
  {
    assert [a][1..] == [];
    assert [a, b][1..] == [b];
    assert [b][1..] == [];
    assert PerformAll(w, [a, b]) == PerformAll(Perform(w, a), [b]);
    assert PerformAll(Perform(w, a), [b]) == Perform(Perform(w, a), b);
  }

  /** Requests that leave the mode alone. */
  predicate KeepsMode(reqs: seq<Request>) {
    forall i :: 0 <= i < |reqs| ==> !reqs[i].SetMode?
  }

  /** A countdown frame: the countdown advances, and its switch request (if
      any) is carried out. */
  function CountdownFrame(w: World): (r: World)
    ensures Wired(w) ==> Wired(r)
    ensures r.manager.mode == w.manager.mode && r.manager.scenes == w.manager.scenes
  {
    var t := CountdownScene.Update(w.countdown, w.manager.mode);
    assert KeepsMode(t.requests);
    PerformAll(w.(countdown := t.scene), t.requests)
  }

  /** The volume and plant report of a challenge frame, when an analyzer exists. */
  function ChallengeInput(input: FrameInput): Option<ChallengeView.Frame> {
    if input.analyzer then Some(ChallengeView.Frame(input.volume, input.reported)) else None
  }

  /** A challenge-play frame: the view advances and the outcome requests (if
      any) are carried out. */
  function ChallengeFrame(w: World, input: FrameInput): (r: World)
    ensures Wired(w) ==> Wired(r)
    ensures r.manager.mode == w.manager.mode && r.manager.scenes == w.manager.scenes
  {
    var t := PlayScenes.ChallengeUpdate(w.challengePlaying, ChallengeInput(input));
    assert KeepsMode(t.requests);
    PerformAll(w.(challengePlaying := t.scene), t.requests)
  }

  /** A test-play frame: the selected view is updated (its state is not part of
      this model) and the outcome requests (if any) are carried out. */
  function PlayingFrame(w: World, input: FrameInput): (r: World)
    ensures Wired(w) ==> Wired(r)
    ensures r.manager.mode == w.manager.mode && r.manager.scenes == w.manager.scenes
  {
    var report := if input.analyzer then Some(input.report) else None;
    var t := PlayScenes.PlayingUpdate(w.playing, report);
    assert KeepsMode(t.requests);
    PerformAll(w, t.requests)
  }

  /** One frame: only the active scene is updated, and its requests are then
      carried out. A frame never changes the mode, since no frame update
      requests one. */
  function Tick(w: World, input: FrameInput): (r: World)
    ensures Wired(w) ==> Wired(r)
    ensures r.manager.mode == w.manager.mode
    ensures r.manager.scenes == w.manager.scenes
    ensures w.manager.currentType.None? ==> r == w
    ensures w.manager.currentType == Some(Result) ==>
              r == w.(result := ResultScene.Update(w.result))
  {
    match w.manager.currentType
    case None => w
    case Some(Countdown) => CountdownFrame(w)
    case Some(ChallengePlaying) => ChallengeFrame(w, input)
    case Some(Playing) => PlayingFrame(w, input)
    case Some(Result) => w.(result := ResultScene.Update(w.result))
    case Some(ChallengeIdle) =>
      var volume := if input.analyzer then Some(input.volume) else None;
      w.(challengeIdle := SelectScenes.ChallengeIdleUpdate(w.challengeIdle, volume))
    case Some(_) => w
  }

  /** The world after a run of frames. */
  function TickAll(w: World, inputs: seq<FrameInput>): World
    decreases |inputs|
  {
    if |inputs| == 0 then w else Tick(TickAll(w, inputs[..|inputs| - 1]), inputs[|inputs| - 1])
  }

  /** A canvas click goes to the mode-select or challenge-idle scene when one
      of them is active; `hasInitializer` says whether the mode-select scene
      was given an audio initializer. */
  function Click(w: World, x: real, y: real, hasInitializer: bool): (r: World)
    ensures Wired(w) ==> Wired(r)
    ensures w.manager.currentType != Some(ModeSelect) ==> r.manager.mode == w.manager.mode
    ensures w.manager.currentType !in {Some(ModeSelect), Some(ChallengeIdle)} ==> r == w
  {
    match w.manager.currentType
    case Some(ModeSelect) => PerformAll(w, SelectScenes.ModeSelectClick(x, y, hasInitializer))
    case Some(ChallengeIdle) => PerformAll(w, SelectScenes.ChallengeIdleClick(x, y))
    case _ => w
  }

  /** The back button, shown only while the result scene is active. */
  function Back(w: World): (r: World)
    ensures Wired(w) && w.manager.currentType == Some(Result) ==> r.manager.currentType == Some(Opening)
    ensures w.manager.currentType != Some(Result) ==> r == w
    ensures r.manager.mode == w.manager.mode
  {
    if w.manager.currentType == Some(Result) then PerformAll(w, ResultScene.HandleBack()) else w
  }

  /** Scenario: in a challenge session, a frame in which the plant reports
      itself cleared sets the result to a clear and shows it at once, with no
      shake and full opacity. */
  lemma ChallengeClearShowsClear(w: World, input: FrameInput)
    requires Wired(w) && w.manager.currentType == Some(ChallengePlaying)
    requires input.analyzer && input.reported == Cleared
    ensures Tick(w, input).manager.currentType == Some(Result)
    ensures Tick(w, input).result == ResultScene.ResultState(ClearResult, 0, ResultScene.FullAlpha)
  {
    ChallengeView.ClearedIsBarrier(w.challengePlaying.view, input.volume, input.reported);
    var t := PlayScenes.ChallengeUpdate(w.challengePlaying, Some(ChallengeView.Frame(input.volume, input.reported)));
    var w1 := w.(challengePlaying := t.scene);
    PerformPair(w1, SetResult(ClearResult), SwitchTo(Result));
    SwitchEnters(Perform(w1, SetResult(ClearResult)), Result);
  }

  /** Scenario: in a challenge session, a frame in which the plant still grows
      but the detector reports a dropout shows a game over, starting with the
      full shake and a transparent screen. */
  lemma ChallengeDropoutShowsGameOver(w: World, input: FrameInput)
    requires Wired(w) && w.manager.currentType == Some(ChallengePlaying)
    requires input.analyzer && input.reported == Growing
    requires VoiceContinuity.IsVoiceLost(VoiceContinuity.Update(w.challengePlaying.view.detector, input.volume))
    ensures Tick(w, input).manager.currentType == Some(Result)
    ensures Tick(w, input).result == ResultScene.ResultState(GameOverResult, ResultScene.ShakeDuration, 0)
  {
    var t := PlayScenes.ChallengeUpdate(w.challengePlaying, Some(ChallengeView.Frame(input.volume, input.reported)));
    PlayScenes.DropoutGoesToResult(w.challengePlaying, ChallengeView.Frame(input.volume, input.reported));
    var w1 := w.(challengePlaying := t.scene);
    PerformPair(w1, SetResult(GameOverResult), SwitchTo(Result));
    SwitchEnters(Perform(w1, SetResult(GameOverResult)), Result);
  }

  /** A frame reaches the active play scene's frame function. */
  lemma TickDispatch(w: World, input: FrameInput)
    ensures w.manager.currentType == Some(Playing) ==> Tick(w, input) == PlayingFrame(w, input)
    ensures w.manager.currentType == Some(ChallengePlaying) ==> Tick(w, input) == ChallengeFrame(w, input)
    ensures w.manager.currentType == Some(Countdown) ==> Tick(w, input) == CountdownFrame(w)
  {
  }

  /** A countdown frame without a request changes only the countdown. */
  lemma QuietCountdownFrame(w: World)
    requires CountdownScene.Update(w.countdown, w.manager.mode).requests == []
    ensures CountdownFrame(w) == w.(countdown := CountdownScene.Update(w.countdown, w.manager.mode).scene)
  {
  }

  /** A test-play frame with an analyzer carries out the play scene's requests. */
  lemma PlayingFrameRequests(w: World, input: FrameInput)
    requires input.analyzer
    ensures PlayingFrame(w, input) == PerformAll(w, PlayScenes.PlayingUpdate(w.playing, Some(input.report)).requests)
  {
  }

  /** A test-play frame with a cleared plant carries out the result requests. */
  lemma TestClearFrame(w: World, input: FrameInput)
    requires Wired(w) && w.manager.currentType == Some(Playing)
    requires input.analyzer && input.report.plantState == Some(Cleared)
    ensures Tick(w, input) == PerformAll(w, PlayScenes.ToResult(ClearResult, w.playing.hasResultScene))
  {
    TickDispatch(w, input);
    PlayingFrameRequests(w, input);
  }

  /** Scenario: in test mode with a result scene wired into the play scene, a
      cleared plant shows a clear with no shake and full opacity. */
  lemma TestClearShowsClear(w: World, input: FrameInput)
    requires Wired(w) && w.manager.currentType == Some(Playing) && w.playing.hasResultScene
    requires input.analyzer && input.report.plantState == Some(Cleared)
    ensures Tick(w, input).manager.currentType == Some(Result)
    ensures Tick(w, input).result == ResultScene.ResultState(ClearResult, 0, ResultScene.FullAlpha)
  {
    TestClearFrame(w, input);
    PerformPair(w, SetResult(ClearResult), SwitchTo(Result));
    SwitchEnters(Perform(w, SetResult(ClearResult)), Result);
  }

  /** Scenario: in test mode without a result scene wired in, a cleared plant
      still switches to the result scene, whose outcome is left as it was. */
  lemma TestClearWithoutResultScene(w: World, input: FrameInput)
    requires Wired(w) && w.manager.currentType == Some(Playing) && !w.playing.hasResultScene
    requires input.analyzer && input.report.plantState == Some(Cleared)
    ensures Tick(w, input).manager.currentType == Some(Result)
    ensures Tick(w, input).result == ResultScene.OnEnter(w.result)
    ensures Tick(w, input).result.result == w.result.result
  {
    TestClearFrame(w, input);
    PerformPair(w, SwitchTo(Result), SwitchTo(Result));
    SwitchEnters(w, Result);
  }

  /** Scenario: choosing the challenge button on the mode-select screen starts
      the audio (when an initializer was given), sets challenge mode and opens
      the challenge idle screen. */
  lemma ChooseChallenge(w: World, x: real, y: real, hasInitializer: bool)
    requires Wired(w) && w.manager.currentType == Some(ModeSelect)
    requires SelectScenes.IsInsideButton(x, y, SelectScenes.ChallengeModeButton)
    ensures Click(w, x, y, hasInitializer).manager.mode == ChallengeMode
    ensures Click(w, x, y, hasInitializer).manager.currentType == Some(ChallengeIdle)
    ensures Click(w, x, y, hasInitializer).audioInits == w.audioInits + (if hasInitializer then 1 else 0)
  {
    SelectScenes.ModeButtonsDisjoint(x, y);
    var modeAndSwitch := [SetMode(ChallengeMode), SwitchTo(ChallengeIdle)];
    PerformPair(w, SetMode(ChallengeMode), SwitchTo(ChallengeIdle));
    SwitchEnters(Perform(w, SetMode(ChallengeMode)), ChallengeIdle);
    if hasInitializer {
      var w1 := Perform(w, InitializeAudio);
      assert ([InitializeAudio] + modeAndSwitch)[1..] == modeAndSwitch;
      PerformPair(w1, SetMode(ChallengeMode), SwitchTo(ChallengeIdle));
      SwitchEnters(Perform(w1, SetMode(ChallengeMode)), ChallengeIdle);
    } else {
      assert [] + modeAndSwitch == modeAndSwitch;
    }
  }

  /** While the countdown runs its first 359 frames nothing but the countdown
      changes; the counter follows the countdown's own schedule. */
  lemma {:induction false} CountdownHoldsScene(w: World, inputs: seq<FrameInput>)
    requires Wired(w) && w.manager.currentType == Some(Countdown) && w.countdown == CountdownScene.Initial
    requires |inputs| < 360
    ensures TickAll(w, inputs) == w.(countdown := CountdownScene.Iterate(CountdownScene.Initial, w.manager.mode, |inputs|))
    decreases |inputs|
  {
    if |inputs| > 0 {
      var n := |inputs| - 1;
      CountdownHoldsScene(w, inputs[..n]);
      CountdownScene.FirstSwitchOnFrame360(w.manager.mode, n);
      var before := TickAll(w, inputs[..n]);
      assert TickAll(w, inputs) == Tick(before, inputs[n]);
      TickDispatch(before, inputs[n]);
      QuietCountdownFrame(before);
    } else {
      assert w.(countdown := CountdownScene.Initial) == w;
    }
  }

  /** Scenario: 360 frames after the countdown is entered, the play scene of
      the mode chosen earlier becomes active; a challenge session starts with
      a growing plant. */
  lemma CountdownRoutesByMode(w: World, inputs: seq<FrameInput>)
    requires Wired(w) && w.manager.currentType == Some(Countdown) && w.countdown == CountdownScene.Initial
    requires |inputs| == 360
    ensures TickAll(w, inputs).manager.currentType == Some(CountdownScene.PlayTarget(w.manager.mode))
    ensures TickAll(w, inputs).manager.mode == w.manager.mode
    ensures w.manager.mode == ChallengeMode ==> TickAll(w, inputs).challengePlaying.view.plant.state == Growing
  {
    var mode := w.manager.mode;
    var n := |inputs| - 1;
    CountdownHoldsScene(w, inputs[..n]);
    CountdownScene.FirstSwitchOnFrame360(mode, n);
    var before := w.(countdown := CountdownScene.Iterate(CountdownScene.Initial, mode, n));
    assert TickAll(w, inputs) == Tick(before, inputs[n]);
    var t := CountdownScene.Update(before.countdown, mode);
    assert t.requests == [SwitchTo(CountdownScene.PlayTarget(mode))];
    PerformPair(before.(countdown := t.scene), SwitchTo(CountdownScene.PlayTarget(mode)), SwitchTo(CountdownScene.PlayTarget(mode)));
    SwitchEnters(before.(countdown := t.scene), CountdownScene.PlayTarget(mode));
  }
}
