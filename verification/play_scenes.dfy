/** The two play scenes: each frame they update their view, read the plant's
    state, and on an outcome set the result and switch to the result scene. */
module PlayScenes {
  import opened Common
  import ChallengeView
  import VoiceContinuity
  import ViewSelection

  /** The result scene's setter call (when one is wired in) followed by the
      switch to it. */
  function ToResult(result: GameResult, hasResultScene: bool): (r: seq<Request>)
    ensures |r| > 0 && r[|r| - 1] == SwitchTo(Result)
    ensures hasResultScene ==> r == [SetResult(result), SwitchTo(Result)]
    ensures !hasResultScene ==> r == [SwitchTo(Result)]
  {
    (if hasResultScene then [SetResult(result)] else []) + [SwitchTo(Result)]
  }

  // ---- Challenge mode ----

  datatype ChallengePlayingState = ChallengePlayingState(view: ChallengeView.View)

  datatype ChallengeTick = ChallengeTick(scene: ChallengePlayingState, requests: seq<Request>)

  /** Entry starts a fresh session on the view. */
  function ChallengeOnEnter(s: ChallengePlayingState): (r: ChallengePlayingState)
    ensures r.view.plant.state == Growing
    ensures r.view.detector == VoiceContinuity.Reset(s.view.detector)
  {
    ChallengePlayingState(ChallengeView.Reset(s.view).view)
  }

  /** One frame; `frame` is `None` when no audio analyzer is available. */
  function ChallengeUpdate(s: ChallengePlayingState, frame: Option<ChallengeView.Frame>): (r: ChallengeTick)
    ensures frame.None? ==> r == ChallengeTick(s, [])
    ensures frame.Some? ==>
              r.scene.view == ChallengeView.Update(s.view, frame.value.volume, frame.value.reported).view
    ensures frame.Some? && r.scene.view.plant.state == Cleared ==>
              r.requests == [SetResult(ClearResult), SwitchTo(Result)]
    ensures frame.Some? && r.scene.view.plant.state == GameOver ==>
              r.requests == [SetResult(GameOverResult), SwitchTo(Result)]
    ensures frame.Some? && r.scene.view.plant.state == Growing ==> r.requests == []
  {
    match frame
    case None => ChallengeTick(s, [])
    case Some(f) =>
      var view := ChallengeView.Update(s.view, f.volume, f.reported).view;
      var requests :=
        match view.plant.state
        case Cleared => ToResult(ClearResult, true)
        case GameOver => ToResult(GameOverResult, true)
        case Growing => [];
      ChallengeTick(ChallengePlayingState(view), requests)
  }

  /** A frame in which the plant is still growing but the detector reports a
      dropout ends the session at once: the result is set to a game over
      before the switch to the result scene. */
  lemma DropoutGoesToResult(s: ChallengePlayingState, f: ChallengeView.Frame)
    requires f.reported == Growing
    requires VoiceContinuity.IsVoiceLost(VoiceContinuity.Update(s.view.detector, f.volume))
    ensures ChallengeUpdate(s, Some(f)).requests == [SetResult(GameOverResult), SwitchTo(Result)]
  {
  }

  /** A plant that reports itself cleared always leads to a clear, whatever
      the detector says. */
  lemma ClearedGoesToClear(s: ChallengePlayingState, f: ChallengeView.Frame)
    requires f.reported == Cleared
    ensures ChallengeUpdate(s, Some(f)).requests == [SetResult(ClearResult), SwitchTo(Result)]
  {
    ChallengeView.ClearedIsBarrier(s.view, f.volume, f.reported);
  }

  // ---- Test mode ----

  datatype PlayingState = PlayingState(views: ViewSelection.ViewManager, hasResultScene: bool)

  /** What the current view exposes after its update: the plant state and the
      reset-complete check, each `None` when the view lacks the method. */
  datatype ViewReport = ViewReport(plantState: Option<PlantState>, resetComplete: Option<bool>)

  datatype PlayingTick = PlayingTick(updatedView: Option<ViewSelection.ViewId>, requests: seq<Request>)

  /** The calls the scene makes on its view manager. */
  datatype ViewManagerCall = ResetViews

  datatype PlayingEntry = PlayingEntry(scene: PlayingState, calls: seq<ViewManagerCall>)

  /** Entry asks the view manager to reset, and nothing else; the manager
      defines no reset of its own, so the selection it holds is unchanged. */
  function PlayingOnEnter(s: PlayingState): (r: PlayingEntry)
    ensures r.calls == [ResetViews]
    ensures r.scene.views == s.views && r.scene.hasResultScene == s.hasResultScene
  {
    PlayingEntry(s, [ResetViews])
  }

  /** A frame leads to the result scene: a cleared plant always does, a game
      over only once the view exposes and confirms a completed reset. */
  predicate EndsSession(report: ViewReport) {
    || report.plantState == Some(Cleared)
    || (report.plantState == Some(GameOver) && report.resetComplete == Some(true))
  }

  /** One frame; `frame` is `None` when no audio analyzer is available. */
  function PlayingUpdate(s: PlayingState, frame: Option<ViewReport>): (r: PlayingTick)
    ensures frame.None? ==> r == PlayingTick(None, [])
    ensures frame.Some? ==> r.updatedView == Some(ViewSelection.DelegateTarget(s.views))
    ensures (SwitchTo(Result) in r.requests) <==> frame.Some? && EndsSession(frame.value)
    ensures !(frame.Some? && EndsSession(frame.value)) ==> r.requests == []
    ensures r.requests != [] ==> r.requests[|r.requests| - 1] == SwitchTo(Result)
    ensures frame.Some? && frame.value.plantState == Some(Cleared) ==>
              r.requests == ToResult(ClearResult, s.hasResultScene)
    ensures frame.Some? && frame.value.plantState == Some(GameOver) && EndsSession(frame.value) ==>
              r.requests == ToResult(GameOverResult, s.hasResultScene)
    ensures !s.hasResultScene ==> forall i :: 0 <= i < |r.requests| ==> !r.requests[i].SetResult?
  {
    match frame
    case None => PlayingTick(None, [])
    case Some(report) =>
      var requests :=
        match report.plantState
        case None => []
        case Some(Cleared) => ToResult(ClearResult, s.hasResultScene)
        case Some(GameOver) =>
          if report.resetComplete == Some(true) then ToResult(GameOverResult, s.hasResultScene) else []
        case Some(Growing) => [];
      PlayingTick(Some(ViewSelection.DelegateTarget(s.views)), requests)
  }

  /** A view that does not expose its plant state never causes a transition,
      and a game over without a confirmed reset keeps the scene. */
  lemma PlayingStaysWithoutOutcome(s: PlayingState, report: ViewReport)
    requires report.plantState.None? || report.plantState == Some(Growing)
             || (report.plantState == Some(GameOver) && report.resetComplete != Some(true))
    ensures PlayingUpdate(s, Some(report)).requests == []
  {
  }
}
