/** The click-driven scenes: mode selection with two canvas buttons, and the
    challenge idle screen with its start button and a voice preview. */
module SelectScenes {
  import opened Common
  import ChallengeView

  /** A canvas button: top-left corner and size, in canvas pixels. */
  datatype Rect = Rect(x: real, y: real, width: real, height: real)

  const TestModeButton: Rect := Rect(300.0, 200.0, 200.0, 60.0)
  const ChallengeModeButton: Rect := Rect(280.0, 320.0, 240.0, 60.0)
  const ChallengeStartButton: Rect := Rect(250.0, 530.0, 300.0, 50.0)

  /** The hit test: inclusive on all four edges. */
  predicate IsInsideButton(x: real, y: real, b: Rect) {
    b.x <= x <= b.x + b.width && b.y <= y <= b.y + b.height
  }

  /** Every corner of a button hits it, and a point one pixel outside any edge
      does not. */
  lemma HitTestIsInclusive(b: Rect)
    requires b.width >= 0.0 && b.height >= 0.0
    ensures IsInsideButton(b.x, b.y, b) && IsInsideButton(b.x + b.width, b.y + b.height, b)
    ensures IsInsideButton(b.x + b.width, b.y, b) && IsInsideButton(b.x, b.y + b.height, b)
    ensures !IsInsideButton(b.x - 1.0, b.y, b) && !IsInsideButton(b.x + b.width + 1.0, b.y, b)
    ensures !IsInsideButton(b.x, b.y - 1.0, b) && !IsInsideButton(b.x, b.y + b.height + 1.0, b)
  {
  }

  /** The two mode buttons share no point, so one click picks at most one mode. */
  lemma ModeButtonsDisjoint(x: real, y: real)
    ensures !(IsInsideButton(x, y, TestModeButton) && IsInsideButton(x, y, ChallengeModeButton))
  {
  }

  /** A click on the mode-select screen. `hasInitializer` says whether the
      caller passed an audio initializer; it runs (to completion) before the
      challenge mode is set. */
  function ModeSelectClick(x: real, y: real, hasInitializer: bool): (r: seq<Request>)
    ensures IsInsideButton(x, y, TestModeButton) ==> r == [SetMode(TestMode), SwitchTo(TestIdle)]
    ensures IsInsideButton(x, y, ChallengeModeButton) ==>
              r == (if hasInitializer then [InitializeAudio] else []) + [SetMode(ChallengeMode), SwitchTo(ChallengeIdle)]
    ensures !IsInsideButton(x, y, TestModeButton) && !IsInsideButton(x, y, ChallengeModeButton) ==> r == []
  {
    if IsInsideButton(x, y, TestModeButton) then
      [SetMode(TestMode), SwitchTo(TestIdle)]
    else if IsInsideButton(x, y, ChallengeModeButton) then
      (if hasInitializer then [InitializeAudio] else []) + [SetMode(ChallengeMode), SwitchTo(ChallengeIdle)]
    else
      []
  }

  datatype ChallengeIdleState = ChallengeIdleState(view: ChallengeView.View)

  /** A click on the challenge idle screen: inside the start button the audio
      is initialised and then the message scene requested; the mode is never
      touched. */
  function ChallengeIdleClick(x: real, y: real): (r: seq<Request>)
    ensures IsInsideButton(x, y, ChallengeStartButton) ==> r == [InitializeAudio, SwitchTo(Message)]
    ensures !IsInsideButton(x, y, ChallengeStartButton) ==> r == []
    ensures forall i :: 0 <= i < |r| ==> !r[i].SetMode?
  {
    if IsInsideButton(x, y, ChallengeStartButton) then [InitializeAudio, SwitchTo(Message)] else []
  }

  /** One idle frame; `volume` is `None` when no audio analyzer is available.
      The preview never feeds the dropout detector. */
  function ChallengeIdleUpdate(s: ChallengeIdleState, volume: Option<real>): (r: ChallengeIdleState)
    ensures r.view.detector == s.view.detector
    ensures volume.None? ==> r == s
  {
    match volume
    case None => s
    case Some(v) => ChallengeIdleState(ChallengeView.UpdatePreview(s.view, v).view)
  }
}
