/** Vocabulary shared by the scene layer: scene names, the game mode, the
    plant's abstract state, the result outcome, the requests a scene makes of
    its collaborators, and the clamp used by every threshold setter. */
module Common {

  datatype Option<T> = None | Some(value: T)

  /** The scene names a scene manager can register (SceneType). */
  datatype SceneType =
    | ModeSelect | TestIdle | ChallengeIdle | Idle | Message
    | Opening | Countdown | Playing | ChallengePlaying | Result

  /** The persistent session mode; `TestMode` is the default. */
  datatype GameMode = TestMode | ChallengeMode

  /** Abstract state of the plant a play view drives. `Growing` is initial,
      `Cleared` and `GameOver` end a session. */
  datatype PlantState = Growing | Cleared | GameOver

  /** The outcome handed to the result scene ('clear' | 'gameover'). */
  datatype GameResult = ClearResult | GameOverResult

  /** A call a scene makes on an object other than itself during one of its
      handlers, in the order it is made. */
  datatype Request =
    | SetMode(mode: GameMode)
    | SwitchTo(target: SceneType)
    | SetResult(result: GameResult)
    | InitializeAudio

  function Min(a: real, b: real): real { if a <= b then a else b }

  function Max(a: real, b: real): real { if a >= b then a else b }

  /** `Math.max(lo, Math.min(hi, x))`. */
  function Clamp(lo: real, hi: real, x: real): (r: real)
    requires lo <= hi
    ensures lo <= r <= hi
    ensures lo <= x <= hi ==> r == x
    ensures x < lo ==> r == lo
    ensures hi < x ==> r == hi
  {
    Max(lo, Min(hi, x))
  }
}
