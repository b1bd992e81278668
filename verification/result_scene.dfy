/** The result screen: an outcome set from outside before entry, a shake of 10
    frames and then a fade-in by 8 per frame for a game over, an immediate
    display for a clear, and a back action to the opening scene. */
module ResultScene {
  import opened Common

  const ShakeDuration: int := 10
  const FadeStep: int := 8
  const FullAlpha: int := 255

  datatype ResultState = ResultState(result: GameResult, shakeFrames: int, fadeAlpha: int)

  /** The field initializers: the outcome defaults to a game over. */
  const Initial: ResultState := ResultState(GameOverResult, 0, 0)

  /** The counters stay within their ranges. */
  predicate Valid(s: ResultState) {
    0 <= s.shakeFrames <= ShakeDuration && 0 <= s.fadeAlpha <= FullAlpha
  }

  function SetResult(s: ResultState, result: GameResult): (r: ResultState)
    ensures r.result == result
    ensures r.shakeFrames == s.shakeFrames && r.fadeAlpha == s.fadeAlpha
  {
    s.(result := result)
  }

  /** Entry starts the effect for the outcome already set; it never changes
      the outcome itself. */
  function OnEnter(s: ResultState): (r: ResultState)
    ensures r.result == s.result
    ensures s.result == GameOverResult ==> r.shakeFrames == ShakeDuration && r.fadeAlpha == 0
    ensures s.result == ClearResult ==> r.shakeFrames == 0 && r.fadeAlpha == FullAlpha
    ensures Valid(r)
  {
    if s.result == GameOverResult then s.(shakeFrames := ShakeDuration, fadeAlpha := 0)
    else s.(shakeFrames := 0, fadeAlpha := FullAlpha)
  }

  /** One frame: for a game over the shake counts down to 0, and only once it
      is 0 does the fade rise by 8, capped at 255; a clear is left as it is. */
  function Update(s: ResultState): (r: ResultState)
    ensures r.result == s.result
    ensures s.result == ClearResult ==> r == s
    ensures s.result == GameOverResult ==>
              r.shakeFrames == (if s.shakeFrames > 0 then s.shakeFrames - 1 else s.shakeFrames)
    ensures r.fadeAlpha > s.fadeAlpha ==>
              r.shakeFrames == 0 && r.fadeAlpha == (if s.fadeAlpha + FadeStep > FullAlpha then FullAlpha else s.fadeAlpha + FadeStep)
    ensures s.result == GameOverResult && r.shakeFrames == 0 && s.fadeAlpha < FullAlpha ==>
              r.fadeAlpha == (if s.fadeAlpha + FadeStep > FullAlpha then FullAlpha else s.fadeAlpha + FadeStep)
    ensures r.fadeAlpha >= s.fadeAlpha
    ensures Valid(s) ==> Valid(r)
  {
    if s.result == GameOverResult then
      var shake := if s.shakeFrames > 0 then s.shakeFrames - 1 else s.shakeFrames;
      var fade := if shake == 0 && s.fadeAlpha < FullAlpha then
                    (if s.fadeAlpha + FadeStep > FullAlpha then FullAlpha else s.fadeAlpha + FadeStep)
                  else s.fadeAlpha;
      s.(shakeFrames := shake, fadeAlpha := fade)
    else s
  }

  /** The back action's request. */
  function HandleBack(): (r: seq<Request>)
    ensures r == [SwitchTo(Opening)]
  {
    [SwitchTo(Opening)]
  }

  /** The scene after `n` frames. */
  function Iterate(s: ResultState, n: nat): ResultState
    decreases n
  {
    if n == 0 then s else Update(Iterate(s, n - 1))
  }

  /** The fade a game-over screen shows after `n` frames from entry. */
  function GameOverFade(n: nat): int {
    if n < ShakeDuration then 0
    else if FadeStep * (n - ShakeDuration + 1) > FullAlpha then FullAlpha
    else FadeStep * (n - ShakeDuration + 1)
  }

  /** After entering with a game over, `n` frames leave the shake at
      `max(0, 10 - n)` and the fade at `min(255, 8 * (n - 9))` from frame 10 on. */
  lemma {:induction false} GameOverSchedule(s: ResultState, n: nat)
    requires s.result == GameOverResult
    ensures Iterate(OnEnter(s), n).result == GameOverResult
    ensures Iterate(OnEnter(s), n).shakeFrames == (if n < ShakeDuration then ShakeDuration - n else 0)
    ensures Iterate(OnEnter(s), n).fadeAlpha == GameOverFade(n)
    decreases n
  {
    if n > 0 {
      GameOverSchedule(s, n - 1);
    }
  }

  /** The game-over fade first reaches 255 on the 41st frame after entry. */
  lemma FullyFadedOnFrame41(s: ResultState, n: nat)
    requires s.result == GameOverResult
    ensures Iterate(OnEnter(s), n).fadeAlpha == FullAlpha <==> n >= 41
  {
    GameOverSchedule(s, n);
  }

  /** The operations the scene receives: the setter, entry and frames. */
  datatype Op = SetOp(result: GameResult) | EnterOp | UpdateOp

  function Apply(s: ResultState, op: Op): ResultState {
    match op
    case SetOp(r) => SetResult(s, r)
    case EnterOp => OnEnter(s)
    case UpdateOp => Update(s)
  }

  function ApplyAll(s: ResultState, ops: seq<Op>): ResultState
    decreases |ops|
  {
    if |ops| == 0 then s else Apply(ApplyAll(s, ops[..|ops| - 1]), ops[|ops| - 1])
  }

  /** The outcome of the last `SetOp` in `ops`, or `result` if there is none. */
  function LastSet(ops: seq<Op>, result: GameResult): GameResult
    decreases |ops|
  {
    if |ops| == 0 then result
    else if ops[|ops| - 1].SetOp? then ops[|ops| - 1].result
    else LastSet(ops[..|ops| - 1], result)
  }

  /** Only the setter writes the outcome: no entry or frame falls back to a
      default, so `SetResult(ClearResult)` before entry shows a clear. */
  lemma {:induction false} OutcomeIsLastSet(s: ResultState, ops: seq<Op>)
    ensures ApplyAll(s, ops).result == LastSet(ops, s.result)
    decreases |ops|
  {
    if |ops| > 0 {
      OutcomeIsLastSet(s, ops[..|ops| - 1]);
    }
  }

  /** The counters stay in range whatever the order of operations. */
  lemma {:induction false} ValidAcrossOps(s: ResultState, ops: seq<Op>)
    requires Valid(s)
    ensures Valid(ApplyAll(s, ops))
    decreases |ops|
  {
    if |ops| > 0 {
      ValidAcrossOps(s, ops[..|ops| - 1]);
    }
  }
}
