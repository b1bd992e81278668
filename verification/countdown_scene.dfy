/** The frame-counted countdown 5, 4, ..., 0 ("START!"), one count per 60
    frames, that hands over to the mode's play scene when it passes below 0. */
module CountdownScene {
  import opened Common

  const FramesPerCount: nat := 60
  const StartCount: int := 5
  /** Frames over which each count fades in. */
  const FadeFrames: nat := 30
  const FullAlpha: real := 255.0

  datatype CountdownState = CountdownState(countdown: int, frameCounter: nat, alpha: real)

  /** The state `onEnter` establishes (and the field initializers). */
  const Initial: CountdownState := CountdownState(StartCount, 0, 0.0)

  /** Entry restarts the countdown at 5, with the frame counter and the fade
      at 0, whatever state an earlier session left behind. */
  function OnEnter(c: CountdownState): (r: CountdownState)
    ensures r.countdown == StartCount && r.frameCounter == 0 && r.alpha == 0.0
  {
    Initial
  }

  /** The play scene the countdown hands over to. */
  function PlayTarget(mode: GameMode): (t: SceneType)
    ensures t == ChallengePlaying <==> mode == ChallengeMode
    ensures t == ChallengePlaying || t == Playing
  {
    if mode == ChallengeMode then ChallengePlaying else Playing
  }

  datatype Tick = Tick(scene: CountdownState, requests: seq<Request>)

  /** One frame; `mode` is what the scene manager reports at that frame. */
  function Update(c: CountdownState, mode: GameMode): (r: Tick)
    ensures r.scene.frameCounter < FramesPerCount
    ensures 0.0 <= r.scene.alpha <= FullAlpha
    ensures r.scene.frameCounter >= FadeFrames ==> r.scene.alpha == FullAlpha
    ensures c.frameCounter + 1 >= FramesPerCount ==>
              r.scene.countdown == c.countdown - 1 && r.scene.frameCounter == 0
    ensures c.frameCounter + 1 < FramesPerCount ==>
              r.scene.countdown == c.countdown && r.scene.frameCounter == c.frameCounter + 1
    ensures r.requests != [] <==> c.frameCounter + 1 >= FramesPerCount && c.countdown < 1
    ensures r.requests != [] ==> r.requests == [SwitchTo(PlayTarget(mode))]
  {
    var frame := c.frameCounter + 1;
    var alpha := if frame < FadeFrames then (frame as real / FadeFrames as real) * FullAlpha else FullAlpha;
    if frame >= FramesPerCount then
      var count := c.countdown - 1;
      Tick(CountdownState(count, 0, alpha), if count < 0 then [SwitchTo(PlayTarget(mode))] else [])
    else
      Tick(CountdownState(c.countdown, frame, alpha), [])
  }

  /** The scene after `n` frames. */
  function Iterate(c: CountdownState, mode: GameMode, n: nat): CountdownState
    decreases n
  {
    if n == 0 then c else Update(Iterate(c, mode, n - 1), mode).scene
  }

  /** After `n` frames from entry the frame counter is `n mod 60` and the count
      has dropped once per completed 60 frames. */
  lemma {:induction false} CounterSchedule(mode: GameMode, n: nat)
    ensures Iterate(Initial, mode, n).frameCounter == n % FramesPerCount
    ensures Iterate(Initial, mode, n).countdown == StartCount - n / FramesPerCount
    decreases n
  {
    if n > 0 {
      CounterSchedule(mode, n - 1);
      NextFrameArithmetic(n - 1);
    }
  }

  /** How `n mod 60` and `n div 60` move from one frame to the next. */
  lemma NextFrameArithmetic(m: nat)
    ensures m % FramesPerCount + 1 >= FramesPerCount ==>
              (m + 1) % FramesPerCount == 0 && (m + 1) / FramesPerCount == m / FramesPerCount + 1
    ensures m % FramesPerCount + 1 < FramesPerCount ==>
              (m + 1) % FramesPerCount == m % FramesPerCount + 1 && (m + 1) / FramesPerCount == m / FramesPerCount
  {
    var q, r := m / 60, m % 60;
    assert m == 60 * q + r && 0 <= r < 60;
    if r == 59 {
      assert m + 1 == 60 * (q + 1);
    } else {
      assert m + 1 == 60 * q + (r + 1) && 0 < r + 1 < 60;
    }
  }

  /** The (n+1)-th frame after entry requests a switch exactly when n+1 is a
      multiple of 60 no smaller than 360: the first request comes on frame 360,
      when the count passes from 0 to -1, and none comes earlier. The request
      targets the play scene of the current mode. */
  lemma SwitchSchedule(mode: GameMode, n: nat)
    ensures (Update(Iterate(Initial, mode, n), mode).requests != []
             <==> (n + 1) % FramesPerCount == 0 && n + 1 >= 6 * FramesPerCount)
    ensures Update(Iterate(Initial, mode, n), mode).requests != [] ==>
              Update(Iterate(Initial, mode, n), mode).requests == [SwitchTo(PlayTarget(mode))]
  {
    CounterSchedule(mode, n);
    WrapArithmetic(n);
  }

  /** The wrap that takes the count below zero, in terms of the frame number. */
  lemma WrapArithmetic(n: nat)
    ensures (n % FramesPerCount + 1 >= FramesPerCount && StartCount - n / FramesPerCount < 1)
            <==> ((n + 1) % FramesPerCount == 0 && n + 1 >= 6 * FramesPerCount)
  {
    var q, r := n / 60, n % 60;
    assert n == 60 * q + r && 0 <= r < 60;
    if r == 59 {
      assert n + 1 == 60 * (q + 1);
      assert (n + 1) % 60 == 0;
    } else {
      assert n + 1 == 60 * q + (r + 1) && 0 < r + 1 < 60;
      assert (n + 1) % 60 == r + 1;
    }
  }

  /** Of the first 360 frames after entry, only the 360th makes a request:
      the switch to the mode's play scene. */
  lemma FirstSwitchOnFrame360(mode: GameMode, n: nat)
    requires n < 6 * FramesPerCount
    ensures Update(Iterate(Initial, mode, n), mode).requests != [] <==> n + 1 == 6 * FramesPerCount
    ensures n + 1 == 6 * FramesPerCount ==>
              Update(Iterate(Initial, mode, n), mode).requests == [SwitchTo(PlayTarget(mode))]
  {
    SwitchSchedule(mode, n);
  }
}
