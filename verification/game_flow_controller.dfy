/** End-of-game detection: after the volume has once exceeded a threshold, the
    game ends when it then stays at or below it for 60 frames in a row. */
module GameFlow {
  import opened Common

  /** Frames in a row at or below the threshold that end the game (1 s at 60 fps). */
  const EndThresholdFrames: nat := 60

  datatype Controller = Controller(
    volumeThreshold: real,
    maxVolume: real,
    belowThresholdFrames: nat,
    hasExceededThreshold: bool,
    goalReached: bool)

  /** The field initializers. */
  const Initial: Controller := Controller(0.05, 0.0, 0, false, false)

  function Update(c: Controller, volume: real): (r: Controller)
    ensures r.maxVolume == Max(c.maxVolume, volume)
    ensures volume > c.volumeThreshold ==> r.hasExceededThreshold && r.belowThresholdFrames == 0
    ensures volume <= c.volumeThreshold ==> r.hasExceededThreshold == c.hasExceededThreshold
    ensures volume <= c.volumeThreshold && c.hasExceededThreshold ==>
              r.belowThresholdFrames == c.belowThresholdFrames + 1
    ensures volume <= c.volumeThreshold && !c.hasExceededThreshold ==>
              r.belowThresholdFrames == c.belowThresholdFrames
    ensures r.goalReached == c.goalReached && r.volumeThreshold == c.volumeThreshold
  {
    var m := if volume > c.maxVolume then volume else c.maxVolume;
    if volume > c.volumeThreshold then
      c.(maxVolume := m, hasExceededThreshold := true, belowThresholdFrames := 0)
    else if c.hasExceededThreshold then
      c.(maxVolume := m, belowThresholdFrames := c.belowThresholdFrames + 1)
    else
      c.(maxVolume := m)
  }

  /** Never before some frame exceeded the threshold; after that, from the
      60th quiet frame in a row on. */
  function ShouldEndGame(c: Controller): (r: bool)
    ensures !c.hasExceededThreshold ==> !r
    ensures c.hasExceededThreshold ==> (r <==> c.belowThresholdFrames >= EndThresholdFrames)
  {
    c.hasExceededThreshold && c.belowThresholdFrames >= EndThresholdFrames
  }

  /** Records whether the goal was reached; nothing else changes. */
  function SetGoalReached(c: Controller, reached: bool): (r: Controller)
    ensures r.goalReached == reached
    ensures r.volumeThreshold == c.volumeThreshold && r.maxVolume == c.maxVolume
    ensures r.belowThresholdFrames == c.belowThresholdFrames
    ensures r.hasExceededThreshold == c.hasExceededThreshold
  {
    c.(goalReached := reached)
  }

  function SetVolumeThreshold(c: Controller, threshold: real): (r: Controller)
    ensures 0.0 <= r.volumeThreshold <= 1.0
    ensures 0.0 <= threshold <= 1.0 ==> r.volumeThreshold == threshold
    ensures threshold < 0.0 ==> r.volumeThreshold == 0.0
    ensures threshold > 1.0 ==> r.volumeThreshold == 1.0
    ensures r == c.(volumeThreshold := r.volumeThreshold)
  {
    c.(volumeThreshold := Clamp(0.0, 1.0, threshold))
  }

  /** Clears the session fields; the threshold survives. */
  function Reset(c: Controller): (r: Controller)
    ensures r.volumeThreshold == c.volumeThreshold
    ensures r.maxVolume == 0.0 && r.belowThresholdFrames == 0
    ensures !r.hasExceededThreshold && !r.goalReached
  {
    Initial.(volumeThreshold := c.volumeThreshold)
  }

  /** The controller after the frames `samples`, in order. */
  function Run(c: Controller, samples: seq<real>): Controller
    decreases |samples|
  {
    if |samples| == 0 then c
    else Update(Run(c, samples[..|samples| - 1]), samples[|samples| - 1])
  }

  predicate Exceeds(samples: seq<real>, threshold: real) {
    exists i :: 0 <= i < |samples| && samples[i] > threshold
  }

  /** `samples[i]` is the last sample strictly above the threshold. */
  predicate LastExceedingAt(samples: seq<real>, threshold: real, i: int) {
    && 0 <= i < |samples|
    && samples[i] > threshold
    && forall j :: i < j < |samples| ==> samples[j] <= threshold
  }

  /** What a run does, stated without replaying it: the maximum is the largest
      of the start and all samples, the latch is set iff it was or some sample
      exceeded, the below-count is frozen until the latch is set and afterwards
      counts the samples after the last exceeding one, and neither the goal flag
      nor the threshold moves. */
  lemma {:induction false} RunEffect(c: Controller, samples: seq<real>)
    ensures Run(c, samples).maxVolume >= c.maxVolume
    ensures forall i :: 0 <= i < |samples| ==> samples[i] <= Run(c, samples).maxVolume
    ensures Run(c, samples).maxVolume == c.maxVolume
         || exists i :: 0 <= i < |samples| && Run(c, samples).maxVolume == samples[i]
    ensures (Run(c, samples).hasExceededThreshold
             <==> c.hasExceededThreshold || Exceeds(samples, c.volumeThreshold))
    ensures !Exceeds(samples, c.volumeThreshold) && !c.hasExceededThreshold ==>
              Run(c, samples).belowThresholdFrames == c.belowThresholdFrames
    ensures !Exceeds(samples, c.volumeThreshold) && c.hasExceededThreshold ==>
              Run(c, samples).belowThresholdFrames == c.belowThresholdFrames + |samples|
    ensures forall i :: LastExceedingAt(samples, c.volumeThreshold, i) ==>
              Run(c, samples).belowThresholdFrames == |samples| - 1 - i
    ensures Run(c, samples).goalReached == c.goalReached
    ensures Run(c, samples).volumeThreshold == c.volumeThreshold
    decreases |samples|
  {
    if |samples| > 0 {
      var n := |samples| - 1;
      var init := samples[..n];
      RunEffect(c, init);
      var thr := c.volumeThreshold;
      var before := Run(c, init).maxVolume;
      var after := Run(c, samples).maxVolume;
      forall i | 0 <= i < |samples| ensures samples[i] <= after {
        if i < n { assert init[i] == samples[i]; }
      }
      if after != c.maxVolume && after == before {
        var k :| 0 <= k < |init| && before == init[k];
        assert samples[k] == init[k];
      }
      if samples[n] > thr {
        assert LastExceedingAt(samples, thr, n);
        forall i | LastExceedingAt(samples, thr, i) ensures i == n {
          if i < n { assert false; }
        }
      } else {
        assert Exceeds(samples, thr) <==> Exceeds(init, thr) by {
          if Exceeds(samples, thr) {
            var k :| 0 <= k < |samples| && samples[k] > thr;
            assert k < n && init[k] == samples[k];
          }
          if Exceeds(init, thr) {
            var k :| 0 <= k < |init| && init[k] > thr;
            assert samples[k] == init[k];
          }
        }
        forall i | LastExceedingAt(samples, thr, i)
          ensures Run(c, samples).belowThresholdFrames == |samples| - 1 - i
        {
          assert i < n;
          assert LastExceedingAt(init, thr, i);
        }
      }
    }
  }

  /** Until some sample strictly exceeds the threshold the game never ends;
      a sample equal to the threshold does not arm it. */
  lemma NoEndBeforeExceeding(c: Controller, samples: seq<real>)
    requires !c.hasExceededThreshold
    requires forall i :: 0 <= i < |samples| ==> samples[i] <= c.volumeThreshold
    ensures !ShouldEndGame(Run(c, samples))
    ensures Run(c, samples).belowThresholdFrames == c.belowThresholdFrames
  {
    RunEffect(c, samples);
  }

  /** After an exceeding sample, the game ends exactly on the 60th sample in a
      row at or below the threshold. */
  lemma EndsOnSixtiethQuietFrame(c: Controller, loud: real, quiet: seq<real>)
    requires loud > c.volumeThreshold
    requires forall i :: 0 <= i < |quiet| ==> quiet[i] <= c.volumeThreshold
    ensures ShouldEndGame(Run(c, [loud] + quiet)) <==> |quiet| >= EndThresholdFrames
  {
    var s := [loud] + quiet;
    assert LastExceedingAt(s, c.volumeThreshold, 0) by {
      forall j | 0 < j < |s| ensures s[j] <= c.volumeThreshold {
        assert s[j] == quiet[j - 1];
      }
    }
    assert Exceeds(s, c.volumeThreshold) by { assert s[0] == loud; }
    RunEffect(c, s);
  }

  /** The maximum after a session started from reset is the largest sample,
      or 0 when every sample was negative or there was none. */
  lemma MaxFromReset(c: Controller, samples: seq<real>)
    ensures Run(Reset(c), samples).maxVolume >= 0.0
    ensures forall i :: 0 <= i < |samples| ==> samples[i] <= Run(Reset(c), samples).maxVolume
    ensures Run(Reset(c), samples).maxVolume == 0.0
         || exists i :: 0 <= i < |samples| && Run(Reset(c), samples).maxVolume == samples[i]
  {
    RunEffect(Reset(c), samples);
  }
}
