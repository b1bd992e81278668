/** The voice-dropout detector: counts consecutive frames below a volume
    threshold, after a grace window and only once voice has been heard. */
module VoiceContinuity {
  import opened Common

  /** Frames per second assumed when converting the grace period. */
  const FramesPerSecond: real := 60.0

  datatype Detector = Detector(
    volumeThreshold: real,
    silentFrames: nat,
    maxSilentFrames: int,
    graceFrames: real,
    elapsedFrames: nat,
    hasVoiceStarted: bool)

  /** The constructor; its defaults are 0.05, 90 frames and 3 seconds. */
  function New(volumeThreshold: real := 0.05, maxSilentFrames: int := 90,
               graceSeconds: real := 3.0): (r: Detector)
    ensures r.volumeThreshold == volumeThreshold && r.maxSilentFrames == maxSilentFrames
    ensures r.graceFrames == graceSeconds * FramesPerSecond
    ensures r.silentFrames == 0 && r.elapsedFrames == 0 && !HasStartedVoice(r)
    ensures !IsVoiceLost(r)
    ensures IsInGracePeriod(r) <==> graceSeconds > 0.0
  {
    Detector(volumeThreshold, 0, maxSilentFrames, graceSeconds * FramesPerSecond, 0, false)
  }

  /** The configuration, which only the setters change. */
  predicate SameSettings(a: Detector, b: Detector) {
    && a.volumeThreshold == b.volumeThreshold
    && a.maxSilentFrames == b.maxSilentFrames
    && a.graceFrames == b.graceFrames
  }

  /** One frame: a sample at or above the threshold arms the detector and ends
      the silent run; any other sample lengthens the run. */
  function Update(d: Detector, volume: real): (r: Detector)
    ensures r.elapsedFrames == d.elapsedFrames + 1
    ensures volume >= d.volumeThreshold ==> r.silentFrames == 0 && r.hasVoiceStarted
    ensures volume < d.volumeThreshold ==>
              r.silentFrames == d.silentFrames + 1 && r.hasVoiceStarted == d.hasVoiceStarted
    ensures SameSettings(r, d)
  {
    var elapsed := d.elapsedFrames + 1;
    if volume >= d.volumeThreshold then
      d.(elapsedFrames := elapsed, hasVoiceStarted := true, silentFrames := 0)
    else
      d.(elapsedFrames := elapsed, silentFrames := d.silentFrames + 1)
  }

  /** Dropout: never inside the grace window, never before voice started. */
  function IsVoiceLost(d: Detector): (r: bool)
    ensures r ==> !IsInGracePeriod(d) && HasStartedVoice(d)
    ensures !IsInGracePeriod(d) && HasStartedVoice(d) ==> (r <==> d.silentFrames >= d.maxSilentFrames)
  {
    if (d.elapsedFrames as real) < d.graceFrames || !d.hasVoiceStarted then false
    else d.silentFrames >= d.maxSilentFrames
  }

  /** The window counts frames since construction or reset; a non-positive
      window is never active. */
  function IsInGracePeriod(d: Detector): (r: bool)
    ensures d.graceFrames <= 0.0 ==> !r
    ensures d.elapsedFrames == 0 ==> (r <==> d.graceFrames > 0.0)
  {
    (d.elapsedFrames as real) < d.graceFrames
  }

  predicate HasStartedVoice(d: Detector) {
    d.hasVoiceStarted
  }

  /** Clears the counters and the voice latch, keeping the configuration. */
  function Reset(d: Detector): (r: Detector)
    ensures r.silentFrames == 0 && r.elapsedFrames == 0 && !r.hasVoiceStarted
    ensures SameSettings(r, d)
  {
    d.(silentFrames := 0, elapsedFrames := 0, hasVoiceStarted := false)
  }

  function SetVolumeThreshold(d: Detector, threshold: real): (r: Detector)
    ensures 0.0 <= r.volumeThreshold <= 1.0
    ensures 0.0 <= threshold <= 1.0 ==> r.volumeThreshold == threshold
    ensures threshold < 0.0 ==> r.volumeThreshold == 0.0
    ensures threshold > 1.0 ==> r.volumeThreshold == 1.0
    ensures r == d.(volumeThreshold := r.volumeThreshold)
  {
    d.(volumeThreshold := Clamp(0.0, 1.0, threshold))
  }

  function SetMaxSilentFrames(d: Detector, frames: int): (r: Detector)
    ensures r.maxSilentFrames >= 1
    ensures frames >= 1 ==> r.maxSilentFrames == frames
    ensures frames < 1 ==> r.maxSilentFrames == 1
    ensures r == d.(maxSilentFrames := r.maxSilentFrames)
  {
    d.(maxSilentFrames := if frames >= 1 then frames else 1)
  }

  /** The detector after feeding it `samples` in order. */
  function Run(d: Detector, samples: seq<real>): Detector
    decreases |samples|
  {
    if |samples| == 0 then d
    else Update(Run(d, samples[..|samples| - 1]), samples[|samples| - 1])
  }

  /** Some sample of `samples` reaches the threshold. */
  predicate Voiced(samples: seq<real>, threshold: real) {
    exists i :: 0 <= i < |samples| && samples[i] >= threshold
  }

  /** `samples[i]` is the last sample reaching the threshold. */
  predicate LastVoicedAt(samples: seq<real>, threshold: real, i: int) {
    && 0 <= i < |samples|
    && samples[i] >= threshold
    && forall j :: i < j < |samples| ==> samples[j] < threshold
  }

  /** What a run of samples does to the detector, stated without replaying it:
      the frame count grows by the number of samples, the latch is set iff it was
      set or some sample was voiced, and the silent run is the number of samples
      after the last voiced one (or grows by all of them if none was voiced). */
  lemma {:induction false} RunEffect(d: Detector, samples: seq<real>)
    ensures Run(d, samples).elapsedFrames == d.elapsedFrames + |samples|
    ensures SameSettings(Run(d, samples), d)
    ensures (Run(d, samples).hasVoiceStarted
             <==> d.hasVoiceStarted || Voiced(samples, d.volumeThreshold))
    ensures !Voiced(samples, d.volumeThreshold) ==>
              Run(d, samples).silentFrames == d.silentFrames + |samples|
    ensures forall i :: LastVoicedAt(samples, d.volumeThreshold, i) ==>
              Run(d, samples).silentFrames == |samples| - 1 - i
    decreases |samples|
  {
    if |samples| > 0 {
      var n := |samples| - 1;
      var init := samples[..n];
      var v := samples[n];
      RunEffect(d, init);
      var thr := d.volumeThreshold;
      if v >= thr {
        assert LastVoicedAt(samples, thr, n);
        assert Voiced(samples, thr);
        forall i | LastVoicedAt(samples, thr, i) ensures i == n {
          if i < n { assert false; }
        }
      } else {
        assert Voiced(samples, thr) <==> Voiced(init, thr) by {
          if Voiced(samples, thr) {
            var k :| 0 <= k < |samples| && samples[k] >= thr;
            assert k < n && init[k] == samples[k];
          }
          if Voiced(init, thr) {
            var k :| 0 <= k < |init| && init[k] >= thr;
            assert samples[k] == init[k];
          }
        }
        forall i | LastVoicedAt(samples, thr, i)
          ensures Run(d, samples).silentFrames == |samples| - 1 - i
        {
          assert i < n;
          assert LastVoicedAt(init, thr, i);
        }
      }
    }
  }

  /** The voice latch never falls back to false while frames are fed. */
  lemma VoiceLatchHolds(d: Detector, samples: seq<real>)
    requires d.hasVoiceStarted
    ensures Run(d, samples).hasVoiceStarted
  {
    RunEffect(d, samples);
  }

  /** A player who never reaches the threshold is never reported lost, at any
      frame of the run: the detector cannot act as a session timeout. */
  lemma NeverLostWithoutVoice(d: Detector, samples: seq<real>)
    requires !d.hasVoiceStarted
    requires forall i :: 0 <= i < |samples| ==> samples[i] < d.volumeThreshold
    ensures forall k :: 0 <= k <= |samples| ==>
              !Run(d, samples[..k]).hasVoiceStarted && !IsVoiceLost(Run(d, samples[..k]))
  {
    forall k | 0 <= k <= |samples|
      ensures !Run(d, samples[..k]).hasVoiceStarted && !IsVoiceLost(Run(d, samples[..k]))
    {
      RunEffect(d, samples[..k]);
    }
  }

  /** Once voice has started and the last sample was voiced, a run of quiet
      samples is reported lost exactly when it is at least `maxSilentFrames`
      long and the grace window has passed. */
  lemma LostAfterQuietRun(d: Detector, quiet: seq<real>)
    requires d.hasVoiceStarted && d.silentFrames == 0
    requires forall i :: 0 <= i < |quiet| ==> quiet[i] < d.volumeThreshold
    ensures IsVoiceLost(Run(d, quiet)) <==>
              ((d.elapsedFrames + |quiet|) as real >= d.graceFrames
               && |quiet| >= d.maxSilentFrames)
  {
    RunEffect(d, quiet);
  }

  /** With the constructor's defaults and the grace window over, the 90th
      consecutive quiet frame is the first one reported lost. */
  lemma DefaultDropoutOnNinetiethQuietFrame(d: Detector, quiet: seq<real>)
    requires SameSettings(d, New())
    requires d.hasVoiceStarted && d.silentFrames == 0 && d.elapsedFrames >= 180
    requires forall i :: 0 <= i < |quiet| ==> quiet[i] < 0.05
    ensures IsVoiceLost(Run(d, quiet)) <==> |quiet| >= 90
  {
    LostAfterQuietRun(d, quiet);
  }

  /** After a reset, the grace window lasts exactly `graceFrames` frames,
      whatever the samples. */
  lemma {:induction false} GraceWindow(d: Detector, samples: seq<real>)
    ensures IsInGracePeriod(Run(Reset(d), samples)) <==> (|samples| as real) < d.graceFrames
  {
    RunEffect(Reset(d), samples);
  }

  /** Resetting yields the detector the constructor would build with the same
      configuration. */
  lemma ResetIsFresh(d: Detector)
    ensures Reset(d) == New(d.volumeThreshold, d.maxSilentFrames, d.graceFrames / FramesPerSecond)
  {
  }
}
