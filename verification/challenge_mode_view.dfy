/** The challenge-mode view: a plant plus a voice-dropout detector, with the
    rule that a dropout ends the session only while the plant is growing. */
module ChallengeView {
  import opened Common
  import VoiceContinuity

  /** The plant the view drives. Its own growth logic is not part of this
      model: only the state it reports and whether it exposes a volume-threshold
      setter are. */
  datatype Plant = Plant(state: PlantState, acceptsVolumeThreshold: bool)

  datatype Side = Left | Right

  /** A call the view makes on one of the objects it owns, in order. */
  datatype Call =
    | DetectorUpdate(volume: real)
    | PlantUpdate
    | VisualizerUpdate(side: Side)
    | PlantHeightReset
    | PlantToGameOver
    | PlantPreview(volume: real)
    | PlantReset
    | DetectorReset
    | PlantVolumeThreshold(threshold: real)
    | DetectorVolumeThreshold(threshold: real)

  datatype View = View(plant: Plant, detector: VoiceContinuity.Detector)

  /** A view after one operation, with the calls that operation made. */
  datatype Step = Step(view: View, calls: seq<Call>)

  /** A fresh view: a growing plant and a detector with the constructor's
      defaults, inside its grace window and so reporting no dropout. */
  function New(plantAcceptsThreshold: bool): (r: View)
    ensures r.plant.state == Growing && r.plant.acceptsVolumeThreshold == plantAcceptsThreshold
    ensures r.detector == VoiceContinuity.New()
    ensures VoiceContinuity.IsInGracePeriod(r.detector) && !VoiceContinuity.IsVoiceLost(r.detector)
  {
    View(Plant(Growing, plantAcceptsThreshold), VoiceContinuity.New())
  }

  /** The dropout rule: the plant is still growing after its own update and the
      detector, already fed this frame, reports the voice lost. */
  predicate ForcesGameOver(reported: PlantState, d: VoiceContinuity.Detector) {
    reported == Growing && VoiceContinuity.IsVoiceLost(d)
  }

  /** One playing frame. The volume is read once and fed to the detector before
      the plant updates; `reported` is the state the plant reports after its
      own update. */
  function Update(v: View, volume: real, reported: PlantState): (r: Step)
    ensures r.view.detector == VoiceContinuity.Update(v.detector, volume)
    ensures |r.calls| >= 4
    ensures r.calls[..4] == [DetectorUpdate(volume), PlantUpdate, VisualizerUpdate(Left), VisualizerUpdate(Right)]
    ensures ForcesGameOver(reported, r.view.detector) ==>
              r.calls[4..] == [PlantHeightReset, PlantToGameOver] && r.view.plant.state == GameOver
    ensures !ForcesGameOver(reported, r.view.detector) ==>
              |r.calls| == 4 && r.view.plant.state == reported
    ensures r.view.plant.acceptsVolumeThreshold == v.plant.acceptsVolumeThreshold
  {
    var detector := VoiceContinuity.Update(v.detector, volume);
    var plant := v.plant.(state := reported);
    var calls := [DetectorUpdate(volume), PlantUpdate, VisualizerUpdate(Left), VisualizerUpdate(Right)];
    if ForcesGameOver(plant.state, detector) then
      Step(View(plant.(state := GameOver), detector), calls + [PlantHeightReset, PlantToGameOver])
    else
      Step(View(plant, detector), calls)
  }

  /** One idle frame: the plant shows the volume, the detector is untouched. */
  function UpdatePreview(v: View, volume: real): (r: Step)
    ensures r.view == v
    ensures forall i :: 0 <= i < |r.calls| ==> !r.calls[i].DetectorUpdate? && !r.calls[i].DetectorReset?
    ensures r.calls == [PlantPreview(volume), VisualizerUpdate(Left), VisualizerUpdate(Right)]
  {
    Step(v, [PlantPreview(volume), VisualizerUpdate(Left), VisualizerUpdate(Right)])
  }

  /** The view keeps no state of its own: it reports its plant's. */
  function GetPlantState(v: View): (r: PlantState)
    ensures r == v.plant.state
  {
    v.plant.state
  }

  /** Starts a new session: the plant goes back to growing and the detector
      forgets the previous one. */
  function Reset(v: View): (r: Step)
    ensures r.view.plant.state == Growing
    ensures r.view.detector == VoiceContinuity.Reset(v.detector)
    ensures r.calls == [PlantReset, DetectorReset]
  {
    Step(View(v.plant.(state := Growing), VoiceContinuity.Reset(v.detector)), [PlantReset, DetectorReset])
  }

  /** The threshold always reaches the detector (clamped there); it reaches the
      plant only when the plant exposes a setter. */
  function SetVolumeThreshold(v: View, threshold: real): (r: Step)
    ensures r.view.detector == VoiceContinuity.SetVolumeThreshold(v.detector, threshold)
    ensures r.view.plant == v.plant
    ensures DetectorVolumeThreshold(threshold) in r.calls
    ensures PlantVolumeThreshold(threshold) in r.calls <==> v.plant.acceptsVolumeThreshold
    ensures r.calls == (if v.plant.acceptsVolumeThreshold then [PlantVolumeThreshold(threshold)] else [])
                       + [DetectorVolumeThreshold(threshold)]
  {
    var forPlant := if v.plant.acceptsVolumeThreshold then [PlantVolumeThreshold(threshold)] else [];
    Step(v.(detector := VoiceContinuity.SetVolumeThreshold(v.detector, threshold)),
         forPlant + [DetectorVolumeThreshold(threshold)])
  }

  /** The view never moves a cleared plant, and it ends the session only from
      `Growing`: a game over it produces was either reported by the plant or
      forced by a dropout while growing. */
  lemma ClearedIsBarrier(v: View, volume: real, reported: PlantState)
    ensures reported == Cleared ==> Update(v, volume, reported).view.plant.state == Cleared
    ensures Update(v, volume, reported).view.plant.state == GameOver ==>
              reported == GameOver
              || (reported == Growing
                  && VoiceContinuity.IsVoiceLost(VoiceContinuity.Update(v.detector, volume)))
    ensures Update(v, volume, reported).view.plant.state != GameOver ==>
              Update(v, volume, reported).view.plant.state == reported
  {
  }

  /** One frame of play: the volume and the state the plant reports after it. */
  datatype Frame = Frame(volume: real, reported: PlantState)

  function Volumes(frames: seq<Frame>): (r: seq<real>)
    ensures |r| == |frames|
    ensures forall i :: 0 <= i < |frames| ==> r[i] == frames[i].volume
  {
    seq(|frames|, i requires 0 <= i < |frames| => frames[i].volume)
  }

  function Play(v: View, frames: seq<Frame>): View
    decreases |frames|
  {
    if |frames| == 0 then v
    else Update(Play(v, frames[..|frames| - 1]), frames[|frames| - 1].volume, frames[|frames| - 1].reported).view
  }

  function Preview(v: View, volumes: seq<real>): View
    decreases |volumes|
  {
    if |volumes| == 0 then v
    else UpdatePreview(Preview(v, volumes[..|volumes| - 1]), volumes[|volumes| - 1]).view
  }

  /** Over a whole session the detector sees exactly the frame volumes, each
      once and in order. */
  lemma {:induction false} PlayFeedsDetector(v: View, frames: seq<Frame>)
    ensures Play(v, frames).detector == VoiceContinuity.Run(v.detector, Volumes(frames))
    decreases |frames|
  {
    if |frames| > 0 {
      var n := |frames| - 1;
      PlayFeedsDetector(v, frames[..n]);
      assert Volumes(frames[..n]) == Volumes(frames)[..n];
    }
  }

  /** Idle preview frames never advance the dropout counters. */
  lemma {:induction false} PreviewKeepsDetector(v: View, volumes: seq<real>)
    ensures Preview(v, volumes).detector == v.detector
    decreases |volumes|
  {
    if |volumes| > 0 {
      PreviewKeepsDetector(v, volumes[..|volumes| - 1]);
    }
  }

  /** A session that starts from a cleared plant, whose plant keeps reporting
      cleared, is cleared after every one of its frames: the dropout detector
      never turns it into a game over. */
  lemma {:induction false} ClearedStaysCleared(v: View, frames: seq<Frame>)
    requires GetPlantState(v) == Cleared
    requires forall i :: 0 <= i < |frames| ==> frames[i].reported == Cleared
    ensures forall k :: 0 <= k <= |frames| ==> GetPlantState(Play(v, frames[..k])) == Cleared
    decreases |frames|
  {
    if |frames| > 0 {
      var n := |frames| - 1;
      ClearedStaysCleared(v, frames[..n]);
      forall k | 0 <= k <= n ensures GetPlantState(Play(v, frames[..k])) == Cleared {
        assert frames[..n][..k] == frames[..k];
      }
      assert frames[..|frames|] == frames;
      assert frames[..|frames|][..n] == frames[..n];
      ClearedIsBarrier(Play(v, frames[..n]), frames[n].volume, frames[n].reported);
    }
  }

  /** A player who stays below the detector's threshold for a whole session
      that starts from reset is never forced into game over by the view. */
  lemma {:induction false} SilentSessionNeverForced(v: View, frames: seq<Frame>)
    requires v.plant.state == Growing && !v.detector.hasVoiceStarted
    requires forall i :: 0 <= i < |frames| ==> frames[i].volume < v.detector.volumeThreshold
    requires forall i :: 0 <= i < |frames| ==> frames[i].reported == Growing
    ensures Play(v, frames).plant.state == Growing
    decreases |frames|
  {
    if |frames| > 0 {
      var n := |frames| - 1;
      var prefix := frames[..n];
      SilentSessionNeverForced(v, prefix);
      PlayFeedsDetector(v, frames);
      var vols := Volumes(frames);
      VoiceContinuity.NeverLostWithoutVoice(v.detector, vols);
      assert vols[..|frames|] == vols;
      assert !VoiceContinuity.IsVoiceLost(Play(v, frames).detector);
    }
  }
}
