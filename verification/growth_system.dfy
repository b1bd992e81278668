/** MAX-sustain growth: the plant grows a fixed step on every frame whose
    volume stays near the loudest qualifying volume heard so far. */
module Growth {
  import opened Common

  const GrowthRate: real := 2.0
  const MaxHeight: real := 400.0
  /** Fraction of the running maximum a frame must reach to count as sustained. */
  const SustainRatio: real := 0.95
  /** Samples below this volume are noise: they neither raise the maximum nor grow. */
  const MinVolume: real := 0.15

  datatype GrowthSystem = GrowthSystem(maxVolume: real, sustainedFrames: nat, currentHeight: real)

  /** The field initializers, which `Reset` restores. */
  const Initial: GrowthSystem := GrowthSystem(0.0, 0, 0.0)

  /** The invariant every reachable state keeps: the height is within the
      plant's range and the maximum is 0 or a qualifying volume. */
  predicate Valid(g: GrowthSystem) {
    && 0.0 <= g.currentHeight <= MaxHeight
    && (g.maxVolume == 0.0 || g.maxVolume >= MinVolume)
  }

  /** The running maximum after hearing `volume`. */
  function RaiseMax(maxVolume: real, volume: real): real {
    if volume > maxVolume && volume >= MinVolume then volume else maxVolume
  }

  /** Whether a frame at `volume` grows, judged against the updated maximum. */
  predicate Sustains(maxVolume: real, volume: real) {
    && volume >= MinVolume
    && volume >= maxVolume * SustainRatio
    && maxVolume > MinVolume
  }

  function Update(g: GrowthSystem, volume: real): (r: GrowthSystem)
    ensures r.maxVolume >= g.maxVolume
    ensures r.maxVolume > g.maxVolume ==> r.maxVolume == volume && volume >= MinVolume
    ensures volume >= MinVolume ==> r.maxVolume >= volume
    ensures r.sustainedFrames == g.sustainedFrames + 1 <==>
              (volume >= MinVolume && volume >= SustainRatio * r.maxVolume
               && r.maxVolume > MinVolume)
    ensures r.sustainedFrames != g.sustainedFrames + 1 ==>
              r.sustainedFrames == 0 && r.currentHeight == g.currentHeight
    ensures r.sustainedFrames == g.sustainedFrames + 1 ==>
              r.currentHeight == Min(g.currentHeight + GrowthRate, MaxHeight)
    ensures Valid(g) ==> Valid(r)
  {
    var m := RaiseMax(g.maxVolume, volume);
    if Sustains(m, volume) then
      GrowthSystem(m, g.sustainedFrames + 1, Min(g.currentHeight + GrowthRate, MaxHeight))
    else
      GrowthSystem(m, 0, g.currentHeight)
  }

  /** Sets the height for the reset animation, clamped into the plant's range. */
  function SetCurrentHeight(g: GrowthSystem, height: real): (r: GrowthSystem)
    ensures 0.0 <= r.currentHeight <= MaxHeight
    ensures 0.0 <= height <= MaxHeight ==> r.currentHeight == height
    ensures height < 0.0 ==> r.currentHeight == 0.0
    ensures height > MaxHeight ==> r.currentHeight == MaxHeight
    ensures r == g.(currentHeight := r.currentHeight)
  {
    g.(currentHeight := Clamp(0.0, MaxHeight, height))
  }

  /** Within the plant's range, reaching the maximum means being exactly at it. */
  function HasReachedMax(g: GrowthSystem): (r: bool)
    ensures Valid(g) ==> (r <==> g.currentHeight == MaxHeight)
  {
    g.currentHeight >= MaxHeight
  }

  function Reset(g: GrowthSystem): (r: GrowthSystem)
    ensures r.maxVolume == 0.0 && r.sustainedFrames == 0 && r.currentHeight == 0.0
  {
    Initial
  }

  /** Within the plant's range, "reached the maximum" means "is at 400". */
  lemma ReachedMaxIffAtTop(g: GrowthSystem)
    requires Valid(g)
    ensures HasReachedMax(g) <==> g.currentHeight == MaxHeight
  {
  }

  /** A frame never shrinks the plant: it adds `min(2, 400 - h)` or nothing. */
  lemma UpdateNeverShrinks(g: GrowthSystem, volume: real)
    requires Valid(g)
    ensures Update(g, volume).currentHeight == g.currentHeight
         || Update(g, volume).currentHeight == g.currentHeight + Min(GrowthRate, MaxHeight - g.currentHeight)
    ensures Update(g, volume).currentHeight >= g.currentHeight
  {
  }

  /** The operations a caller can apply to a growth system. */
  datatype Op = Tick(volume: real) | SetHeight(height: real) | ResetOp

  function Apply(g: GrowthSystem, op: Op): GrowthSystem {
    match op
    case Tick(v) => Update(g, v)
    case SetHeight(h) => SetCurrentHeight(g, h)
    case ResetOp => Reset(g)
  }

  function ApplyAll(g: GrowthSystem, ops: seq<Op>): GrowthSystem
    decreases |ops|
  {
    if |ops| == 0 then g else ApplyAll(Apply(g, ops[0]), ops[1..])
  }

  /** The height stays in 0..400 across any mix of frames, height sets and resets. */
  lemma {:induction false} ValidAcrossOps(g: GrowthSystem, ops: seq<Op>)
    requires Valid(g)
    ensures Valid(ApplyAll(g, ops))
    ensures 0.0 <= ApplyAll(g, ops).currentHeight <= MaxHeight
    decreases |ops|
  {
    if |ops| > 0 {
      ValidAcrossOps(Apply(g, ops[0]), ops[1..]);
    }
  }

  /** The growth system after the frames `samples`, in order. */
  function Run(g: GrowthSystem, samples: seq<real>): GrowthSystem
    decreases |samples|
  {
    if |samples| == 0 then g
    else Update(Run(g, samples[..|samples| - 1]), samples[|samples| - 1])
  }

  /** The maximum after a run is the larger of the starting maximum and every
      qualifying sample, and it is one of them: it never decreases, and only
      samples of at least 0.15 can raise it. */
  lemma {:induction false} RunMaximum(g: GrowthSystem, samples: seq<real>)
    ensures Run(g, samples).maxVolume >= g.maxVolume
    ensures forall i :: 0 <= i < |samples| && samples[i] >= MinVolume ==>
              samples[i] <= Run(g, samples).maxVolume
    ensures Run(g, samples).maxVolume == g.maxVolume
         || exists i :: 0 <= i < |samples| && samples[i] >= MinVolume
                        && Run(g, samples).maxVolume == samples[i]
    decreases |samples|
  {
    if |samples| > 0 {
      var n := |samples| - 1;
      var init := samples[..n];
      RunMaximum(g, init);
      var before := Run(g, init).maxVolume;
      var after := Run(g, samples).maxVolume;
      forall i | 0 <= i < |samples| && samples[i] >= MinVolume
        ensures samples[i] <= after
      {
        if i < n { assert init[i] == samples[i]; }
      }
      if after != g.maxVolume {
        if after == before {
          var k :| 0 <= k < |init| && init[k] >= MinVolume && before == init[k];
          assert samples[k] == init[k];
        } else {
          assert after == samples[n];
        }
      }
    }
  }

  /** A session whose loudest sample is exactly 0.15 (or quieter) never grows:
      the maximum must exceed 0.15 strictly. */
  lemma {:induction false} NoGrowthAtFloor(g: GrowthSystem, samples: seq<real>)
    requires g.maxVolume <= MinVolume
    requires forall i :: 0 <= i < |samples| ==> samples[i] <= MinVolume
    ensures Run(g, samples).currentHeight == g.currentHeight
    ensures Run(g, samples).maxVolume <= MinVolume
    ensures |samples| > 0 ==> Run(g, samples).sustainedFrames == 0
    decreases |samples|
  {
    if |samples| > 0 {
      var n := |samples| - 1;
      NoGrowthAtFloor(g, samples[..n]);
    }
  }
}
