/** The numeric helpers the views share: the Easy-Mode volume gain, and the
    per-segment averaging of frequency bands (its shaping left abstract). */
module Utils {

  const DefaultAmplification: real := 3.0
  /** Segments from this fraction of the range on are boosted. */
  const HighSegmentFraction: real := 0.4
  const HighBoost: real := 1.6
  /** The number of segments when the caller gives none. */
  const DefaultSegments: nat := 16

  /** The Easy-Mode gain: the volume times the amplification, capped at 1. */
  function AmplifyVolume(volume: real, amplification: real := DefaultAmplification): (r: real)
    ensures r <= 1.0
    ensures volume * amplification <= 1.0 ==> r == volume * amplification
    ensures volume * amplification > 1.0 ==> r == 1.0
  {
    if volume * amplification <= 1.0 then volume * amplification else 1.0
  }

  /** For non-negative inputs the gain lies in [0, 1] and never decreases as
      the volume grows. */
  lemma AmplifyIsMonotone(v1: real, v2: real, amplification: real)
    requires 0.0 <= v1 <= v2 && amplification >= 0.0
    ensures 0.0 <= AmplifyVolume(v1, amplification) <= AmplifyVolume(v2, amplification) <= 1.0
  {
    var p1, p2 := v1 * amplification, v2 * amplification;
    assert 0.0 <= p1;
    assert p1 <= p2 by {
      assert (v2 - v1) * amplification >= 0.0;
      assert (v2 - v1) * amplification == p2 - p1;
    }
    assert AmplifyVolume(v1, amplification) == (if p1 <= 1.0 then p1 else 1.0);
    assert AmplifyVolume(v2, amplification) == (if p2 <= 1.0 then p2 else 1.0);
  }

  /** With the default gain, a volume of a third or more already saturates. */
  lemma DefaultGainSaturatesAtOneThird(volume: real)
    ensures AmplifyVolume(volume) == 1.0 <==> volume >= 1.0 / 3.0
  {
  }

  /** Whether segment `i` of `segments` lies in the boosted upper range. */
  predicate IsHighSegment(i: nat, segments: nat) {
    i as real > segments as real * HighSegmentFraction
  }

  /** The upper segments are boosted by 1.6 and capped at 1; the others pass
      through. */
  function Boost(value: real, i: nat, segments: nat): (r: real)
    ensures IsHighSegment(i, segments) ==> r <= 1.0
    ensures IsHighSegment(i, segments) && value * HighBoost <= 1.0 ==> r == value * HighBoost
    ensures IsHighSegment(i, segments) && value * HighBoost > 1.0 ==> r == 1.0
    ensures !IsHighSegment(i, segments) ==> r == value
  {
    if IsHighSegment(i, segments) then
      (if value * HighBoost <= 1.0 then value * HighBoost else 1.0)
    else value
  }

  /** Averages `bands` into `segments` values. `shaped(bands, i, segments)` is
      segment `i`'s average after the threshold and power shaping, which this
      model leaves abstract; the upper-range boost is applied here. */
  method AverageFrequencyBands(bands: seq<real>, shaped: (seq<real>, nat, nat) -> real,
                               segments: nat := DefaultSegments)
    returns (r: seq<real>)
    ensures |r| == segments
    ensures |bands| == 0 ==> forall i :: 0 <= i < |r| ==> r[i] == 0.0
    ensures |bands| > 0 ==> forall i :: 0 <= i < |r| ==> r[i] == Boost(shaped(bands, i, segments), i, segments)
    ensures |bands| > 0 ==> forall i :: 0 <= i < |r| && IsHighSegment(i, segments) ==> r[i] <= 1.0
  {
    if |bands| == 0 {
      r := seq(segments, _ => 0.0);
      return;
    }
    r := [];
    var i := 0;
    while i < segments
      invariant 0 <= i <= segments
      invariant |r| == i
      invariant forall k :: 0 <= k < i ==> r[k] == Boost(shaped(bands, k, segments), k, segments)
    {
      r := r + [Boost(shaped(bands, i, segments), i, segments)];
      i := i + 1;
    }
  }
}
