/** The training set register_face (utils/biometrics.py) synthesises from one
    canonical grey crop before training the LBPH recogniser: the crop itself,
    six rotations, four rescalings brought back to 200x200, and two brightness
    changes, all labelled 1. Pixel operations are not modelled; each sample
    records how it was derived and the side length it ends with. */
module Augmentation {

  import opened FaceDetection

  /** Side of the canonical crops. */
  const CanonicalSide: nat := 200

  const RotationDegrees: seq<int> := [-15, -10, -5, 5, 10, 15]
  /** The scale factors 0.9, 0.95, 1.05 and 1.1, in percent. */
  const ScalePercents: seq<nat> := [90, 95, 105, 110]
  /** The brightness factors 0.8 and 1.2, in tenths. */
  const BrightnessTenths: seq<nat> := [8, 12]

  /** The label every sample carries. */
  const RegisteredLabel: int := 1

  datatype Variant =
    | Original
    | Rotated(degrees: int)
    /** Shrunk to `side` and padded by `pad` on each side with black. */
    | Padded(percent: nat, side: nat, pad: int)
    /** Enlarged to `side` and cut `[start:start+200]` in each direction. */
    | CentreCropped(percent: nat, side: nat, start: int)
    | Brightened(alphaTenths: nat)

  datatype Sample = Sample(base: Crop, variant: Variant)

  /** `int(200 * scale)`. */
  function ScaledSide(percent: nat): nat
  {
    CanonicalSide * percent / 100
  }

  /** The rescaled sample for one scale: padded when shrunk, centre-cropped
      when enlarged, with offsets computed by floor division. */
  function ScaleVariant(percent: nat): Variant
  {
    var side := ScaledSide(percent);
    if percent < 100 then Padded(percent, side, (CanonicalSide - side) / 2)
    else CentreCropped(percent, side, (side - CanonicalSide) / 2)
  }

  /** Side length of a sample image. Padding adds `pad` twice; the crop
      `[start:start+200]` of a side-`side` image keeps what is there. */
  function OutputSide(v: Variant): int
  {
    match v
    case Padded(_, side, pad) => side + 2 * pad
    case CentreCropped(_, side, start) =>
      if start < 0 || start > side then 0 else Min(start + CanonicalSide, side) - start
    case _ => CanonicalSide
  }

  /** The samples in the order register_face appends them. */
  function AugmentationPlan(base: Crop): seq<Sample>
  {
    [Sample(base, Original)]
    + seq(|RotationDegrees|, i requires 0 <= i < |RotationDegrees| => Sample(base, Rotated(RotationDegrees[i])))
    + seq(|ScalePercents|, i requires 0 <= i < |ScalePercents| => Sample(base, ScaleVariant(ScalePercents[i])))
    + seq(|BrightnessTenths|, i requires 0 <= i < |BrightnessTenths| => Sample(base, Brightened(BrightnessTenths[i])))
  }

  /** The augmentation loops of register_face: thirteen samples of `base`,
      all labelled 1, every one back at the canonical 200x200 size. */
  method Augment(base: Crop) returns (samples: seq<Sample>, labels: seq<int>)
    ensures |samples| == 13 && |labels| == 13
    ensures samples == AugmentationPlan(base)
    ensures forall i :: 0 <= i < |labels| ==> labels[i] == RegisteredLabel
    ensures forall i :: 0 <= i < |samples| ==>
      samples[i].base == base && OutputSide(samples[i].variant) == CanonicalSide
  {
    samples := [Sample(base, Original)];
    labels := [RegisteredLabel];
    for k := 0 to |RotationDegrees|
      invariant |samples| == 1 + k && |labels| == |samples|
      invariant samples == AugmentationPlan(base)[..1 + k]
      invariant forall i :: 0 <= i < |labels| ==> labels[i] == RegisteredLabel
    {
      samples := samples + [Sample(base, Rotated(RotationDegrees[k]))];
      labels := labels + [RegisteredLabel];
    }
    for k := 0 to |ScalePercents|
      invariant |samples| == 7 + k && |labels| == |samples|
      invariant samples == AugmentationPlan(base)[..7 + k]
      invariant forall i :: 0 <= i < |labels| ==> labels[i] == RegisteredLabel
    {
      var percent := ScalePercents[k];
      var side := ScaledSide(percent);
      if percent < 100 {
        var pad := (CanonicalSide - side) / 2;
        samples := samples + [Sample(base, Padded(percent, side, pad))];
      } else {
        var start := (side - CanonicalSide) / 2;
        samples := samples + [Sample(base, CentreCropped(percent, side, start))];
      }
      labels := labels + [RegisteredLabel];
    }
    for k := 0 to |BrightnessTenths|
      invariant |samples| == 11 + k && |labels| == |samples|
      invariant samples == AugmentationPlan(base)[..11 + k]
      invariant forall i :: 0 <= i < |labels| ==> labels[i] == RegisteredLabel
    {
      samples := samples + [Sample(base, Brightened(BrightnessTenths[k]))];
      labels := labels + [RegisteredLabel];
    }
    PlanIsCanonical(base);
  }

  /** Padding by `(200 - s) // 2` on both sides restores side 200 for the two
      shrunk sizes (180 and 190), and cropping from `(s - 200) // 2` takes 200
      of the two enlarged sizes (210 and 220). */
  lemma PlanIsCanonical(base: Crop)
    ensures |AugmentationPlan(base)| == 13
    ensures forall i :: 0 <= i < 13 ==>
      AugmentationPlan(base)[i].base == base && OutputSide(AugmentationPlan(base)[i].variant) == CanonicalSide
  {
  }
}
