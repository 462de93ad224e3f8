/** Face location and region normalisation in BiometricVerifier
    (utils/biometrics.py): the three-pass Haar cascade of detect_face, the
    choice of the largest candidate, and the 30% margin clamped to the image.
    The Haar detector is an oracle; the integer geometry is modelled exactly. */
module FaceDetection {

  import opened Wrappers

  type Bytes = seq<bv8>

  /** A detector rectangle `(x, y, w, h)`. */
  datatype Rect = Rect(x: int, y: int, w: int, h: int)

  function Area(r: Rect): int
  {
    r.w * r.h
  }

  /** Size of a decoded image; its grey version has the same shape. */
  datatype Frame = Frame(rows: nat, cols: nat)

  datatype Cascade = FrontalCascade | ProfileCascade

  /** Parameters of one `detectMultiScale` call; the scale factor in tenths. */
  datatype DetectionPass = DetectionPass(cascade: Cascade, scaleFactorTenths: nat, minNeighbors: nat, minSize: nat)

  const FrontalPass := DetectionPass(FrontalCascade, 12, 3, 30)
  const ProfilePass := DetectionPass(ProfileCascade, 12, 3, 30)
  const LenientPass := DetectionPass(FrontalCascade, 13, 2, 20)

  /** The passes of detect_face in the order it tries them. */
  const Passes: seq<DetectionPass> := [FrontalPass, ProfilePass, LenientPass]

  /** What one pass yields: rectangles, or an exception. */
  datatype PassResult = Detected(faces: seq<Rect>) | DetectorRaised

  /** detect_face's `(gray, faces)` result; `gray` is None when the detector
      raised. `passes` records which passes were run, in order. */
  datatype Detection = Detection(gray: Option<Frame>, faces: seq<Rect>, passes: seq<DetectionPass>)

  /** detect_face: the frontal pass; the profile pass only if the frontal one
      found nothing; the lenient frontal pass only if the profile one found
      nothing too. The first non-empty result wins; all empty gives
      `(gray, [])`; an exception in any pass gives `(None, [])`. */
  function DetectFace(frame: Frame, run: DetectionPass -> PassResult): (d: Detection)
    ensures 1 <= |d.passes| <= |Passes| && d.passes == Passes[..|d.passes|]
    ensures forall i :: 0 <= i < |d.passes| - 1 ==> run(d.passes[i]) == Detected([])
    ensures d.gray.None? <==> run(d.passes[|d.passes| - 1]).DetectorRaised?
    ensures d.gray.None? ==> d.faces == []
    ensures d.gray.Some? ==> d.gray == Some(frame) && d.faces == run(d.passes[|d.passes| - 1]).faces
    ensures |d.passes| < |Passes| && d.gray.Some? ==> d.faces != []
  {
    match run(FrontalPass)
    case DetectorRaised => Detection(None, [], [FrontalPass])
    case Detected(frontal) =>
      if |frontal| != 0 then Detection(Some(frame), frontal, [FrontalPass])
      else match run(ProfilePass)
        case DetectorRaised => Detection(None, [], [FrontalPass, ProfilePass])
        case Detected(profile) =>
          if |profile| > 0 then Detection(Some(frame), profile, [FrontalPass, ProfilePass])
          else match run(LenientPass)
            case DetectorRaised => Detection(None, [], Passes)
            case Detected(lenient) => Detection(Some(frame), lenient, Passes)
  }

  // ---------------------------------------------------------------------------
  // Choosing the largest face
  // ---------------------------------------------------------------------------

  /** The running `(largest_area, largest_idx)` of the selection loop after it
      has seen `faces`; it starts from `(0, 0)` and moves only on a strictly
      larger area. */
  function ScanLargest(faces: seq<Rect>): (best: (int, nat))
    ensures best.1 < |faces| || best.1 == 0
  {
    if |faces| == 0 then (0, 0)
    else
      var prior := ScanLargest(faces[..|faces| - 1]);
      if Area(faces[|faces| - 1]) > prior.0 then (Area(faces[|faces| - 1]), |faces| - 1) else prior
  }

  /** The face register_face and verify_against_specific_user use: the only
      one, or the one the selection loop ends on. */
  function SelectedIndex(faces: seq<Rect>): nat
  {
    if |faces| > 1 then ScanLargest(faces).1 else 0
  }

  /** What the scan computes: the largest positive area (or 0), held by an
      index no earlier index reaches. */
  lemma {:induction false} ScanLargestIsFirstMaximum(faces: seq<Rect>)
    ensures var (area, idx) := ScanLargest(faces);
      && area >= 0
      && (|faces| > 0 ==> idx < |faces|)
      && (area > 0 ==> area == Area(faces[idx]))
      && (area == 0 ==> idx == 0)
      && (forall j :: 0 <= j < |faces| ==> Area(faces[j]) <= area)
      && (forall j :: 0 <= j < idx ==> Area(faces[j]) < area)
  {
    if |faces| > 0 {
      var init := faces[..|faces| - 1];
      ScanLargestIsFirstMaximum(init);
      var (area, idx) := ScanLargest(init);
      forall j | 0 <= j < |init| ensures Area(faces[j]) <= area {
        assert faces[j] == init[j];
      }
    }
  }

  /** The largest-face loop (utils/biometrics.py register_face and
      verify_against_specific_user). The chosen face has the largest area; on a
      tie the earliest index wins; when no area is positive, index 0. */
  method ChooseFace(faces: seq<Rect>) returns (idx: nat)
    requires |faces| > 0
    ensures idx < |faces| && idx == SelectedIndex(faces)
    ensures forall j :: 0 <= j < |faces| ==> Area(faces[j]) <= Area(faces[idx]) || Area(faces[j]) <= 0
    ensures forall j :: 0 <= j < idx ==> Area(faces[j]) < Area(faces[idx])
    ensures idx > 0 ==> Area(faces[idx]) > 0
  {
    if |faces| == 1 {
      return 0;
    }
    var largestArea := 0;
    idx := 0;
    for i := 0 to |faces|
      invariant (largestArea, idx) == ScanLargest(faces[..i])
    {
      assert faces[..i + 1][..i] == faces[..i];
      var area := Area(faces[i]);
      if area > largestArea {
        largestArea := area;
        idx := i;
      }
    }
    assert faces[..|faces|] == faces;
    ScanLargestIsFirstMaximum(faces);
  }

  // ---------------------------------------------------------------------------
  // Margin and crop box
  // ---------------------------------------------------------------------------

  /** `int(side * 0.3)`: thirty percent, truncated toward zero. */
  function Margin(side: int): int
  {
    if side >= 0 then side * 3 / 10 else -((-side) * 3 / 10)
  }

  /** The slice `[yStart:yEnd, xStart:xEnd]` cut out of the image. */
  datatype Box = Box(yStart: int, yEnd: int, xStart: int, xEnd: int)

  predicate NonEmpty(b: Box)
  {
    b.yStart < b.yEnd && b.xStart < b.xEnd
  }

  /** The rectangle has positive size and lies inside the frame, as the Haar
      detector's rectangles do. */
  predicate InFrame(r: Rect, frame: Frame)
  {
    0 <= r.x && 0 <= r.y && 0 < r.w && 0 < r.h && r.x + r.w <= frame.cols && r.y + r.h <= frame.rows
  }

  /** The face rectangle grown by 30% of its height above and below and 30% of
      its width left and right, clamped to the image. For an in-frame face the
      box lies inside the image, contains the face, and so is not empty. */
  function MarginBox(r: Rect, frame: Frame): (b: Box)
    ensures b.yStart >= 0 && b.xStart >= 0 && b.yEnd <= frame.rows && b.xEnd <= frame.cols
    ensures InFrame(r, frame) ==>
      && b.yStart <= r.y < r.y + r.h <= b.yEnd
      && b.xStart <= r.x < r.x + r.w <= b.xEnd
      && r.y - b.yStart <= Margin(r.h) && b.yEnd - (r.y + r.h) <= Margin(r.h)
      && r.x - b.xStart <= Margin(r.w) && b.xEnd - (r.x + r.w) <= Margin(r.w)
      && NonEmpty(b)
  {
    var yMargin, xMargin := Margin(r.h), Margin(r.w);
    Box(Max(0, r.y - yMargin), Min(frame.rows, r.y + r.h + yMargin),
        Max(0, r.x - xMargin), Min(frame.cols, r.x + r.w + xMargin))
  }

  function Max(a: int, b: int): int { if a >= b then a else b }
  function Min(a: int, b: int): int { if a <= b then a else b }

  datatype Channel = Colour | Grey

  /** A 200x200 canonical crop: the region `box` of `image`, resized. */
  datatype Crop = Crop(image: Bytes, box: Box, channel: Channel)

  /** Crop and resize; `cv2.resize` raises on an empty region. */
  function CanonicalCrop(image: Bytes, box: Box, channel: Channel): (c: Option<Crop>)
    ensures c.Some? <==> NonEmpty(box)
  {
    if NonEmpty(box) then Some(Crop(image, box, channel)) else None
  }
}
