/** The enrolment and verification logic of BiometricVerifier
    (utils/biometrics.py). Images, the Haar detector, the LBPH recogniser,
    SSIM/MSE and SHA-256 are oracles gathered in `Vision`; what is modelled is
    the ordering and gating of the strategies, the records written, and which
    stored artifacts each decision reads. The faces/ directory is a set of maps
    keyed by phone number. */
module Biometrics {

  import opened Wrappers
  import opened FaceDetection
  import opened Augmentation

  /** What the constructor and the skimage import find available. */
  datatype Capabilities = Capabilities(useOpenCv: bool, advancedRecognition: bool, ssimAvailable: bool)

  /** An LBPH model, identified by the samples it was trained on. */
  datatype Model = Model(trainedOn: seq<Sample>)

  /** `face_recognizer.predict`: a label and a distance, or an exception. */
  datatype Prediction = Predicted(predictedLabel: int, confidence: real) | PredictRaised

  /** The image and hashing operations the verifier calls. */
  datatype Vision = Vision(
    /** `Image.open`: the image's size, or None when the bytes are no image. */
    decode: Bytes -> Option<Frame>,
    /** One Haar cascade pass over the grey, equalised image. */
    detect: (Bytes, DetectionPass) -> PassResult,
    /** Whether LBPH training on these samples succeeds. */
    trains: seq<Sample> -> bool,
    predict: (Model, Crop) -> Prediction,
    /** `cv2.cvtColor(crop, cv2.COLOR_BGR2GRAY)`: the grey pixels, row by row. */
    greyPixels: Crop -> seq<bv8>,
    /** skimage's structural similarity of two grey images. */
    ssim: (seq<bv8>, seq<bv8>) -> real,
    sha256: Bytes -> string,
    /** `cv2.imencode('.jpg', crop)`. */
    encodeJpeg: Crop -> Bytes)

  const LbphThreshold: real := 100.0
  const SsimThreshold: real := 0.35
  const MseThreshold: real := 4000.0

  /** The JSON record in faces/<phone>.json. */
  datatype Record =
    /** `method: "opencv_enhanced"`, with `face_region`, `face_hash`, `has_model`. */
    | FaceRecord(phone: string, faceRegion: Rect, faceHash: string, timestamp: string, hasModel: bool)
    /** `method: "hash"`, with `image_hash`. */
    | HashRecord(phone: string, imageHash: string, timestamp: string)
    /** `{}`: written when cropping raised after a face had been found. */
    | EmptyRecord

  function Lookup<K, V>(m: map<K, V>, k: K): Option<V>
  {
    if k in m then Some(m[k]) else None
  }

  // ---------------------------------------------------------------------------
  // Locating and cropping the face
  // ---------------------------------------------------------------------------

  /** Outcome of detection, selection and cropping on one image. */
  datatype Location = NoFace | EmptyRegion(face: Rect) | FaceAt(face: Rect, colour: Crop, grey: Crop)

  /** detect_face, the largest-face choice and the margin crop, as register_face
      and verify_against_specific_user both run them. */
  function LocateFace(v: Vision, image: Bytes, frame: Frame): (l: Location)
    ensures l.NoFace? <==> DetectFace(frame, p => v.detect(image, p)).faces == []
    ensures !l.NoFace? ==> var faces := DetectFace(frame, p => v.detect(image, p)).faces;
      l.face == faces[SelectedIndex(faces)]
    ensures l.FaceAt? ==> var box := MarginBox(l.face, frame);
      NonEmpty(box) && l.colour == Crop(image, box, Colour) && l.grey == Crop(image, box, Grey)
    ensures l.EmptyRegion? ==> !NonEmpty(MarginBox(l.face, frame))
  {
    var d := DetectFace(frame, p => v.detect(image, p));
    if d.faces == [] then NoFace
    else
      var face := d.faces[SelectedIndex(d.faces)];
      var box := MarginBox(face, frame);
      match (CanonicalCrop(image, box, Colour), CanonicalCrop(image, box, Grey))
      case (Some(colour), Some(grey)) => FaceAt(face, colour, grey)
      case _ => EmptyRegion(face)
  }

  datatype Strategy = Lbph | Ssim | Mse | HashMatch

  /** The strategies tried, in order, and whether the last one accepted. */
  datatype Verdict = Verdict(tried: seq<Strategy>, matched: bool)

  predicate LbphAccepts(p: Prediction)
  {
    p.Predicted? && p.predictedLabel == RegisteredLabel && p.confidence < LbphThreshold
  }

  /** The model is consulted only with LBPH available, a model file present and
      `has_model` set in the record. */
  predicate LbphGate(caps: Capabilities, hasModel: bool, model: Option<Model>)
  {
    caps.advancedRecognition && model.Some? && hasModel
  }

  // ---------------------------------------------------------------------------
  // Mean squared error of two grey crops
  // ---------------------------------------------------------------------------

  function Square(d: int): (r: nat)
    ensures r == 0 <==> d == 0
  {
    if d < 0 then -d * -d else d * d
  }

  /** A mean of terms bounded by `bound` is bounded by `bound`. */
  lemma MeanBound(total: nat, count: nat, bound: nat)
    requires count > 0 && total <= bound * count
    ensures total as real / count as real <= bound as real
  {
  }

  /** Sum of the squared pixel differences, computed over the integers. */
  function SquaredError(a: seq<bv8>, b: seq<bv8>): (s: nat)
    requires |a| == |b|
    ensures s == 0 <==> a == b
  {
    if |a| == 0 then 0
    else
      var rest := SquaredError(a[1..], b[1..]);
      assert a == [a[0]] + a[1..] && b == [b[0]] + b[1..];
      Square(a[0] as int - b[0] as int) + rest
  }

  /** The mean squared error; None for empty images, whose mean is NaN and
      compares false with any threshold. */
  function MeanSquaredError(a: seq<bv8>, b: seq<bv8>): (m: Option<real>)
    requires |a| == |b|
    ensures m.None? <==> |a| == 0
    ensures m.Some? ==> (m.value == 0.0 <==> a == b)
  {
    if |a| == 0 then None else Some(SquaredError(a, b) as real / |a| as real)
  }

  predicate MseAccepts(a: seq<bv8>, b: seq<bv8>)
    requires |a| == |b|
  {
    MeanSquaredError(a, b).Some? && MeanSquaredError(a, b).value < MseThreshold
  }

  /** The MSE test accepts identical crops and rejects a black crop against a
      white one. */
  lemma MseDiscriminates(a: seq<bv8>)
    requires |a| > 0
    ensures MseAccepts(a, a)
    ensures !MseAccepts([0], [255])
  {
  }

  /** The sum as written on uint8 arrays: the difference and its square both
      wrap modulo 256, so every term lies in [0, 255]. */
  function WrappedSquaredError(a: seq<bv8>, b: seq<bv8>): (s: nat)
    requires |a| == |b|
    ensures s <= 255 * |a|
  {
    if |a| == 0 then 0
    else
      var d := a[0] - b[0];
      (d * d) as int + WrappedSquaredError(a[1..], b[1..])
  }

  function WrappedMeanSquaredError(a: seq<bv8>, b: seq<bv8>): (m: Option<real>)
    requires |a| == |b|
    ensures m.None? <==> |a| == 0
    ensures m.Some? ==> m.value <= 255.0
  {
    if |a| == 0 then None
    else
      var s := WrappedSquaredError(a, b);
      MeanBound(s, |a|, 255);
      Some(s as real / |a| as real)
  }

  /** The MSE test as written: `mse < 4000` on the wrapped mean. */
  predicate WrappedMseAccepts(a: seq<bv8>, b: seq<bv8>)
    requires |a| == |b|
  {
    WrappedMeanSquaredError(a, b).Some? && WrappedMeanSquaredError(a, b).value < MseThreshold
  }

  /** As written, the MSE test accepts every pair of non-empty crops of one
      shape: a black crop against a white one among them. */
  lemma WrappedMseAcceptsEverything(a: seq<bv8>, b: seq<bv8>)
    requires |a| == |b| > 0
    ensures WrappedMeanSquaredError(a, b).value < MseThreshold
    ensures WrappedMeanSquaredError([0], [255]) == Some(1.0)
  {
  }

  // ---------------------------------------------------------------------------
  // Verification against one identity
  // ---------------------------------------------------------------------------

  /** The OpenCV part of verify_against_specific_user once a face crop exists:
      LBPH first; then, when the stored colour crop exists and has the query
      crop's shape, the two grey images by SSIM, or by MSE (with the uint8
      arithmetic as written) when SSIM cannot be imported. */
  function FaceAttempt(caps: Capabilities, v: Vision, hasModel: bool, model: Option<Model>,
                       stored: Option<Crop>, colour: Crop, grey: Crop): (r: Verdict)
    ensures HashMatch !in r.tried
    ensures Lbph in r.tried <==> LbphGate(caps, hasModel, model)
    ensures r.matched && r.tried == [Lbph] <==> LbphGate(caps, hasModel, model) && LbphAccepts(v.predict(model.value, grey))
    ensures Ssim in r.tried ==>
      && caps.ssimAvailable && stored.Some? && Mse !in r.tried
      && (r.matched <==> v.ssim(v.greyPixels(stored.value), v.greyPixels(colour)) > SsimThreshold)
    ensures Mse in r.tried ==>
      && !caps.ssimAvailable && stored.Some? && |v.greyPixels(stored.value)| == |v.greyPixels(colour)|
      && (r.matched <==> WrappedMseAccepts(v.greyPixels(stored.value), v.greyPixels(colour)))
    ensures r.matched ==> |r.tried| > 0
    ensures r.matched <==>
      || (LbphGate(caps, hasModel, model) && LbphAccepts(v.predict(model.value, grey)))
      || (&& stored.Some? && |v.greyPixels(stored.value)| == |v.greyPixels(colour)|
          && if caps.ssimAvailable then v.ssim(v.greyPixels(stored.value), v.greyPixels(colour)) > SsimThreshold
             else WrappedMseAccepts(v.greyPixels(stored.value), v.greyPixels(colour)))
    ensures
      && !(LbphGate(caps, hasModel, model) && LbphAccepts(v.predict(model.value, grey)))
      && stored.Some? && |v.greyPixels(stored.value)| == |v.greyPixels(colour)|
      ==> (if caps.ssimAvailable then Ssim in r.tried else Mse in r.tried)
  {
    var lbph := LbphGate(caps, hasModel, model);
    if lbph && LbphAccepts(v.predict(model.value, grey)) then Verdict([Lbph], true)
    else
      var before := if lbph then [Lbph] else [];
      match stored
      case None => Verdict(before, false)
      case Some(face) =>
        var storedGrey, currentGrey := v.greyPixels(face), v.greyPixels(colour);
        if |storedGrey| != |currentGrey| then Verdict(before, false)
        else if caps.ssimAvailable then Verdict(before + [Ssim], v.ssim(storedGrey, currentGrey) > SsimThreshold)
        else Verdict(before + [Mse], WrappedMseAccepts(storedGrey, currentGrey))
  }

  /** verify_against_specific_user, given the identity's record, model file
      and stored colour crop. No record, or bytes that are no image: False.
      The OpenCV strategies run only for an "opencv_enhanced" record; the hash
      comparison only for a "hash" record. */
  function SpecificVerdict(caps: Capabilities, v: Vision, record: Option<Record>, model: Option<Model>,
                           stored: Option<Crop>, query: Bytes): (r: Verdict)
    ensures record.None? || v.decode(query).None? ==> r == Verdict([], false)
    ensures HashMatch in r.tried <==> record.Some? && record.value.HashRecord? && v.decode(query).Some?
    ensures record.Some? && record.value.HashRecord? ==>
      (r.matched <==> v.decode(query).Some? && v.sha256(query) == record.value.imageHash)
    ensures Lbph in r.tried || Ssim in r.tried || Mse in r.tried ==>
      caps.useOpenCv && record.Some? && record.value.FaceRecord? && v.decode(query).Some?
      && LocateFace(v, query, v.decode(query).value).FaceAt?
    ensures Lbph in r.tried <==>
      && caps.useOpenCv && record.Some? && record.value.FaceRecord? && v.decode(query).Some?
      && LocateFace(v, query, v.decode(query).value).FaceAt?
      && LbphGate(caps, record.value.hasModel, model)
    ensures record.Some? && record.value.FaceRecord? && v.decode(query).Some? ==>
      r == match LocateFace(v, query, v.decode(query).value)
           case FaceAt(_, colour, grey) =>
             if caps.useOpenCv then FaceAttempt(caps, v, record.value.hasModel, model, stored, colour, grey)
             else Verdict([], false)
           case _ => Verdict([], false)
    ensures record.Some? && record.value.EmptyRecord? ==> !r.matched
    ensures r.matched ==> |r.tried| > 0
  {
    match record
    case None => Verdict([], false)
    case Some(rec) =>
      match v.decode(query)
      case None => Verdict([], false)
      case Some(frame) =>
        var attempt :=
          if caps.useOpenCv && rec.FaceRecord? then
            match LocateFace(v, query, frame)
            case FaceAt(_, colour, grey) => FaceAttempt(caps, v, rec.hasModel, model, stored, colour, grey)
            case _ => Verdict([], false)
          else Verdict([], false);
        if attempt.matched then attempt
        else if rec.HashRecord? then Verdict(attempt.tried + [HashMatch], v.sha256(query) == rec.imageHash)
        else attempt
  }

  /** Without SSIM, an "opencv_enhanced" record matches any query in which a
      face is cropped, as soon as a stored crop of the same size exists: the
      wrapped MSE test never rejects. */
  lemma MseFallbackAcceptsAnyFace(caps: Capabilities, v: Vision, record: Record, model: Option<Model>,
                                  stored: Crop, query: Bytes)
    requires caps.useOpenCv && !caps.ssimAvailable && record.FaceRecord?
    requires v.decode(query).Some? && LocateFace(v, query, v.decode(query).value).FaceAt?
    requires |v.greyPixels(stored)| == |v.greyPixels(LocateFace(v, query, v.decode(query).value).colour)| > 0
    ensures SpecificVerdict(caps, v, Some(record), model, Some(stored), query).matched
  {
    var l := LocateFace(v, query, v.decode(query).value);
    WrappedMseAcceptsEverything(v.greyPixels(stored), v.greyPixels(l.colour));
  }

  /** A "hash" record is judged by the hash alone: stale crops and model files
      left by an earlier face enrolment are never read. */
  lemma HashRecordIgnoresStaleArtifacts(caps: Capabilities, v: Vision, phone: string, imageHash: string,
                                        timestamp: string, model1: Option<Model>, model2: Option<Model>,
                                        stored1: Option<Crop>, stored2: Option<Crop>, query: Bytes)
    ensures SpecificVerdict(caps, v, Some(HashRecord(phone, imageHash, timestamp)), model1, stored1, query)
         == SpecificVerdict(caps, v, Some(HashRecord(phone, imageHash, timestamp)), model2, stored2, query)
  {
  }

  /** Verification reads neither `face_region`, nor `face_hash`, nor the
      timestamp of an "opencv_enhanced" record: only `has_model`. */
  lemma VerdictIgnoresRegionAndFaceHash(caps: Capabilities, v: Vision, r1: Record, r2: Record,
                                        model: Option<Model>, stored: Option<Crop>, query: Bytes)
    requires r1.FaceRecord? && r2.FaceRecord? && r1.hasModel == r2.hasModel
    ensures SpecificVerdict(caps, v, Some(r1), model, stored, query) == SpecificVerdict(caps, v, Some(r2), model, stored, query)
  {
  }

  // ---------------------------------------------------------------------------
  // Enrolment
  // ---------------------------------------------------------------------------

  /** What register_face decides to store: the record, the colour and grey
      crops, and the samples it trains on. */
  datatype Enrollment = Enrollment(record: Record, crops: Option<(Crop, Crop)>, trainingSet: Option<seq<Sample>>)

  /** register_face's decisions, None when the bytes do not open as an image.
      A located face gives an "opencv_enhanced" record holding the un-margined
      face rectangle and `has_model` equal to the LBPH capability, whether or
      not training later succeeds. No OpenCV, or no face, gives a "hash" record
      of the raw bytes. A face whose crop is empty gives the empty record. */
  function EnrollmentOf(caps: Capabilities, v: Vision, phone: string, image: Bytes, now: string): (e: Option<Enrollment>)
    ensures e.None? <==> v.decode(image).None?
    ensures e.Some? && e.value.record.FaceRecord? ==>
      && caps.useOpenCv
      && var l := LocateFace(v, image, v.decode(image).value);
      && l.FaceAt? && e.value.record == FaceRecord(phone, l.face, v.sha256(v.encodeJpeg(l.colour)), now, caps.advancedRecognition)
      && e.value.crops == Some((l.colour, l.grey))
      && e.value.trainingSet == (if caps.advancedRecognition then Some(AugmentationPlan(l.grey)) else None)
    ensures e.Some? && e.value.record.HashRecord? ==>
      && e.value.record == HashRecord(phone, v.sha256(image), now)
      && (!caps.useOpenCv || LocateFace(v, image, v.decode(image).value).NoFace?)
      && e.value.crops.None? && e.value.trainingSet.None?
    ensures e.Some? && e.value.record.EmptyRecord? ==>
      caps.useOpenCv && LocateFace(v, image, v.decode(image).value).EmptyRegion? && e.value.crops.None?
  {
    match v.decode(image)
    case None => None
    case Some(frame) =>
      var hashOnly := Enrollment(HashRecord(phone, v.sha256(image), now), None, None);
      if !caps.useOpenCv then Some(hashOnly)
      else match LocateFace(v, image, frame)
        case NoFace => Some(hashOnly)
        case EmptyRegion(_) => Some(Enrollment(EmptyRecord, None, None))
        case FaceAt(face, colour, grey) =>
          Some(Enrollment(
            FaceRecord(phone, face, v.sha256(v.encodeJpeg(colour)), now, caps.advancedRecognition),
            Some((colour, grey)),
            if caps.advancedRecognition then Some(AugmentationPlan(grey)) else None))
  }

  /** Training produced a model. */
  predicate Trained(v: Vision, e: Enrollment)
  {
    e.trainingSet.Some? && v.trains(e.trainingSet.value)
  }

  /** Enrolling in hash mode and then verifying the same bytes succeeds,
      whatever crops and model files are left over. */
  lemma HashEnrollmentVerifies(caps: Capabilities, v: Vision, phone: string, image: Bytes, now: string,
                               model: Option<Model>, stored: Option<Crop>)
    requires EnrollmentOf(caps, v, phone, image, now).Some?
    requires EnrollmentOf(caps, v, phone, image, now).value.record.HashRecord?
    ensures SpecificVerdict(caps, v, Some(EnrollmentOf(caps, v, phone, image, now).value.record), model, stored, image).matched
  {
  }

  /** Enrolling a cropped face and then verifying the same bytes succeeds
      against the stored colour crop, whatever model file is present, provided
      SSIM (when importable) rates the crop's grey image above 0.35 against
      itself and the grey image is not empty. */
  lemma FaceEnrollmentVerifies(caps: Capabilities, v: Vision, phone: string, image: Bytes, now: string,
                               model: Option<Model>)
    requires EnrollmentOf(caps, v, phone, image, now).Some?
    requires EnrollmentOf(caps, v, phone, image, now).value.record.FaceRecord?
    requires var g := v.greyPixels(EnrollmentOf(caps, v, phone, image, now).value.crops.value.0);
      |g| > 0 && (caps.ssimAvailable ==> v.ssim(g, g) > SsimThreshold)
    ensures var e := EnrollmentOf(caps, v, phone, image, now).value;
      SpecificVerdict(caps, v, Some(e.record), model, Some(e.crops.value.0), image).matched
  {
    var e := EnrollmentOf(caps, v, phone, image, now).value;
    var g := v.greyPixels(e.crops.value.0);
    if !caps.ssimAvailable {
      WrappedMseAcceptsEverything(g, g);
    }
  }

  // ---------------------------------------------------------------------------
  // Enumerating registered users
  // ---------------------------------------------------------------------------

  const JsonSuffix: string := ".json"

  /** Python's `s.replace(pat, "")`: every non-overlapping occurrence, left to right. */
  function RemoveAll(s: string, pat: string): string
    requires |pat| > 0
    decreases |s|
  {
    if |s| < |pat| then s
    else if s[..|pat|] == pat then RemoveAll(s[|pat|..], pat)
    else [s[0]] + RemoveAll(s[1..], pat)
  }

  /** `os.path.basename(f).replace(".json", "")` for the file faces/<phone>.json. */
  function StemOf(phone: string): string
  {
    RemoveAll(phone + JsonSuffix, JsonSuffix)
  }

  /** `str.isdigit()`, on ASCII digits. */
  predicate AllDigits(s: string)
  {
    |s| > 0 && forall i :: 0 <= i < |s| ==> '0' <= s[i] <= '9'
  }

  /** A key without '.' is its own stem: in particular every all-digit phone. */
  lemma {:induction false} StemOfPlainKey(phone: string)
    requires '.' !in phone
    ensures StemOf(phone) == phone
  {
    var s := phone + JsonSuffix;
    if |phone| == 0 {
      assert s == JsonSuffix;
      assert s[|JsonSuffix|..] == "";
    } else {
      assert s[0] == phone[0] != '.';
      assert s[..|JsonSuffix|] != JsonSuffix;
      assert s[1..] == phone[1..] + JsonSuffix;
      assert '.' !in phone[1..];
      StemOfPlainKey(phone[1..]);
      assert [phone[0]] + phone[1..] == phone;
    }
  }

  /** The users get_all_registered_users lists for the given directory order. */
  function RegisteredUsers(listing: seq<string>): (users: seq<string>)
    ensures forall u :: u in users ==> AllDigits(u)
  {
    if |listing| == 0 then []
    else
      var rest := RegisteredUsers(listing[1..]);
      if AllDigits(StemOf(listing[0])) then [StemOf(listing[0])] + rest else rest
  }

  lemma {:induction false} DigitKeysListed(listing: seq<string>, phone: string)
    requires phone in listing && AllDigits(phone)
    ensures phone in RegisteredUsers(listing)
  {
    if listing[0] == phone {
      StemOfPlainKey(phone);
    } else {
      DigitKeysListed(listing[1..], phone);
    }
  }

  /** `listing` is the glob order of the record files: each key once. */
  ghost predicate IsEnumeration(listing: seq<string>, keys: set<string>)
  {
    && (forall i, j :: 0 <= i < j < |listing| ==> listing[i] != listing[j])
    && (forall k :: k in listing <==> k in keys)
  }

  // ---------------------------------------------------------------------------
  // The verifier
  // ---------------------------------------------------------------------------

  class BiometricVerifier {
    const caps: Capabilities
    const vision: Vision
    /** faces/<phone>.json */
    var records: map<string, Record>
    /** faces/<phone>_face.jpg */
    var faceImages: map<string, Crop>
    /** faces/<phone>_face_gray.jpg */
    var greyImages: map<string, Crop>
    /** faces/<phone>.jpg */
    var originals: map<string, Bytes>
    /** faces/models/<phone>_model.yml */
    var models: map<string, Model>
    /** The model the shared LBPH recogniser last trained on or read. */
    var recognizer: Option<Model>

    /** `__init__` when faces/ does not exist yet, or is empty. LBPH counts as available
      only when the OpenCV cascades loaded. */
    constructor (opencvLoads: bool, lbphAvailable: bool, ssimAvailable: bool, vision: Vision)
      ensures caps == Capabilities(opencvLoads, opencvLoads && lbphAvailable, ssimAvailable)
      ensures caps.advancedRecognition ==> caps.useOpenCv
      ensures this.vision == vision
      ensures records == map[] && faceImages == map[] && greyImages == map[]
      ensures originals == map[] && models == map[] && recognizer == None
    {
      caps := Capabilities(opencvLoads, opencvLoads && lbphAvailable, ssimAvailable);
      this.vision := vision;
      records, faceImages, greyImages, originals, models := map[], map[], map[], map[], map[];
      recognizer := None;
    }

    /** `__init__` over a faces/ directory left by earlier runs: the records,
      crops, originals and model files it holds are kept as they are, and the
      shared recogniser starts untrained. */
    constructor Open(opencvLoads: bool, lbphAvailable: bool, ssimAvailable: bool, vision: Vision,
                     records: map<string, Record>, faceImages: map<string, Crop>, greyImages: map<string, Crop>,
                     originals: map<string, Bytes>, models: map<string, Model>)
      ensures caps == Capabilities(opencvLoads, opencvLoads && lbphAvailable, ssimAvailable)
      ensures caps.advancedRecognition ==> caps.useOpenCv
      ensures this.vision == vision
      ensures this.records == records && this.faceImages == faceImages && this.greyImages == greyImages
      ensures this.originals == originals && this.models == models && recognizer == None
    {
      caps := Capabilities(opencvLoads, opencvLoads && lbphAvailable, ssimAvailable);
      this.vision := vision;
      this.records, this.faceImages, this.greyImages := records, faceImages, greyImages;
      this.originals, this.models := originals, models;
      recognizer := None;
    }

    /** The verdict verify_against_specific_user reaches for `phone` on the
      current directory contents. */
    function VerdictFor(phone: string, image: Bytes): Verdict
      reads this`records, this`models, this`faceImages
    {
      SpecificVerdict(caps, vision, Lookup(records, phone), Lookup(models, phone), Lookup(faceImages, phone), image)
    }

    /** register_face. False when the bytes are no image (nothing changes) or
      when the record cannot be written (crops and model already written stay).
      Otherwise the record is replaced whole, crops are written only when a
      face was cropped and `cv2.imwrite` succeeds (its failure is ignored), a
      model file only when training and saving succeed, so older crops and
      model files survive a hash-mode re-enrolment, a failed write or a failed
      retrain; a failure to save the original image is ignored. */
    method RegisterFace(phone: string, image: Bytes, now: string,
                        colourSaved: bool, greySaved: bool, recordSaved: bool, imageSaved: bool,
                        modelSaved: bool) returns (ok: bool)
      modifies this
      ensures ok <==> vision.decode(image).Some? && recordSaved
      ensures vision.decode(image).None? ==>
        && records == old(records) && faceImages == old(faceImages) && greyImages == old(greyImages)
        && originals == old(originals) && models == old(models) && recognizer == old(recognizer)
      ensures vision.decode(image).Some? ==>
        var e := EnrollmentOf(caps, vision, phone, image, now).value;
        && records == (if recordSaved then old(records)[phone := e.record] else old(records))
        && faceImages == (if e.crops.Some? && colourSaved then old(faceImages)[phone := e.crops.value.0]
                          else old(faceImages))
        && greyImages == (if e.crops.Some? && greySaved then old(greyImages)[phone := e.crops.value.1]
                          else old(greyImages))
        && originals == (if recordSaved && imageSaved then old(originals)[phone := image] else old(originals))
        && models == (if Trained(vision, e) && modelSaved then old(models)[phone := Model(e.trainingSet.value)]
                      else old(models))
        && recognizer == (if Trained(vision, e) then Some(Model(e.trainingSet.value)) else old(recognizer))
      ensures ok && records[phone].HashRecord? ==> VerdictFor(phone, image).matched
      ensures
        && ok && colourSaved && records[phone].FaceRecord? && phone in faceImages
        && |vision.greyPixels(faceImages[phone])| > 0
        && (caps.ssimAvailable ==>
              vision.ssim(vision.greyPixels(faceImages[phone]), vision.greyPixels(faceImages[phone])) > SsimThreshold)
        ==> VerdictFor(phone, image).matched
    {
      var frame := vision.decode(image);
      if frame.None? {
        return false;
      }
      var record := HashRecord(phone, vision.sha256(image), now);
      if caps.useOpenCv {
        var faceFound, faceRecord := EnrolFace(phone, image, frame.value, now, colourSaved, greySaved, modelSaved);
        if faceFound {
          record := faceRecord;
        }
      }
      ok := SaveRecord(phone, record, image, recordSaved, imageSaved);
    }

    /** The OpenCV part of register_face: detect, choose the largest face, crop
      it with its margin, save both crops and train the model. `faceFound` is
      false exactly when no face was detected, and the caller then falls back
      to the hash record. */
    method EnrolFace(phone: string, image: Bytes, frame: Frame, now: string,
                     colourSaved: bool, greySaved: bool, modelSaved: bool)
      returns (faceFound: bool, record: Record)
      requires caps.useOpenCv && vision.decode(image) == Some(frame)
      modifies this`faceImages, this`greyImages, this`models, this`recognizer
      ensures var e := EnrollmentOf(caps, vision, phone, image, now).value;
        && (faceFound <==> !e.record.HashRecord?)
        && (faceFound ==> record == e.record)
        && faceImages == (if e.crops.Some? && colourSaved then old(faceImages)[phone := e.crops.value.0]
                          else old(faceImages))
        && greyImages == (if e.crops.Some? && greySaved then old(greyImages)[phone := e.crops.value.1]
                          else old(greyImages))
        && models == (if Trained(vision, e) && modelSaved then old(models)[phone := Model(e.trainingSet.value)]
                      else old(models))
        && recognizer == (if Trained(vision, e) then Some(Model(e.trainingSet.value)) else old(recognizer))
      ensures
        && record.FaceRecord? && colourSaved && phone in faceImages
        && |vision.greyPixels(faceImages[phone])| > 0
        && (caps.ssimAvailable ==>
              vision.ssim(vision.greyPixels(faceImages[phone]), vision.greyPixels(faceImages[phone])) > SsimThreshold)
        ==> SpecificVerdict(caps, vision, Some(record), Lookup(models, phone), Lookup(faceImages, phone), image).matched
    {
      faceFound, record := false, EmptyRecord;
      var detection := DetectFace(frame, p => vision.detect(image, p));
      if detection.faces == [] {
        assert LocateFace(vision, image, frame) == NoFace;
        return;
      }
      faceFound := true;
      var idx := ChooseFace(detection.faces);
      var face := detection.faces[idx];
      var box := MarginBox(face, detection.gray.value);
      if !NonEmpty(box) {
        assert LocateFace(vision, image, frame) == EmptyRegion(face);
        return;
      }
      var colour, grey := Crop(image, box, Colour), Crop(image, box, Grey);
      assert LocateFace(vision, image, frame) == FaceAt(face, colour, grey);
      SaveCrops(phone, colour, grey, colourSaved, greySaved);
      var faceHash := vision.sha256(vision.encodeJpeg(colour));
      if caps.advancedRecognition {
        TrainModel(phone, grey, modelSaved);
      }
      record := FaceRecord(phone, face, faceHash, now, caps.advancedRecognition);
      ghost var g := vision.greyPixels(colour);
      if colourSaved && |g| > 0 && (caps.ssimAvailable ==> vision.ssim(g, g) > SsimThreshold) {
        FaceEnrollmentVerifies(caps, vision, phone, image, now, Lookup(models, phone));
      }
    }

    /** Writing faces/<phone>.json, then the copy of the original image; only
      the record write decides the result. */
    method SaveRecord(phone: string, record: Record, image: Bytes, recordSaved: bool, imageSaved: bool)
      returns (ok: bool)
      modifies this`records, this`originals
      ensures ok == recordSaved
      ensures records == if recordSaved then old(records)[phone := record] else old(records)
      ensures originals == if recordSaved && imageSaved then old(originals)[phone := image] else old(originals)
    {
      if !recordSaved {
        return false;
      }
      records := records[phone := record];
      if imageSaved {
        originals := originals[phone := image];
      }
      return true;
    }

    /** The two `cv2.imwrite` calls of register_face; a failed write keeps the
      file that was there. */
    method SaveCrops(phone: string, colour: Crop, grey: Crop, colourSaved: bool, greySaved: bool)
      modifies this`faceImages, this`greyImages
      ensures faceImages == if colourSaved then old(faceImages)[phone := colour] else old(faceImages)
      ensures greyImages == if greySaved then old(greyImages)[phone := grey] else old(greyImages)
    {
      if colourSaved {
        faceImages := faceImages[phone := colour];
      }
      if greySaved {
        greyImages := greyImages[phone := grey];
      }
    }

    /** Training the shared recogniser on the augmented samples, and saving
      the model file of `phone`; an exception in either is caught. */
    method TrainModel(phone: string, grey: Crop, modelSaved: bool)
      modifies this`recognizer, this`models
      ensures var plan := AugmentationPlan(grey);
        && recognizer == (if vision.trains(plan) then Some(Model(plan)) else old(recognizer))
        && models == (if vision.trains(plan) && modelSaved then old(models)[phone := Model(plan)] else old(models))
    {
      var samples, labels := Augment(grey);
      if vision.trains(samples) {
        recognizer := Some(Model(samples));
        if modelSaved {
          models := models[phone := Model(samples)];
        }
      }
    }

    /** verify_against_specific_user. Reading the model file replaces the
      shared recogniser's state. */
    method VerifyAgainstSpecificUser(phone: string, image: Bytes) returns (ok: bool)
      modifies this`recognizer
      ensures ok == VerdictFor(phone, image).matched
      ensures recognizer == if Lbph in VerdictFor(phone, image).tried then Lookup(models, phone) else old(recognizer)
    {
      if phone !in records {
        return false;
      }
      var frame := vision.decode(image);
      if frame.None? {
        return false;
      }
      var record := records[phone];
      if caps.useOpenCv && record.FaceRecord? {
        var detection := DetectFace(frame.value, p => vision.detect(image, p));
        if detection.faces != [] {
          var idx := ChooseFace(detection.faces);
          var box := MarginBox(detection.faces[idx], detection.gray.value);
          var colourCrop, greyCrop := CanonicalCrop(image, box, Colour), CanonicalCrop(image, box, Grey);
          if colourCrop.Some? && greyCrop.Some? {
            var colour, grey := colourCrop.value, greyCrop.value;
            if caps.advancedRecognition && phone in models && record.hasModel {
              recognizer := Some(models[phone]);
              var prediction := vision.predict(models[phone], grey);
              if LbphAccepts(prediction) {
                return true;
              }
            }
            if phone in faceImages {
              var storedGrey, currentGrey := vision.greyPixels(faceImages[phone]), vision.greyPixels(colour);
              if |storedGrey| == |currentGrey| {
                if caps.ssimAvailable {
                  if vision.ssim(storedGrey, currentGrey) > SsimThreshold {
                    return true;
                  }
                } else if WrappedMseAccepts(storedGrey, currentGrey) {
                  return true;
                }
              }
            }
          }
        }
      }
      if record.HashRecord? && vision.sha256(image) == record.imageHash {
        return true;
      }
      return false;
    }

    /** get_all_registered_users for the directory order `listing` of the
      record keys: the stems of the record files that are all digits. */
    method GetAllRegisteredUsers(listing: seq<string>) returns (users: seq<string>)
      ensures users == RegisteredUsers(listing)
      ensures forall u :: u in users ==> AllDigits(u)
      ensures forall k :: k in listing && AllDigits(k) ==> k in users
    {
      users := [];
      for i := 0 to |listing|
        invariant RegisteredUsers(listing) == users + RegisteredUsers(listing[i..])
      {
        assert listing[i..][1..] == listing[i + 1..];
        var stem := StemOf(listing[i]);
        if AllDigits(stem) {
          users := users + [stem];
        }
      }
      assert listing[|listing|..] == [];
      forall k | k in listing && AllDigits(k) ensures k in users {
        DigitKeysListed(listing, k);
      }
    }

    /** verify_face: the queried identity first; only when it has no record at
      all, every other listed identity in directory order until one matches.
      The candidates are exactly the other all-digit identities. */
    method VerifyFace(phone: string, image: Bytes, listing: seq<string>) returns (ok: bool)
      requires IsEnumeration(listing, records.Keys)
      modifies this`recognizer
      ensures ok <==>
        || VerdictFor(phone, image).matched
        || (phone !in records && exists u :: u in RegisteredUsers(listing) && u != phone && VerdictFor(u, image).matched)
      ensures ok <==>
        || VerdictFor(phone, image).matched
        || (phone !in records && exists u :: u in records && AllDigits(u) && u != phone && VerdictFor(u, image).matched)
    {
      ok := VerifyAgainstSpecificUser(phone, image);
      if ok {
        return;
      }
      if phone in records {
        return false;
      }
      var users := GetAllRegisteredUsers(listing);
      for i := 0 to |users|
        invariant forall j :: 0 <= j < i ==> users[j] == phone || !VerdictFor(users[j], image).matched
      {
        if users[i] != phone {
          var verified := VerifyAgainstSpecificUser(users[i], image);
          if verified {
            return true;
          }
        }
      }
      return false;
    }
  }
}
