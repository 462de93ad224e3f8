# RailGuard India core, modelled in Dafny

RailGuard India issues railway passengers a blockchain-backed Trust ID. It
enrols and verifies their faces, decodes ticket QR codes and rates
complaints and fraud. This project models four parts of that system:

- `utils/biometrics.py`, the `BiometricVerifier`. Enrolment (`register_face`)
  detects the largest face and crops it with a 30% margin. It stores colour and
  grey crops and trains an LBPH model on 13 augmented samples. When no face is
  found it falls back to a SHA-256 hash of the image. Verification
  (`verify_against_specific_user`) depends on the kind of record. An
  "opencv_enhanced" record is checked by LBPH and then by SSIM or MSE against
  the stored crop. A "hash" record is checked by comparing image hashes only.
  `verify_face` falls back to every other
  registered user when the queried phone has no record. The modules are
  `FaceDetection` (detector cascade, largest face, margin box), `Augmentation`
  (the training plan) and `Biometrics` (records, verdicts and the
  `BiometricVerifier` class, whose fields are the faces/ directory as maps).
- `utils/blockchain.py`: the proof-of-work ledger (`BlockchainVerifier`, a class
  over its `chain`) and the `create_trust_id` / `verify_trust_id` functions
  (module `Blockchain`).
- `utils/ai.py`: the complaint keyword rule, seat reallocation and fraud
  pattern counting (module `ComplaintRules`).
- `utils/qr_code.py`: `decode_qr_code` and the ticket encoding used by
  `app.py` (module `QrCode`).

The external computations are oracles: function-typed parameters, or `const`
fields of the classes. These are OpenCV's Haar detector, LBPH training and
prediction, grey conversion, SSIM, SHA-256, Keccak, the block hash and the
scikit-learn classifier. Whether an image opens is also an oracle. In
`register_face`, each file write whose failure the source observes or ignores
is a `bool` parameter: the record, the two crops, the original image and the
model file. So is the ledger write inside `create_trust_id`. The other ledger
writes are not modelled (see "Left out"). The clock and the random salt are
parameters.

`decode_qr_code` tests `count('|') == 3` twice. The standing-zone branch is
therefore unreachable. The model keeps both branches as written, and
`QrCode.DecodeQr` proves that a standing-zone result never occurs.

## Model

| member | source | states |
|---|---|---|
| QrCode.Split | utils/qr_code.py:63 | `str.split` gives one more part than there are separators, and no part contains the separator |
| QrCode.Unpack4 | utils/qr_code.py:63 | four-way unpacking succeeds exactly when there are four parts |
| QrCode.DecodeQr | utils/qr_code.py:50-86 | exactly three '\|' gives a ticket whose separator-free fields re-join to the input; any other count gives `unknown` carrying the input; a standing-zone or error result never occurs |
| QrCode.CountCharAppend | utils/qr_code.py:62 | the separator count of a concatenation is the sum of the counts |
| QrCode.CountCharAbsent | utils/qr_code.py:62 | a string without the separator has count zero |
| QrCode.EncodeTicketSeparators | app.py:230 | the encoded ticket holds three '\|' plus those of its fields, so it passes the decoder's three-separator test exactly when no field contains '\|' |
| QrCode.CountCharPresent | utils/qr_code.py:62 | a string contains the character exactly when its count is positive |
| QrCode.JoinSplit | utils/qr_code.py:63 | joining the split parts with the separator gives the input back |
| QrCode.SplitAfterField | utils/qr_code.py:63 | splitting `a\|b` with separator-free `a` gives `a` followed by the parts of `b` |
| QrCode.SplitNoSeparator | utils/qr_code.py:63 | a string without the separator splits into itself alone |
| QrCode.TicketRoundTrip | app.py:230 | decoding the `train\|coach\|seat\|phone` string that the app encodes gives back the same four fields, when none of them contains '\|' |
| ComplaintRules.Lower | utils/ai.py:65 | lower-casing keeps the length and maps every character pointwise |
| ComplaintRules.AnalyzeComplaintRisk | utils/ai.py:50-85 | the result is "High" or "Low"; any high-risk keyword in the lower-cased text gives "High"; otherwise "High" exactly when the classifier predicts 1 (a classifier failure gives "Low") |
| ComplaintRules.LowerSlice | utils/ai.py:65 | lower-casing commutes with slicing |
| ComplaintRules.KeywordMatchIgnoresCase | utils/ai.py:65-71 | a keyword present in any letter case is caught by the rule |
| ComplaintRules.PredictSeatReallocation | utils/ai.py:87-100 | reallocation is recommended exactly when at least two seats are vacant |
| ComplaintRules.CountHighRisk | utils/ai.py:113-117 | a phone is a key exactly when it has a high-risk complaint, and its value is the number of them |
| ComplaintRules.CountFines | utils/ai.py:123-125 | a phone is a key exactly when it has a fine, and its value is its number of fines |
| ComplaintRules.AnalyzeFraudPatterns | utils/ai.py:102-137 | potential fraudsters are exactly the phones with at least 3 high-risk complaints, with that count; fraud risk holds exactly the phones with both a fine and a high-risk complaint, with the pair (fines, high-risk complaints) |
| ComplaintRules.IndicatorDistinct | utils/ai.py:129 | in a list of distinct phones, a phone appears once or not at all |
| ComplaintRules.SumFineCountsStep | utils/ai.py:124-125 | one more fine raises the total count by one for its phone |
| ComplaintRules.FineCountsTotal | utils/ai.py:123-125 | the fine counts over all fined phones add up to the number of fines |
| ComplaintRules.SumZero | utils/ai.py:123 | with no fines, every count is zero |
| ComplaintRules.FinedPhoneOccurs | utils/ai.py:124-125 | a phone with a positive fine count has a fine |
| Blockchain.HashIgnoresStoredHash | utils/blockchain.py:53-62 | the block hash does not depend on the stored `hash` field |
| Blockchain.Genesis | utils/blockchain.py:34-51 | the genesis block has index 0, nonce 0, the genesis text, 64 '0's as previous hash, and its own hash |
| Blockchain.Mine | utils/blockchain.py:84-90 | the nonce found is the least non-negative one whose hash starts with "000", and the hash returned is that nonce's hash |
| Blockchain.AppendKeepsValid | utils/blockchain.py:101-115 | appending a block linked to the last hash and carrying its own hash keeps the chain valid |
| Blockchain.BlockchainVerifier.Init | utils/blockchain.py:16-32 | a fresh ledger holds only the genesis block and is valid |
| Blockchain.BlockchainVerifier.Load | utils/blockchain.py:27-30 | a loaded ledger holds the stored chain |
| Blockchain.BlockchainVerifier.CreateBlock | utils/blockchain.py:73-92 | the new block follows the last one (index + 1, its hash as previous hash), carries the data and time, and its own least-nonce hash meeting the difficulty |
| Blockchain.BlockchainVerifier.AddTransaction | utils/blockchain.py:94-99 | the chain grows by exactly that block, and a valid chain stays valid |
| Blockchain.BlockchainVerifier.VerifyChain | utils/blockchain.py:101-115 | the result is true exactly when every block after the genesis carries its own hash and links to its predecessor's hash |
| Blockchain.Prefix16 | utils/blockchain.py:145 | the CID is the first 16 characters of the hash, or all of a shorter hash |
| Blockchain.VerifyTrustId | utils/blockchain.py:152-188 | the result is true exactly when the chain is valid and the search finds a non-genesis block whose phone, timestamp and salt re-hash to the Trust ID; a block with `phone` but without `timestamp` or `salt`, met before a match, makes it false |
| Blockchain.SearchFindsAppended | utils/blockchain.py:164-183 | a block that matches, appended to a chain that raised nothing, is found |
| Blockchain.CreateTrustId | utils/blockchain.py:117-150 | on success exactly one block is appended, holding the phone, the Aadhaar hash (empty without Aadhaar), the timestamp and the salt; the Trust ID is the Keccak of its preimage and the CID the hash prefix; when saving fails the chain is unchanged and the result is (SHA-256 of the phone, "error") |
| Blockchain.IssuedTrustIdVerifies | utils/blockchain.py:117-188 | a Trust ID just issued on a valid chain is found by the verification, and the chain stays valid |
| FaceDetection.DetectFace | utils/biometrics.py:82-136 | passes run in the order frontal, profile, lenient and stop at the first that finds a face; earlier passes found nothing; the faces are those of the last pass; a detector exception gives no grey image and no faces |
| FaceDetection.ScanLargest | utils/biometrics.py:189-204 | the index chosen lies within the faces |
| FaceDetection.ScanLargestIsFirstMaximum | utils/biometrics.py:189-204 | the scan keeps the first face of strictly largest positive area, starting from area 0 |
| FaceDetection.ChooseFace | utils/biometrics.py:189-204 | the chosen face's area is at least every positive area; every earlier face is strictly smaller; index 0 is kept when no area is positive |
| FaceDetection.MarginBox | utils/biometrics.py:207-214 | the margin box starts at or after the image's top-left corner and ends at or before its bottom-right corner; for a face inside the image it contains the face, is non-empty and extends at most 30% of each side beyond it |
| FaceDetection.CanonicalCrop | utils/biometrics.py:217-222 | resizing to 200x200 succeeds exactly when the margin box is non-empty |
| Augmentation.Augment | utils/biometrics.py:245-290 | the training set is the plan: the base face, 6 rotations, 4 rescalings padded or centre-cropped back, 2 brightness changes; 13 samples, all labelled 1, all 200x200 |
| Augmentation.PlanIsCanonical | utils/biometrics.py:249-290 | every planned sample comes from the base face and has side 200 |
| Biometrics.LocateFace | utils/biometrics.py:181-222 | there is no face exactly when detection found none; otherwise the face is the selected largest one; a crop exists exactly when its margin box is non-empty, and it is taken from that box in colour and grey |
| Biometrics.SquaredError | utils/biometrics.py:488 | the sum of squared pixel differences is zero exactly when the two grey images are equal |
| Biometrics.MeanSquaredError | utils/biometrics.py:488 | no mean exists for empty images; the mean is zero exactly when the images are equal |
| Biometrics.MseDiscriminates | utils/biometrics.py:486-496 | with differences taken over the integers, identical crops pass the MSE test and a black pixel against a white one fails it |
| Biometrics.WrappedSquaredError | utils/biometrics.py:488 | with the uint8 arithmetic as written, the sum is at most 255 per pixel |
| Biometrics.WrappedMeanSquaredError | utils/biometrics.py:488 | with the uint8 arithmetic as written, the mean is at most 255 |
| Biometrics.WrappedMseAcceptsEverything | utils/biometrics.py:486-496 | as written, any two non-empty crops of one shape pass the MSE test (below 4000); black against white gives mean 1 |
| Biometrics.MeanBound | utils/biometrics.py:488 | a mean of terms bounded by b is bounded by b |
| Biometrics.FaceAttempt | utils/biometrics.py:435-500 | LBPH is consulted exactly when recognition is available, the model exists and `has_model` is set. The verdict is a match exactly when LBPH accepts (label 1, confidence below 100), or when a stored crop of the query's shape exists and SSIM exceeds 0.35 (SSIM importable) or the uint8 MSE as written is below 4000 (otherwise). When LBPH does not accept and such a stored crop exists, SSIM or MSE is actually tried, never both |
| Biometrics.SpecificVerdict | utils/biometrics.py:356-526 | no record, or bytes that are no image, give no match; the hash comparison runs exactly for a "hash" record and an image, and then the verdict is exactly hash equality; OpenCV strategies run only for an "opencv_enhanced" record with OpenCV and a cropped face; for such a record and an image, the verdict is exactly `FaceAttempt` on the located crop (no crop or no OpenCV: no match); the empty record never matches |
| Biometrics.MseFallbackAcceptsAnyFace | utils/biometrics.py:463-496 | without SSIM, an "opencv_enhanced" record matches every query in which a face is cropped, once a stored crop of the same size exists |
| Biometrics.HashRecordIgnoresStaleArtifacts | utils/biometrics.py:386-387 | for a "hash" record the verdict does not depend on leftover model files or stored crops |
| Biometrics.VerdictIgnoresRegionAndFaceHash | utils/biometrics.py:386-459 | verification of an "opencv_enhanced" record reads only `has_model`, never the face region, face hash or timestamp |
| Biometrics.EnrollmentOf | utils/biometrics.py:155-354 | an image that does not open gives nothing; an "opencv_enhanced" record holds the un-margined selected face, the hash of the encoded colour crop, and `has_model` equal to the LBPH capability, and its training set is the augmentation of the grey crop; a "hash" record holds the SHA-256 of the raw bytes, written only without OpenCV or without a face; an empty record comes from a face whose crop is empty |
| Biometrics.FaceEnrollmentVerifies | utils/biometrics.py:155-500 | verifying the enrolled bytes against the enrolment's own face record and colour crop matches, whatever model file is present, provided the crop's grey image is non-empty and SSIM (when importable) rates it above 0.35 against itself |
| Biometrics.HashEnrollmentVerifies | utils/biometrics.py:318-326 | a hash-mode enrolment verifies the same bytes, whatever crops or models are left over |
| Biometrics.StemOfPlainKey | utils/biometrics.py:146 | removing ".json" from the file name of a key without '.' gives the key back |
| Biometrics.RegisteredUsers | utils/biometrics.py:138-153 | every user listed is all digits |
| Biometrics.DigitKeysListed | utils/biometrics.py:145-149 | every all-digit key in the listing is among the users |
| Biometrics.BiometricVerifier.constructor | utils/biometrics.py:34-80 | over a missing or empty faces/ directory the verifier stores nothing; LBPH counts as available only when OpenCV loads |
| Biometrics.BiometricVerifier.Open | utils/biometrics.py:34-80 | over an existing faces/ directory every record, crop, original and model file is kept unchanged; the recogniser starts untrained; LBPH counts as available only when OpenCV loads |
| Biometrics.BiometricVerifier.SaveCrops | utils/biometrics.py:224-230 | each crop file is replaced exactly when its write succeeds; a failed write leaves the previous file |
| Biometrics.BiometricVerifier.TrainModel | utils/biometrics.py:239-300 | on successful training the recogniser holds the model of the 13-sample plan, and the user's model file is replaced exactly when saving also succeeds; otherwise both are unchanged |
| Biometrics.BiometricVerifier.RegisterFace | utils/biometrics.py:155-354 | success exactly when the image opens and the record is written; an image that does not open changes nothing; the record is replaced by the enrolment's record; each crop is written when a face is cropped and its own write succeeds, even if the record write then fails; a model file only when training and saving succeed; older crops and models survive otherwise; a hash record just written verifies the same bytes; a face record just written, with its colour crop saved, verifies the same bytes when that crop's grey image is non-empty and, with SSIM importable, SSIM rates it above 0.35 against itself |
| Biometrics.BiometricVerifier.EnrolFace | utils/biometrics.py:181-300 | a face is found exactly when the enrolment's record is not a hash record, and then the record is the enrolment's; crops, model file and recogniser change as the enrolment decides; a face record whose colour crop was saved verifies the enrolled bytes under the same condition as in `RegisterFace` |
| Biometrics.BiometricVerifier.SaveRecord | utils/biometrics.py:328-349 | the record is replaced exactly when its write succeeds, and the original image only when both writes succeed; the result is the record write's success |
| Biometrics.BiometricVerifier.VerifyAgainstSpecificUser | utils/biometrics.py:356-526 | the result is the verdict of the specification for the current directory; the shared recogniser takes the user's model exactly when LBPH was consulted |
| Biometrics.BiometricVerifier.GetAllRegisteredUsers | utils/biometrics.py:138-153 | the result is the listing's all-digit file stems in directory order, and it includes every all-digit key |
| Biometrics.BiometricVerifier.VerifyFace | utils/biometrics.py:528-572 | true exactly when the queried phone verifies, or it has no record and some other registered all-digit phone verifies |

## Findings

| source | as written | input that shows it | evidently intended | confidence | as-written member | corrected member |
|---|---|---|---|---|---|---|
| utils/biometrics.py:486-496 | `np.mean((stored_gray - current_gray) ** 2)` on uint8 images wraps both the difference and the square modulo 256, so the mean never exceeds 255 and the `< 4000` test always passes | a black 200x200 crop against a white one: every term is (0 - 255) mod 256 = 1, mean 1 | the mean squared difference of the pixel values (65025 for black against white), which fails the test | not executed | Biometrics.WrappedMseAcceptsEverything | Biometrics.MseDiscriminates |

The verifier itself (`Biometrics.FaceAttempt`,
`Biometrics.BiometricVerifier.VerifyAgainstSpecificUser`) follows the code as
written, `Biometrics.WrappedMseAccepts`, and `Biometrics.MseFallbackAcceptsAnyFace`
states the consequence. The corrected test is `Biometrics.MseAccepts`.

## Left out

- Image processing is not modelled numerically. The Haar detector, LBPH training and prediction, grey conversion, SSIM, JPEG encoding and SHA-256 / Keccak are uninterpreted functions. A crop is named by its image, its box and its channel, and the resize to 200x200 is part of that name.
- Biometrics.FaceAttempt: the stored crop's shape check is modelled as equal grey pixel counts. `cv2.imread` returning None for a corrupt file is not modelled.
- Biometrics.BiometricVerifier.constructor: covers only a missing or empty faces/ directory. A directory left by earlier runs is covered by `Biometrics.BiometricVerifier.Open`, which keeps its contents as given; the contents are not read from disk.
- Biometrics.BiometricVerifier.VerifyAgainstSpecificUser: a corrupt JSON file, and records with the legacy method "opencv", are not modelled. Records only ever take the three forms that `register_face` writes.
- Biometrics.BiometricVerifier.RegisterFace: the copy of the original image is stored as its bytes, not re-encoded as JPEG. The timestamp is a parameter.
- Biometrics.BiometricVerifier.RegisterFace: when the colour crop's write fails, verification of the same bytes is not promised. It then rests on LBPH, or on a crop left by an earlier enrolment.
- Biometrics.BiometricVerifier.RegisterFace: the colour crop is stored as the crop itself. The lossy JPEG write and read-back of `_face.jpg` is not modelled, so the stored grey pixels equal those of a fresh crop of the same region.
- The faces/ directory is a set of maps keyed by phone. The directory listing is a parameter of `GetAllRegisteredUsers` and `VerifyFace`. Its order decides only which model the shared recogniser holds at the end.
- Blockchain.Mine: the proof-of-work loop is modelled only for headers that some nonce solves. The divergence of the source's unbounded loop otherwise is not modelled.
- Blockchain.BlockchainVerifier.Load: a stored file holding an empty chain is not modelled, since the source's constructor already fails on it, when it logs `self.chain[0]['hash']`. File I/O and JSON serialisation are left out; the ledger is the in-memory chain.
- Blockchain.BlockchainVerifier.AddTransaction: a failing save of the ledger file is not modelled. In the source it raises after the block has been appended to the in-memory chain.
- Blockchain.BlockchainVerifier.Init: a failing save of the fresh ledger file is not modelled. In the source it raises out of the constructor.
- Blockchain.CreateTrustId: the exception path is modelled only for a failure to save. `time.time()` and the salt from `os.urandom(8)` are parameters.
- ComplaintRules.AnalyzeComplaintRisk: lower-casing is modelled on ASCII only. The scikit-learn vectoriser and classifier, and their training in `initialize_model`, are one oracle, and its failure is `None`.
- Biometrics.RegisteredUsers: `str.isdigit` is modelled on the ASCII digits only.
- FaceDetection.NonEmpty: a box counts as empty when its end does not exceed its start. Python reads a negative slice end as counting back from the image's edge. `MarginBox` gives a negative end only for a rectangle lying wholly above or left of the image, which the Haar detector does not return. Such a rectangle would give an empty record in the model and a cropped face in the source.
- Python's `int(h * 0.3)` is modelled as integer truncation toward zero of 3h/10. This agrees for the non-negative sizes the detector returns.
- `generate_qr_code` (image rendering), `utils/sms.py`, `models.py`, `app.py` routes and the static JavaScript are not part of this model.
- Concurrency between requests sharing one verifier or one ledger file is not modelled.
