/** The complaint and fraud rules of utils/ai.py: the keyword rule that flags a
    complaint as high risk before the text classifier is asked, the seat
    reallocation rule, and the per-phone counting behind the fraud report. */
module ComplaintRules {

  import opened Wrappers

  // ---------------------------------------------------------------------------
  // analyze_complaint_risk
  // ---------------------------------------------------------------------------

  const HighRiskKeywords: seq<string> :=
    ["money", "cash", "bribe", "receipt", "fine", "illegal", "extra", "demanded", "threatened"]

  const High: string := "High"
  const Low: string := "Low"

  function LowerChar(c: char): char
  {
    if 'A' <= c <= 'Z' then (c as int + 32) as char else c
  }

  /** `str.lower()`, on ASCII letters. */
  function Lower(s: string): (r: string)
    ensures |r| == |s|
    ensures forall i :: 0 <= i < |s| ==> r[i] == LowerChar(s[i])
  {
    seq(|s|, i requires 0 <= i < |s| => LowerChar(s[i]))
  }

  /** Python's substring test `k in t`. */
  predicate Contains(t: string, k: string)
  {
    exists i :: 0 <= i <= |t| - |k| && OccursAt(t, k, i)
  }

  predicate OccursAt(t: string, k: string, i: int)
  {
    0 <= i <= |t| - |k| && t[i..i + |k|] == k
  }

  /** Some high-risk keyword occurs in the (already lower-cased) text. */
  predicate HasKeyword(lowered: string)
  {
    exists j :: 0 <= j < |HighRiskKeywords| && Contains(lowered, HighRiskKeywords[j])
  }

  /** analyze_complaint_risk. `classify` stands for the bag-of-words vectoriser
      followed by the random forest: it yields the predicted class, or None when
      it raises. A keyword hit answers "High" without asking the classifier;
      otherwise class 1 means "High"; anything else, or an error, "Low". */
  method AnalyzeComplaintRisk(text: string, classify: string -> Option<int>) returns (risk: string)
    ensures risk == High || risk == Low
    ensures HasKeyword(Lower(text)) ==> risk == High
    ensures !HasKeyword(Lower(text)) ==> (risk == High <==> classify(Lower(text)) == Some(1))
  {
    var lowered := Lower(text);
    var i := 0;
    while i < |HighRiskKeywords|
      invariant 0 <= i <= |HighRiskKeywords|
      invariant forall j :: 0 <= j < i ==> !Contains(lowered, HighRiskKeywords[j])
    {
      if Contains(lowered, HighRiskKeywords[i]) {
        return High;
      }
      i := i + 1;
    }
    var prediction := classify(lowered);
    if prediction == Some(1) {
      risk := High;
    } else {
      risk := Low;
    }
  }

  lemma LowerSlice(t: string, i: int, j: int)
    requires 0 <= i <= j <= |t|
    ensures Lower(t[i..j]) == Lower(t)[i..j]
  {
  }

  /** Keyword matching ignores case: if the complaint contains, in any
      capitalisation, a word whose lower-case form is a keyword, the lower-cased
      complaint contains that keyword, so the rule fires. */
  lemma KeywordMatchIgnoresCase(text: string, word: string, j: int)
    requires 0 <= j < |HighRiskKeywords|
    requires Lower(word) == HighRiskKeywords[j]
    requires Contains(text, word)
    ensures HasKeyword(Lower(text))
  {
    var i :| 0 <= i <= |text| - |word| && OccursAt(text, word, i);
    LowerSlice(text, i, i + |word|);
    assert OccursAt(Lower(text), HighRiskKeywords[j], i);
    assert Contains(Lower(text), HighRiskKeywords[j]);
  }

  // ---------------------------------------------------------------------------
  // predict_seat_reallocation
  // ---------------------------------------------------------------------------

  /** predict_seat_reallocation: reallocation is recommended exactly when at
      least two seats are vacant; the coach plays no part. */
  function PredictSeatReallocation(coach: string, vacantSeats: int): (recommended: bool)
    ensures recommended <==> vacantSeats >= 2
  {
    vacantSeats >= 2
  }

  // ---------------------------------------------------------------------------
  // analyze_fraud_patterns
  // ---------------------------------------------------------------------------

  datatype Complaint = Complaint(phone: string, riskLevel: string)
  datatype Fine = Fine(phone: string)

  /** The dictionary analyze_fraud_patterns returns. */
  datatype FraudReport = FraudReport(
    potentialFraudsters: map<string, nat>,
    fraudRisk: map<string, (nat, nat)>)

  /** Number of complaints from `phone` whose risk level is exactly "High". */
  function HighRiskCount(complaints: seq<Complaint>, phone: string): nat
  {
    if |complaints| == 0 then 0
    else
      var c := complaints[|complaints| - 1];
      HighRiskCount(complaints[..|complaints| - 1], phone) + (if c.phone == phone && c.riskLevel == High then 1 else 0)
  }

  /** Number of fines issued to `phone`. */
  function FineCount(fines: seq<Fine>, phone: string): nat
  {
    if |fines| == 0 then 0
    else FineCount(fines[..|fines| - 1], phone) + (if fines[|fines| - 1].phone == phone then 1 else 0)
  }

  /** The first loop of analyze_fraud_patterns: `high_risk_counts`. A phone is
      a key exactly when it has a High complaint, and its value is how many. */
  method CountHighRisk(complaints: seq<Complaint>) returns (counts: map<string, nat>)
    ensures forall p :: p in counts <==> HighRiskCount(complaints, p) > 0
    ensures forall p :: p in counts ==> counts[p] == HighRiskCount(complaints, p)
  {
    counts := map[];
    var i := 0;
    while i < |complaints|
      invariant 0 <= i <= |complaints|
      invariant forall p :: p in counts <==> HighRiskCount(complaints[..i], p) > 0
      invariant forall p :: p in counts ==> counts[p] == HighRiskCount(complaints[..i], p)
    {
      var c := complaints[i];
      assert complaints[..i + 1][..i] == complaints[..i];
      if c.riskLevel == High {
        var previous := if c.phone in counts then counts[c.phone] else 0;
        counts := counts[c.phone := previous + 1];
      }
      i := i + 1;
    }
    assert complaints[..i] == complaints;
  }

  /** The fine loop of analyze_fraud_patterns: `fine_counts`. The keys are
      exactly the phones that were fined, each mapped to its number of fines. */
  method CountFines(fines: seq<Fine>) returns (counts: map<string, nat>)
    ensures forall p :: p in counts <==> FineCount(fines, p) > 0
    ensures forall p :: p in counts ==> counts[p] == FineCount(fines, p)
  {
    counts := map[];
    var i := 0;
    while i < |fines|
      invariant 0 <= i <= |fines|
      invariant forall p :: p in counts <==> FineCount(fines[..i], p) > 0
      invariant forall p :: p in counts ==> counts[p] == FineCount(fines[..i], p)
    {
      var f := fines[i];
      assert fines[..i + 1][..i] == fines[..i];
      var previous := if f.phone in counts then counts[f.phone] else 0;
      counts := counts[f.phone := previous + 1];
      i := i + 1;
    }
    assert fines[..i] == fines;
  }

  /** analyze_fraud_patterns. `potential_fraudsters` keeps the phones with at
      least three High complaints; `fraud_risk` pairs, for every phone with both
      a fine and a High complaint, its fine count with its High complaint count. */
  method AnalyzeFraudPatterns(complaints: seq<Complaint>, fines: seq<Fine>) returns (report: FraudReport)
    ensures forall p :: p in report.potentialFraudsters <==> HighRiskCount(complaints, p) >= 3
    ensures forall p :: p in report.potentialFraudsters ==>
      report.potentialFraudsters[p] == HighRiskCount(complaints, p)
    ensures forall p :: p in report.fraudRisk <==> FineCount(fines, p) > 0 && HighRiskCount(complaints, p) > 0
    ensures forall p :: p in report.fraudRisk ==>
      report.fraudRisk[p] == (FineCount(fines, p), HighRiskCount(complaints, p))
  {
    var highRiskCounts := CountHighRisk(complaints);
    var potentialFraudsters := map p | p in highRiskCounts && highRiskCounts[p] >= 3 :: highRiskCounts[p];
    var fineCounts := CountFines(fines);
    var fraudRisk: map<string, (nat, nat)> := map[];
    var pending := fineCounts.Keys;
    while pending != {}
      invariant pending <= fineCounts.Keys
      invariant forall p :: p in fraudRisk <==>
        p in fineCounts && p !in pending && p in highRiskCounts
      invariant forall p :: p in fraudRisk ==> fraudRisk[p] == (fineCounts[p], highRiskCounts[p])
      decreases pending
    {
      var phone :| phone in pending;
      if phone in highRiskCounts {
        fraudRisk := fraudRisk[phone := (fineCounts[phone], highRiskCounts[phone])];
      }
      pending := pending - {phone};
    }
    report := FraudReport(potentialFraudsters, fraudRisk);
  }

  /** Sum of the fine counts of the given phones. */
  function SumFineCounts(fines: seq<Fine>, phones: seq<string>): nat
  {
    if |phones| == 0 then 0 else FineCount(fines, phones[0]) + SumFineCounts(fines, phones[1..])
  }

  /** Whether `phone` is among `phones` (1) or not (0). */
  function Indicator(phones: seq<string>, phone: string): nat
  {
    if |phones| == 0 then 0 else (if phones[0] == phone then 1 else 0) + Indicator(phones[1..], phone)
  }

  lemma {:induction false} IndicatorDistinct(phones: seq<string>, phone: string)
    requires forall i, j :: 0 <= i < j < |phones| ==> phones[i] != phones[j]
    ensures Indicator(phones, phone) == if phone in phones then 1 else 0
  {
    if |phones| > 0 {
      IndicatorDistinct(phones[1..], phone);
      if phones[0] == phone {
        assert phone !in phones[1..] by {
          forall k | 0 <= k < |phones| - 1 ensures phones[1..][k] != phone {
            assert phones[1..][k] == phones[k + 1];
          }
        }
      }
    }
  }

  /** Adding one fine to `phone` adds Indicator(phones, phone) to the sum. */
  lemma {:induction false} SumFineCountsStep(fines: seq<Fine>, f: Fine, phones: seq<string>)
    ensures SumFineCounts(fines + [f], phones) == SumFineCounts(fines, phones) + Indicator(phones, f.phone)
  {
    assert (fines + [f])[..|fines|] == fines;
    if |phones| > 0 {
      SumFineCountsStep(fines, f, phones[1..]);
    }
  }

  /** The values of `fine_counts` add up to the number of fines: summed over any
      list of distinct phones that covers every fined phone, the per-phone fine
      counts total |fines|. */
  lemma {:induction false} FineCountsTotal(fines: seq<Fine>, phones: seq<string>)
    requires forall i, j :: 0 <= i < j < |phones| ==> phones[i] != phones[j]
    requires forall f :: f in fines ==> f.phone in phones
    ensures SumFineCounts(fines, phones) == |fines|
  {
    if |fines| == 0 {
      SumZero(phones);
    } else {
      var init, last := fines[..|fines| - 1], fines[|fines| - 1];
      assert fines == init + [last];
      FineCountsTotal(init, phones);
      SumFineCountsStep(init, last, phones);
      IndicatorDistinct(phones, last.phone);
    }
  }

  lemma {:induction false} SumZero(phones: seq<string>)
    ensures SumFineCounts([], phones) == 0
  {
    if |phones| > 0 {
      SumZero(phones[1..]);
    }
  }

  /** Every key of `fine_counts` is the phone of some fine. */
  lemma {:induction false} FinedPhoneOccurs(fines: seq<Fine>, phone: string)
    requires FineCount(fines, phone) > 0
    ensures exists f :: f in fines && f.phone == phone
  {
    var init := fines[..|fines| - 1];
    if fines[|fines| - 1].phone != phone {
      FinedPhoneOccurs(init, phone);
      var f :| f in init && f.phone == phone;
      assert f in fines;
    }
  }
}
