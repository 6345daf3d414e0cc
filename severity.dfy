/** `SeverityModel`: the features it extracts from a finding, its synthetic
    training table, the choice of class and confidence from the classifier's
    probabilities, and the class labels. The classifier itself (a fitted
    multinomial logistic regression) is a parameter. */
module Severity {
  import opened Wrappers
  import opened Text
  import opened Http
  import opened SecurityHeaders

  /** A finding as the model reads it: a dictionary whose keys "type",
      "header", "payload" and "url" may each be missing. */
  datatype Record = Record(kind: Option<string>, header: Option<string>, payload: Option<string>, url: Option<string>)

  /** The dictionary the scanner emits for a finding: injection findings have
      no "header" key, header findings no "payload" key. */
  function FromFinding(f: Finding): Record {
    Record(Some(f.kind), f.header, f.payload, Some(f.url))
  }

  // ---------------------------------------------------------------------
  // Feature encoding
  // ---------------------------------------------------------------------

  /** `_encode_type`: injection types score 2, a missing header 1, anything
      else 0. */
  function EncodeType(t: string): (code: int)
    ensures 0 <= code <= 2
    ensures code == 2 <==> t == XSS_REFLECTED || t == SQLI_ERROR_BASED
    ensures code == 1 <==> t == MISSING_HEADER
  {
    var mapping := map["xss_reflected" := 2, "sqli_error_based" := 2, "missing_header" := 1];
    if t in mapping then mapping[t] else 0
  }

  const CSP := "content-security-policy"
  const HSTS := "strict-transport-security"
  const XFO := "x-frame-options"
  const XCTO := "x-content-type-options"

  /** `_encode_header_name`: 0 for no header; otherwise the lower-cased name is
      searched for the four known names, in a fixed order, as substrings. */
  function EncodeHeaderName(header: Option<string>): (score: int)
    ensures 0 <= score <= 2
    ensures header.None? ==> score == 0
  {
    match header
    case None => 0
    case Some(h) =>
      var l := Lower(h);
      if Contains(l, CSP) then 2
      else if Contains(l, HSTS) then 2
      else if Contains(l, XFO) then 1
      else if Contains(l, XCTO) then 1
      else 0
  }

  /** The normalised URL length: the length over 200, capped at 1; 0 for a
      missing or empty URL. */
  function UrlLengthNorm(url: Option<string>): (x: real)
    ensures 0.0 <= x <= 1.0
    ensures url.None? || url.value == [] ==> x == 0.0
    ensures url.Some? && |url.value| <= 200 ==> x == |url.value| as real / 200.0
    ensures url.Some? && |url.value| >= 200 ==> x == 1.0
  {
    var len := if url.Some? && url.value != [] then |url.value| else 0;
    var ratio := len as real / 200.0;
    if ratio < 1.0 then ratio else 1.0
  }

  /** `_features_from_finding`: [type code, has payload, header score,
      normalised URL length]; a missing key never fails, and every feature
      lies in its range: {0,1,2}, {0,1}, {0,1,2} and [0,1]. */
  function Features(f: Record): (v: seq<real>)
    ensures |v| == 4
    ensures v[0] == 0.0 || v[0] == 1.0 || v[0] == 2.0
    ensures v[1] == 0.0 || v[1] == 1.0
    ensures v[2] == 0.0 || v[2] == 1.0 || v[2] == 2.0
    ensures 0.0 <= v[3] <= 1.0
  {
    var fType := EncodeType(f.kind.GetOr(""));
    var hasPayload := if f.payload.Some? && f.payload.value != [] then 1 else 0;
    var headerScore := EncodeHeaderName(f.header);
    [fType as real, hasPayload as real, headerScore as real, UrlLengthNorm(f.url)]
  }

  // ---------------------------------------------------------------------
  // Properties of the encoding
  // ---------------------------------------------------------------------

  /** Header names are matched case-insensitively. */
  lemma HeaderScoreCaseInsensitive(h: string)
    ensures EncodeHeaderName(Some(h)) == EncodeHeaderName(Some(Lower(h)))
  {
    LowerIdempotent(h);
  }

  /** A header scores 2 exactly when its lower-cased name contains the CSP or
      the HSTS name, and scores above 0 exactly when it contains one of the
      four names the header audit requires. */
  lemma HeaderScoreSpec(h: string)
    ensures EncodeHeaderName(Some(h)) == 2 <==> Contains(Lower(h), CSP) || Contains(Lower(h), HSTS)
    ensures EncodeHeaderName(Some(h)) > 0 <==> exists r :: r in REQUIRED_HEADERS && Contains(Lower(h), r)
  {
    var l := Lower(h);
    if EncodeHeaderName(Some(h)) > 0 {
      if Contains(l, CSP) {
        assert CSP in REQUIRED_HEADERS;
      } else if Contains(l, HSTS) {
        assert HSTS in REQUIRED_HEADERS;
      } else if Contains(l, XFO) {
        assert XFO in REQUIRED_HEADERS;
      } else {
        assert XCTO in REQUIRED_HEADERS;
      }
    }
  }

  /** The names of the header audit score 2 (CSP), 1 (X-Frame-Options), 1
      (X-Content-Type-Options) and 2 (HSTS). */
  lemma RequiredHeaderScores()
    ensures EncodeHeaderName(Some(CSP)) == 2
    ensures EncodeHeaderName(Some(XFO)) == 1
    ensures EncodeHeaderName(Some(XCTO)) == 1
    ensures EncodeHeaderName(Some(HSTS)) == 2
  {
    LowerNoUpper(CSP);
    LowerNoUpper(XFO);
    LowerNoUpper(XCTO);
    LowerNoUpper(HSTS);
    ContainsSelf(CSP);
    ContainsSelf(XFO);
    ContainsSelf(XCTO);
    ContainsSelf(HSTS);
    assert !IsPrefix(XFO, XCTO) by {
      assert XCTO[..|XFO|][2] != XFO[2];
    }
    NotContainedHead(XCTO, XFO);
  }

  /** The features of the scanner's findings: a missing header gives
      [1, 0, its score, URL length]; an injection finding gives
      [2, 1 (0 for an empty payload), 0, URL length]. */
  lemma ScannerFindingFeatures(url: string, h: string, param: string, payload: string)
    ensures Features(FromFinding(MissingHeader(url, h)))
      == [1.0, 0.0, EncodeHeaderName(Some(h)) as real, UrlLengthNorm(Some(url))]
    ensures Features(FromFinding(XssReflected(url, param, payload)))
      == [2.0, if payload != [] then 1.0 else 0.0, 0.0, UrlLengthNorm(Some(url))]
    ensures Features(FromFinding(SqliErrorBased(url, param, payload)))
      == [2.0, if payload != [] then 1.0 else 0.0, 0.0, UrlLengthNorm(Some(url))]
  {
  }

  // ---------------------------------------------------------------------
  // Synthetic training set (_train_synthetic)
  // ---------------------------------------------------------------------

  const EXEMPLAR_URL := "http://a"

  /** The hand-written exemplars and their severity labels. */
  const EXEMPLARS: seq<(Record, int)> := [
    (Record(Some("xss_reflected"), None, Some("p"), Some(EXEMPLAR_URL)), 2),
    (Record(Some("sqli_error_based"), None, Some("p"), Some(EXEMPLAR_URL)), 2),
    (Record(Some("missing_header"), Some(CSP), None, Some(EXEMPLAR_URL)), 1),
    (Record(Some("missing_header"), Some(XFO), None, Some(EXEMPLAR_URL)), 1),
    (Record(Some("missing_header"), Some(HSTS), None, Some(EXEMPLAR_URL)), 2),
    (Record(Some("missing_header"), Some(XCTO), None, Some(EXEMPLAR_URL)), 1),
    (Record(Some("other"), None, None, Some(EXEMPLAR_URL)), 0)
  ]

  /** The feature matrix X of the training set, one row per exemplar. */
  function TrainingMatrix(): (x: seq<seq<real>>)
    ensures |x| == |EXEMPLARS|
  {
    seq(|EXEMPLARS|, i requires 0 <= i < |EXEMPLARS| => Features(EXEMPLARS[i].0))
  }

  /** The label vector y of the training set. */
  function TrainingLabels(): (y: seq<int>)
    ensures |y| == |EXEMPLARS|
  {
    seq(|EXEMPLARS|, i requires 0 <= i < |EXEMPLARS| => EXEMPLARS[i].1)
  }

  /** The loop of `_train_synthetic` that builds X and y before `fit`. */
  method BuildTrainingSet() returns (x: seq<seq<real>>, y: seq<int>)
    ensures x == TrainingMatrix() && y == TrainingLabels()
  {
    x, y := [], [];
    for i := 0 to |EXEMPLARS|
      invariant |x| == |y| == i
      invariant forall j :: 0 <= j < i ==> x[j] == Features(EXEMPLARS[j].0) && y[j] == EXEMPLARS[j].1
    {
      var (f, sev) := EXEMPLARS[i];
      x := x + [Features(f)];
      y := y + [sev];
    }
  }

  /** The training set in numbers: the labels are 2,2,1,1,2,1,0 and every
      exemplar URL has length 8, so the last feature is 8/200 throughout. */
  lemma TrainingSetValues()
    ensures TrainingLabels() == [2, 2, 1, 1, 2, 1, 0]
    ensures TrainingMatrix() == [
      [2.0, 1.0, 0.0, 0.04],
      [2.0, 1.0, 0.0, 0.04],
      [1.0, 0.0, 2.0, 0.04],
      [1.0, 0.0, 1.0, 0.04],
      [1.0, 0.0, 2.0, 0.04],
      [1.0, 0.0, 1.0, 0.04],
      [0.0, 0.0, 0.0, 0.04]]
  {
    RequiredHeaderScores();
    assert |EXEMPLAR_URL| == 8;
    assert UrlLengthNorm(Some(EXEMPLAR_URL)) == 0.04;
  }

  // ---------------------------------------------------------------------
  // Prediction (predict_severity) and labels (label_from_class)
  // ---------------------------------------------------------------------

  /** `np.argmax`: the index of the first maximal entry. */
  function Argmax(probs: seq<real>): (k: nat)
    requires |probs| > 0
    ensures k < |probs|
    ensures forall j :: 0 <= j < |probs| ==> probs[j] <= probs[k]
    ensures forall j :: 0 <= j < k ==> probs[j] < probs[k]
    decreases |probs|
  {
    if |probs| == 1 then 0
    else
      var k := Argmax(probs[..|probs| - 1]);
      if probs[|probs| - 1] > probs[k] then |probs| - 1 else k
  }

  /** Only one index is the first maximal entry. */
  lemma ArgmaxUnique(probs: seq<real>, k: nat)
    requires k < |probs|
    requires forall j :: 0 <= j < |probs| ==> probs[j] <= probs[k]
    requires forall j :: 0 <= j < k ==> probs[j] < probs[k]
    ensures Argmax(probs) == k
  {
  }

  /** `predict_severity(finding)`: the class is the first most probable one of
      the classifier's probabilities for the finding's features, and the
      confidence is that class's probability. */
  function PredictSeverity(predictProba: seq<real> -> seq<real>, f: Record): (r: (nat, real))
    requires |predictProba(Features(f))| > 0
    ensures var probs := predictProba(Features(f));
      && r.0 < |probs| && r.1 == probs[r.0]
      && (forall j :: 0 <= j < |probs| ==> probs[j] <= r.1)
      && (forall j :: 0 <= j < r.0 ==> probs[j] < r.1)
  {
    var probs := predictProba(Features(f));
    var cls := Argmax(probs);
    (cls, probs[cls])
  }

  /** `label_from_class`. */
  function LabelFromClass(cls: int): (name: string)
    ensures name == "desconhecido" <==> !(0 <= cls <= 2)
  {
    var mapping := map[0 := "baixo", 1 := "médio", 2 := "alto"];
    if cls in mapping then mapping[cls] else "desconhecido"
  }

  /** The three classes have the three labels, low to high, all different. */
  lemma ClassLabels()
    ensures LabelFromClass(0) == "baixo" && LabelFromClass(1) == "médio" && LabelFromClass(2) == "alto"
    ensures forall c, d :: 0 <= c <= 2 && 0 <= d <= 2 && c != d ==> LabelFromClass(c) != LabelFromClass(d)
  {
  }

  /** With a three-class classifier the predicted class always has a known
      label. */
  lemma PredictedLabelKnown(predictProba: seq<real> -> seq<real>, f: Record)
    requires |predictProba(Features(f))| == 3
    ensures LabelFromClass(PredictSeverity(predictProba, f).0) != "desconhecido"
  {
  }
}
