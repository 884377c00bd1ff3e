/**
  The decision rules of the upload handler: which file names are accepted, which
  detection of the card classifier is taken, what stands in for an OCR result that
  is not a record, and how the final verdict is reached. The classifier and the
  OCR engine are inputs here: a list of detections and the OCR output.
 */
module Decision {
  import opened Text
  import opened Patterns
  import opened Cleaning
  import opened Extraction

  // ---------------------------------------------------------------------------
  // The upload filter

  const AllowedExtensions: set<string> := {"png", "jpg", "jpeg"}

  /** `name.rsplit('.', 1)[1]` when `name` holds a dot: the text after the last dot.
      Without a dot, the whole name. */
  function AfterLastDot(name: string): (ext: string)
    ensures '.' !in ext
    ensures |ext| <= |name|
    decreases |name|
  {
    if name == [] || name[|name| - 1] == '.' then []
    else AfterLastDot(name[..|name| - 1]) + [name[|name| - 1]]
  }

  /** A file name is accepted when it holds a dot and the text after the last dot,
      lower-cased, is one of the allowed extensions. */
  predicate AllowedFile(filename: string) {
    '.' in filename && Lower(AfterLastDot(filename)) in AllowedExtensions
  }

  /** The extension is what follows the last dot: a name made of any stem, a dot and a
      dot-free extension gives back that extension. */
  lemma {:induction false} AfterLastDotOfSplit(stem: string, ext: string)
    requires '.' !in ext
    ensures AfterLastDot(stem + "." + ext) == ext
    decreases |ext|
  {
    var name := stem + "." + ext;
    if ext == [] {
      assert name[|name| - 1] == '.';
    } else {
      var last := ext[|ext| - 1];
      var init := ext[..|ext| - 1];
      assert '.' !in init by {
        assert forall c :: c in init ==> c in ext;
      }
      assert name[..|name| - 1] == stem + "." + init;
      AfterLastDotOfSplit(stem, init);
      assert ext == init + [last];
    }
  }

  /** A name with a dot is its part before the last dot, a dot and the extension. */
  lemma {:induction false} LastDotSplit(name: string)
    requires '.' in name
    ensures |AfterLastDot(name)| < |name|
    ensures name == name[..|name| - |AfterLastDot(name)| - 1] + "." + AfterLastDot(name)
    decreases |name|
  {
    var init := name[..|name| - 1];
    var last := name[|name| - 1];
    assert name == init + [last];
    if last != '.' {
      assert '.' in init;
      LastDotSplit(init);
      var e := AfterLastDot(init);
      assert AfterLastDot(name) == e + [last];
      assert init == init[..|init| - |e| - 1] + "." + e;
      assert name[..|name| - |e| - 2] == init[..|init| - |e| - 1];
    }
  }

  /** Every accepted name splits at its last dot into a stem and an allowed extension,
      and every such split name is accepted: the filter is exactly "ends in `.` and an
      allowed extension, in any letter case". */
  lemma AllowedFileIff(stem: string, ext: string)
    requires '.' !in ext
    ensures AllowedFile(stem + "." + ext) <==> Lower(ext) in AllowedExtensions
  {
    AfterLastDotOfSplit(stem, ext);
    var name := stem + "." + ext;
    assert name[|stem|] == '.';
  }

  /** A name without a dot is refused. */
  lemma NoDotRefused(name: string)
    requires '.' !in name
    ensures !AllowedFile(name)
  {
  }

  /** An accepted name ends in a dot and an allowed extension. */
  lemma AllowedFileHasExtension(name: string)
    requires AllowedFile(name)
    ensures var ext := AfterLastDot(name);
      && '.' !in ext
      && Lower(ext) in AllowedExtensions
      && |ext| < |name|
      && name == name[..|name| - |ext| - 1] + "." + ext
  {
    LastDotSplit(name);
  }

  /** The letter case of the extension does not matter, and only the last extension counts. */
  lemma AllowedFileExamples()
    ensures AllowedFile("x.PNG")
    ensures !AllowedFile("x.png.exe")
  {
    AllowedFileIff("x", "PNG");
    assert "x.PNG" == "x" + "." + "PNG";
    assert Lower("PNG") == "png";
    AllowedFileIff("x.png", "exe");
    assert "x.png.exe" == "x.png" + "." + "exe";
    assert Lower("exe") == "exe";
  }

  // ---------------------------------------------------------------------------
  // The classifier's detection

  /** One row of the classifier's detections: a class name and a confidence. */
  datatype Detection = Detection(name: string, confidence: real)

  /** `idxmax` over the confidence column: the first position of the largest confidence. */
  function IdxMax(ds: seq<Detection>): (r: nat)
    requires |ds| > 0
    ensures r < |ds|
    ensures forall j :: 0 <= j < |ds| ==> ds[j].confidence <= ds[r].confidence
    ensures forall j :: 0 <= j < r ==> ds[j].confidence < ds[r].confidence
    decreases |ds|
  {
    if |ds| == 1 then 0
    else
      var k := IdxMax(ds[..|ds| - 1]);
      if ds[|ds| - 1].confidence > ds[k].confidence then |ds| - 1 else k
  }

  /** The label and confidence that go on to the verdict. */
  datatype Prediction = Prediction(name: string, confidence: real)

  const NoDetection := Prediction("true", 0.0)

  /** Lines 60-66 of the handler: the defaults, replaced by the best detection when
      there is one. */
  function Predict(ds: seq<Detection>): (p: Prediction)
    ensures ds == [] ==> p == NoDetection
    ensures ds != [] ==> Detection(p.name, p.confidence) in ds
    ensures ds != [] ==> forall j :: 0 <= j < |ds| ==> ds[j].confidence <= p.confidence
  {
    if ds == [] then NoDetection
    else
      var best := ds[IdxMax(ds)];
      Prediction(best.name, best.confidence)
  }

  /** Among several detections of the largest confidence, the first one is taken. */
  lemma PredictTakesFirstMaximum(ds: seq<Detection>, k: nat)
    requires k < |ds|
    requires forall j :: 0 <= j < |ds| ==> ds[j].confidence <= ds[k].confidence
    requires forall j :: 0 <= j < k ==> ds[j].confidence < ds[k].confidence
    ensures Predict(ds) == Prediction(ds[k].name, ds[k].confidence)
  {
    var r := IdxMax(ds);
    assert !(r < k) && !(k < r);
  }

  // ---------------------------------------------------------------------------
  // The verdict

  datatype Verdict = Accepted | Verified

  function VerdictText(v: Verdict): (t: string)
    ensures t == "Accepted" || t == "Verified"
  {
    match v
    case Accepted => "Accepted"
    case Verified => "Verified"
  }

  /** Lines 84-86 of the handler. */
  function FinalVerdict(predicted: string, formatValid: bool): Verdict {
    if Lower(predicted) == "real" && formatValid then Verified else Accepted
  }

  /** What the OCR step hands back: a record, or anything else. */
  datatype OcrResult = Record(details: map<string, string>) | NotARecord

  /** Lines 72-78 of the handler: anything but a record becomes the all-"N/A" record. */
  function RecordOrUnknown(ocr: OcrResult): (details: map<string, string>)
    ensures ocr.NotARecord? ==> details == AllUnknown
    ensures ocr.Record? ==> details == ocr.details
  {
    if ocr.Record? then ocr.details else AllUnknown
  }

  /** What the handler stores and shows. */
  datatype Outcome = Outcome(verdict: Verdict, prediction: Prediction, details: map<string, string>)

  /** The handler's decision, from the detections and the OCR result. */
  function Decide(ds: seq<Detection>, ocr: OcrResult): (o: Outcome)
    ensures o.prediction == Predict(ds)
    ensures o.details == RecordOrUnknown(ocr)
    ensures o.verdict == Verified <==>
      Lower(Predict(ds).name) == "real" && ValidFormat(RecordOrUnknown(ocr))
  {
    var p := Predict(ds);
    var details := RecordOrUnknown(ocr);
    Outcome(FinalVerdict(p.name, ValidFormat(details)), p, details)
  }

  /** With no detection the label is "true", so the verdict is "Accepted" whatever
      the OCR found. */
  lemma NoDetectionAccepted(ocr: OcrResult)
    ensures Decide([], ocr).verdict == Accepted
    ensures Decide([], ocr).prediction == Prediction("true", 0.0)
  {
    assert Lower("true") == "true";
  }

  /** An OCR result that is not a record fails validation, so the verdict is "Accepted"
      whatever the classifier said. */
  lemma NotARecordAccepted(ds: seq<Detection>)
    ensures Decide(ds, NotARecord).details == AllUnknown
    ensures !ValidFormat(Decide(ds, NotARecord).details)
    ensures Decide(ds, NotARecord).verdict == Accepted
  {
    ValidFormatRejects();
  }

  /** The confidence never enters the verdict: two detection lists whose chosen labels
      agree give the same verdict, however their confidences differ. */
  lemma VerdictIgnoresConfidence(ds1: seq<Detection>, ds2: seq<Detection>, ocr: OcrResult)
    requires Predict(ds1).name == Predict(ds2).name
    ensures Decide(ds1, ocr).verdict == Decide(ds2, ocr).verdict
  {
  }

  // ---------------------------------------------------------------------------
  // The whole text side of a request

  /** The OCR text cleaned, the fields extracted, and the decision taken. */
  function Verify(ocrText: string, ds: seq<Detection>): Outcome {
    Decide(ds, Record(Extracted(Clean(ocrText))))
  }

  /** On a whole request, the card is "Verified" exactly when the classifier's chosen
      label is "real" in any letter case and the cleaned OCR text holds a twelve-digit
      number, in groups of four that may be separated by single spaces, between word
      boundaries. */
  lemma VerifyVerifiedIff(ocrText: string, ds: seq<Detection>)
    ensures var c := Clean(ocrText);
      Verify(ocrText, ds).verdict == Verified <==>
        Lower(Predict(ds).name) == "real" && exists i :: 0 <= i < |c| && AadhaarEnd(c, i).Some?
  {
    CleanedTextValidIff(ocrText);
  }

  /** On a whole request the name shown is always "N/A": cleaning leaves one line. */
  lemma VerifyNameUnknown(ocrText: string, ds: seq<Detection>)
    ensures Verify(ocrText, ds).details[NameKey] == Unknown
  {
    var details := Extracted(Clean(ocrText));
    assert Verify(ocrText, ds).details == details;
    NameUnknownAfterCleaning(ocrText);
  }
}
