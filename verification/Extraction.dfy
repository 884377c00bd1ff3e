/**
  Field extraction from the cleaned OCR text and the format check on the
  identity number (`project_utils/ocr_utils.py`, `extract_aadhaar_details`
  taken as a function of its text, and `validate_aadhaar_number_format`).

  The extracted record is the source's dictionary: a map from the four key
  names to strings, with "N/A" standing for a field that was not found.
 */
module Extraction {
  import opened Text
  import opened Search
  import opened Patterns
  import opened Cleaning

  const NameKey: string := "Name"
  const DobKey: string := "DOB"
  const GenderKey: string := "Gender"
  const AadhaarKey: string := "AadhaarNumber"

  /** The sentinel for a field that was not found. */
  const Unknown: string := "N/A"

  const FieldKeys: set<string> := {NameKey, DobKey, GenderKey, AadhaarKey}

  /** The record every extraction starts from. */
  const AllUnknown: map<string, string> :=
    map[NameKey := Unknown, DobKey := Unknown, GenderKey := Unknown, AadhaarKey := Unknown]

  /** Substrings that mark the date-of-birth or gender line. */
  const Indicators: seq<string> := ["dob", "birth", "male", "female"]

  /** Substrings that mark a printed header rather than a person's name. */
  const BoilerplateWords: seq<string> := ["india", "aadhaar", "uidai", "government"]

  predicate IsIndicatorLine(line: string) {
    ContainsAny(Lower(line), Indicators)
  }

  predicate IsBoilerplate(line: string) {
    ContainsAny(Lower(line), BoilerplateWords)
  }

  lemma {:induction false} ContainsNeedsRoom(s: string, w: string)
    requires Contains(s, w)
    ensures |w| <= |s|
    decreases |s|
  {
    if !(w <= s) {
      ContainsNeedsRoom(s[1..], w);
    }
  }

  // ---------------------------------------------------------------------------
  // Lines for the name heuristic

  /** Each piece stripped, and the pieces left empty dropped. */
  function StrippedNonEmpty(pieces: seq<string>): (lines: seq<string>)
    ensures |lines| <= |pieces|
    ensures forall k :: 0 <= k < |lines| ==> lines[k] != [] && IsTrimmed(lines[k])
    decreases |pieces|
  {
    if pieces == [] then []
    else
      var line := Strip(pieces[0]);
      (if line != [] then [line] else []) + StrippedNonEmpty(pieces[1..])
  }

  /** A single piece gives its stripped text, or nothing when that is empty. */
  lemma StrippedNonEmptyOne(p: string)
    ensures StrippedNonEmpty([p]) == if Strip(p) == [] then [] else [Strip(p)]
  {
    assert [p][1..] == [];
  }

  /** The pieces are treated one by one, in order: stripping and dropping distributes
      over concatenation, so with `StrippedNonEmptyOne` it fixes the lines of every
      list of pieces. */
  lemma {:induction false} StrippedNonEmptyAppend(a: seq<string>, b: seq<string>)
    ensures StrippedNonEmpty(a + b) == StrippedNonEmpty(a) + StrippedNonEmpty(b)
    decreases |a|
  {
    if a == [] {
      assert a + b == b;
    } else {
      assert (a + b)[0] == a[0];
      assert (a + b)[1..] == a[1..] + b;
      StrippedNonEmptyAppend(a[1..], b);
      var head := if Strip(a[0]) != [] then [Strip(a[0])] else [];
      assert StrippedNonEmpty(a + b) == head + StrippedNonEmpty(a[1..] + b);
      assert StrippedNonEmpty(a) == head + StrippedNonEmpty(a[1..]);
      assert head + (StrippedNonEmpty(a[1..]) + StrippedNonEmpty(b))
          == (head + StrippedNonEmpty(a[1..])) + StrippedNonEmpty(b);
    }
  }

  /** `[line.strip() for line in raw.split("\n") if line.strip()]` */
  function NonEmptyLines(raw: string): seq<string> {
    StrippedNonEmpty(SplitLines(raw))
  }

  /** The index of the first indicator line. */
  function FirstIndicator(lines: seq<string>): (r: Option<nat>)
    ensures r.Some? ==> r.value < |lines| && IsIndicatorLine(lines[r.value])
    ensures r.Some? ==> forall j :: 0 <= j < r.value ==> !IsIndicatorLine(lines[j])
    ensures r.None? ==> forall j :: 0 <= j < |lines| ==> !IsIndicatorLine(lines[j])
  {
    var p := (k: nat) => k < |lines| && IsIndicatorLine(lines[k]);
    assert forall j: nat :: j < |lines| ==> p(j) == IsIndicatorLine(lines[j]);
    Leftmost(p, 0, |lines|)
  }

  // ---------------------------------------------------------------------------
  // What each search finds, and the four fields

  /** A found value, or "N/A" when the search found nothing. */
  function OrUnknown(found: Option<string>): string {
    if found.Some? then found.value else Unknown
  }

  /** `details[key] = value` when the search found `value`; otherwise `details` unchanged. */
  function Overwrite(details: map<string, string>, key: string, found: Option<string>): map<string, string> {
    if found.Some? then details[key := found.value] else details
  }

  /** The leftmost identity-number match with its spaces removed. */
  function AadhaarMatch(raw: string): Option<string> {
    match FirstAadhaar(raw)
    case None => None
    case Some(i) => Some(RemoveSpaces(raw[i..AadhaarEnd(raw, i).value]))
  }

  /** The date of the leftmost labelled match; failing that, the leftmost bare date. */
  function DobMatch(raw: string): Option<string> {
    match FirstLabelledDate(raw)
    case Some(i) =>
      var d := LabelledDate(raw, i).value;
      Some(raw[d..d + 10])
    case None =>
      match FirstBareDate(raw)
      case Some(i) => Some(raw[i..i + 10])
      case None => None
  }

  /** `"Male" if g in ["M", "MALE"] else "Female"` */
  function CanonicalGender(g: string): (r: string)
    ensures r == "Male" || r == "Female"
  {
    if g == "M" || g == "MALE" then "Male" else "Female"
  }

  /** The leftmost gender word, upper-cased and canonicalised. */
  function GenderMatch(raw: string): Option<string> {
    match FirstGender(raw)
    case None => None
    case Some(i) => Some(CanonicalGender(Upper(raw[i..i + GenderLength(raw, i).value])))
  }

  /** The line just before the first indicator line, unless there is none or it is boilerplate. */
  function NameCandidate(lines: seq<string>): Option<string> {
    match FirstIndicator(lines)
    case None => None
    case Some(k) =>
      if k > 0 && !IsBoilerplate(Strip(lines[k - 1])) then Some(Strip(lines[k - 1])) else None
  }

  function AadhaarField(raw: string): string {
    OrUnknown(AadhaarMatch(raw))
  }

  function DobField(raw: string): string {
    OrUnknown(DobMatch(raw))
  }

  function GenderField(raw: string): (r: string)
    ensures r == "Male" || r == "Female" || r == Unknown
  {
    OrUnknown(GenderMatch(raw))
  }

  function NameFromLines(lines: seq<string>): string {
    OrUnknown(NameCandidate(lines))
  }

  function NameField(raw: string): string {
    NameFromLines(NonEmptyLines(raw))
  }

  /** The record extraction produces from the text `raw`. */
  function Extracted(raw: string): (details: map<string, string>)
    ensures details.Keys == FieldKeys
  {
    map[NameKey := NameField(raw), DobKey := DobField(raw),
        GenderKey := GenderField(raw), AadhaarKey := AadhaarField(raw)]
  }

  // ---------------------------------------------------------------------------
  // The extraction, step by step

  /** Lines 61-96 of `extract_aadhaar_details`, after the OCR call: start from the
      all-"N/A" record and overwrite one field at a time. */
  method ExtractDetails(rawText: string) returns (details: map<string, string>)
    ensures details.Keys == FieldKeys
    ensures details == Extracted(rawText)
  {
    details := AllUnknown;
    if rawText == [] {
      EmptyTextAllUnknown();
      return;
    }
    details := SetAadhaarNumber(rawText, details);
    details := SetDob(rawText, details);
    details := SetGender(rawText, details);
    details := SetName(rawText, details);
    ExtractedIsOverwrites(rawText);
  }

  /** Lines 67-69: the identity number, when the pattern matches. */
  method SetAadhaarNumber(rawText: string, details: map<string, string>) returns (updated: map<string, string>)
    ensures updated == Overwrite(details, AadhaarKey, AadhaarMatch(rawText))
  {
    updated := details;
    var aadhaarStart := FirstAadhaar(rawText);
    if aadhaarStart.Some? {
      var i := aadhaarStart.value;
      updated := updated[AadhaarKey := RemoveSpaces(rawText[i..AadhaarEnd(rawText, i).value])];
    }
  }

  /** Lines 72-78: the labelled date, else the bare date, when either matches. */
  method SetDob(rawText: string, details: map<string, string>) returns (updated: map<string, string>)
    ensures updated == Overwrite(details, DobKey, DobMatch(rawText))
  {
    updated := details;
    var dobStart := FirstLabelledDate(rawText);
    if dobStart.Some? {
      var d := LabelledDate(rawText, dobStart.value).value;
      updated := updated[DobKey := rawText[d..d + 10]];
    } else {
      var fallback := FirstBareDate(rawText);
      if fallback.Some? {
        var i := fallback.value;
        updated := updated[DobKey := rawText[i..i + 10]];
      }
    }
  }

  /** Lines 81-84: the canonical gender, when a gender word matches. */
  method SetGender(rawText: string, details: map<string, string>) returns (updated: map<string, string>)
    ensures updated == Overwrite(details, GenderKey, GenderMatch(rawText))
  {
    updated := details;
    var genderStart := FirstGender(rawText);
    if genderStart.Some? {
      var i := genderStart.value;
      var g := Upper(rawText[i..i + GenderLength(rawText, i).value]);
      updated := updated[GenderKey := if g == "M" || g == "MALE" then "Male" else "Female"];
    }
  }

  /** Lines 87-94: scan the non-empty lines for the first indicator line and take the
      line before it as the name, unless it is boilerplate. */
  method SetName(rawText: string, details: map<string, string>) returns (updated: map<string, string>)
    ensures updated == Overwrite(details, NameKey, NameCandidate(NonEmptyLines(rawText)))
  {
    updated := details;
    var lines := NonEmptyLines(rawText);
    var i := 0;
    while i < |lines|
      invariant i <= |lines|
      invariant forall j :: 0 <= j < i ==> !IsIndicatorLine(lines[j])
      invariant updated == details
    {
      if IsIndicatorLine(lines[i]) {
        if i > 0 {
          var candidate := Strip(lines[i - 1]);
          if !IsBoilerplate(candidate) {
            updated := updated[NameKey := candidate];
          }
        }
        NameAtFirstIndicator(lines, i);
        break;
      }
      i := i + 1;
    }
    if i == |lines| {
      NameWithoutIndicator(lines);
    }
  }

  /** The four overwrites, applied to the all-"N/A" record, give the extracted record. */
  lemma ExtractedIsOverwrites(raw: string)
    ensures Overwrite(Overwrite(Overwrite(Overwrite(AllUnknown, AadhaarKey, AadhaarMatch(raw)),
      DobKey, DobMatch(raw)), GenderKey, GenderMatch(raw)), NameKey, NameCandidate(NonEmptyLines(raw)))
      == Extracted(raw)
  {
    OverwritesOfAllUnknown(AadhaarMatch(raw), DobMatch(raw), GenderMatch(raw), NameCandidate(NonEmptyLines(raw)));
  }

  lemma OverwritesOfAllUnknown(number: Option<string>, dob: Option<string>, gender: Option<string>, name: Option<string>)
    ensures Overwrite(Overwrite(Overwrite(Overwrite(AllUnknown, AadhaarKey, number), DobKey, dob), GenderKey, gender), NameKey, name)
      == map[NameKey := OrUnknown(name), DobKey := OrUnknown(dob),
             GenderKey := OrUnknown(gender), AadhaarKey := OrUnknown(number)]
  {
  }

  // ---------------------------------------------------------------------------
  // The empty text

  /** An empty text yields "N/A" in all four fields. */
  lemma EmptyTextAllUnknown()
    ensures Extracted([]) == AllUnknown
  {
    FieldsOfEmptyText();
    OverwritesOfAllUnknown(None, None, None, None);
  }

  lemma FieldsOfEmptyText()
    ensures NameField([]) == DobField([]) == GenderField([]) == AadhaarField([]) == Unknown
  {
    assert NonEmptyLines([]) == [];
  }

  // ---------------------------------------------------------------------------
  // The identity number

  /** The number is "N/A" exactly when the pattern matches nowhere in the text. */
  lemma AadhaarFieldUnknownIff(raw: string)
    ensures AadhaarField(raw) == Unknown <==> forall i :: 0 <= i < |raw| ==> AadhaarEnd(raw, i).None?
  {
    match FirstAadhaar(raw)
    case None =>
    case Some(i) =>
      var g := raw[i..AadhaarEnd(raw, i).value];
      assert g[0] == raw[i] && IsDigit(g[0]);
      assert RemoveSpaces(g)[0] != Unknown[0];
  }

  /** When the pattern matches at `i` and nowhere before, the number is that match with
      its spaces removed. */
  lemma AadhaarFieldIsLeftmost(raw: string, i: nat)
    requires AadhaarEnd(raw, i).Some?
    requires forall j :: 0 <= j < i ==> AadhaarEnd(raw, j).None?
    ensures AadhaarField(raw) == RemoveSpaces(raw[i..AadhaarEnd(raw, i).value])
  {
    var r := FirstAadhaar(raw);
    assert r.Some? && r.value == i;
  }

  /** Removing spaces from three space-free groups joined by empty or single-space
      separators joins the groups. */
  lemma RemoveSpacesOfGroups(b1: string, sep1: string, b2: string, sep2: string, b3: string)
    requires ' ' !in b1 && ' ' !in b2 && ' ' !in b3
    requires sep1 == [] || sep1 == [' ']
    requires sep2 == [] || sep2 == [' ']
    ensures RemoveSpaces(b1 + sep1 + b2 + sep2 + b3) == b1 + b2 + b3
  {
    assert RemoveSpaces(sep1) == [] && RemoveSpaces(sep2) == [];
    RemoveSpacesKeepsSpaceless(b1);
    RemoveSpacesKeepsSpaceless(b2);
    RemoveSpacesKeepsSpaceless(b3);
    RemoveSpacesAppend(b1 + sep1 + b2 + sep2, b3);
    RemoveSpacesAppend(b1 + sep1 + b2, sep2);
    RemoveSpacesAppend(b1 + sep1, b2);
    RemoveSpacesAppend(b1, sep1);
    assert RemoveSpaces(b1 + sep1) == b1;
    assert RemoveSpaces(b1 + sep1 + b2) == b1 + b2;
    assert RemoveSpaces(b1 + sep1 + b2 + sep2) == b1 + b2;
  }

  predicate IsFourDigits(b: string) {
    |b| == 4 && forall k :: 0 <= k < 4 ==> IsDigit(b[k])
  }

  /** Three groups of four digits, joined directly or by one space, lose their spaces
      and leave twelve digits. */
  lemma TwelveDigitsOfGroups(b1: string, sep1: string, b2: string, sep2: string, b3: string)
    requires IsFourDigits(b1) && IsFourDigits(b2) && IsFourDigits(b3)
    requires sep1 == [] || sep1 == [' ']
    requires sep2 == [] || sep2 == [' ']
    ensures IsTwelveDigits(RemoveSpaces(b1 + sep1 + b2 + sep2 + b3))
  {
    assert ' ' !in b1 && ' ' !in b2 && ' ' !in b3 by {
      assert forall k :: 0 <= k < 4 ==> b1[k] != ' ' && b2[k] != ' ' && b3[k] != ' ';
    }
    RemoveSpacesOfGroups(b1, sep1, b2, sep2, b3);
    var t := b1 + b2 + b3;
    forall n | 0 <= n < 12
      ensures IsDigit(t[n])
    {
      if n < 4 { assert t[n] == b1[n]; } else if n < 8 { assert t[n] == b2[n - 4]; } else { assert t[n] == b3[n - 8]; }
    }
  }

  lemma DigitsAtIsFourDigits(s: string, p: nat)
    requires DigitsAt(s, p, 4)
    ensures IsFourDigits(s[p..p + 4])
  {
    var b := s[p..p + 4];
    forall n | 0 <= n < 4
      ensures IsDigit(b[n])
    {
      assert b[n] == s[p + n];
    }
  }

  lemma OptionalSpaceSlice(s: string, p: nat, w: nat)
    requires w <= 1 && p + w <= |s|
    requires w == 1 ==> s[p] == ' '
    ensures s[p..p + w] == [] || s[p..p + w] == [' ']
  {
    if w == 1 { assert s[p..p + w] == [s[p]]; }
  }

  /** With the optional separators taken as spaces, removing spaces leaves the three
      four-digit groups. */
  lemma RemoveSpacesOfNumber(s: string, i: nat, w1: nat, w2: nat)
    requires AadhaarShape(s, i, w1, w2)
    requires w1 == 1 ==> s[i + 4] == ' '
    requires w2 == 1 ==> s[i + 8 + w1] == ' '
    ensures IsTwelveDigits(RemoveSpaces(s[i..i + 12 + w1 + w2]))
  {
    var j := i + 4 + w1;
    var k := j + 4 + w2;
    SliceConcat(s, i, i + 4, j);
    SliceConcat(s, i, j, j + 4);
    SliceConcat(s, i, j + 4, k);
    SliceConcat(s, i, k, k + 4);
    DigitsAtIsFourDigits(s, i);
    DigitsAtIsFourDigits(s, j);
    DigitsAtIsFourDigits(s, k);
    OptionalSpaceSlice(s, i + 4, w1);
    OptionalSpaceSlice(s, j + 4, w2);
    TwelveDigitsOfGroups(s[i..i + 4], s[i + 4..j], s[j..j + 4], s[j + 4..k], s[k..k + 4]);
  }

  predicate IsTwelveDigits(t: string) {
    |t| == 12 && forall k :: 0 <= k < 12 ==> IsDigit(t[k])
  }

  /** When the only whitespace in the text is the space character, a found number is
      exactly twelve digits. */
  /** A number match in text whose only whitespace is the space loses its separators and
      leaves twelve digits. */
  lemma NumberMatchTwelveDigits(s: string, i: nat)
    requires forall k :: 0 <= k < |s| ==> s[k] == ' ' || !IsSpace(s[k])
    requires AadhaarEnd(s, i).Some?
    ensures IsTwelveDigits(RemoveSpaces(s[i..AadhaarEnd(s, i).value]))
  {
    var e := AadhaarEnd(s, i).value;
    AadhaarEndIsPattern(s, i, 0, 0);
    var j := OptionalSpace(s, i + 4);
    var k := OptionalSpace(s, j + 4);
    assert e == k + 4;
    assert j == i + 5 ==> s[i + 4] == ' ';
    assert k == j + 5 ==> s[j + 4] == ' ';
    RemoveSpacesOfNumber(s, i, j - (i + 4), k - (j + 4));
  }

  lemma AadhaarFieldTwelveDigits(raw: string)
    requires forall k :: 0 <= k < |raw| ==> raw[k] == ' ' || !IsSpace(raw[k])
    requires AadhaarField(raw) != Unknown
    ensures IsTwelveDigits(AadhaarField(raw))
  {
    var i := FirstAadhaar(raw).value;
    assert AadhaarField(raw) == RemoveSpaces(raw[i..AadhaarEnd(raw, i).value]);
    NumberMatchTwelveDigits(raw, i);
  }

  // ---------------------------------------------------------------------------
  // The date of birth

  /** The labelled date wins whenever one exists, wherever bare dates stand. */
  lemma DobFieldPrefersLabel(raw: string, i: nat)
    requires LabelledDate(raw, i).Some?
    requires forall j :: 0 <= j < i ==> LabelledDate(raw, j).None?
    ensures
      var d := LabelledDate(raw, i).value;
      DobField(raw) == raw[d..d + 10]
  {
    var r := FirstLabelledDate(raw);
    assert r.Some? && r.value == i;
  }

  /** The same, stated on the pattern alone: the first position where `DOB` or `Date of
      Birth`, with colons and spaces after each word, is followed by a date gives that date,
      wherever bare dates stand. */
  lemma DobFieldOfFirstLabel(raw: string, i: nat, d: nat)
    requires LabelledShape(raw, i, d)
    requires forall j: nat, e: nat :: j < i ==> !LabelledShape(raw, j, e)
    ensures DobField(raw) == raw[d..d + 10]
  {
    LabelledDateIsPattern(raw, i, d);
    forall j | 0 <= j < i
      ensures LabelledDate(raw, j).None?
    {
      if LabelledDate(raw, j).Some? {
        LabelledDateIsPattern(raw, j, LabelledDate(raw, j).value);
      }
    }
    DobFieldPrefersLabel(raw, i);
  }

  /** Without a labelled date, the leftmost bare date is taken. */
  lemma DobFieldFallsBack(raw: string, i: nat)
    requires forall j :: 0 <= j < |raw| ==> LabelledDate(raw, j).None?
    requires BareDateAt(raw, i)
    requires forall j :: 0 <= j < i ==> !BareDateAt(raw, j)
    ensures DobField(raw) == raw[i..i + 10]
  {
    var r := FirstBareDate(raw);
    assert r.Some? && r.value == i;
  }

  /** The date is "N/A" or has the shape `dd?mm?yyyy` with `/` or `-` for each `?`;
      it is "N/A" exactly when neither pattern matches anywhere. */
  lemma DobFieldShape(raw: string)
    ensures DobField(raw) == Unknown || IsDateShape(DobField(raw))
    ensures DobField(raw) == Unknown <==>
      (forall j :: 0 <= j < |raw| ==> LabelledDate(raw, j).None? && !BareDateAt(raw, j))
  {
    match FirstLabelledDate(raw)
    case Some(i) =>
      var d := LabelledDate(raw, i).value;
      DateAtGivesShape(raw, d);
      assert |DobField(raw)| == 10;
    case None =>
      match FirstBareDate(raw)
      case Some(i) =>
        DateAtGivesShape(raw, i);
        assert |DobField(raw)| == 10;
      case None =>
  }

  // ---------------------------------------------------------------------------
  // Gender

  lemma UpperOfLower(t: string)
    ensures Upper(Lower(t)) == Upper(t)
  {
  }

  /** The gender comes from the leftmost whole-word match: `m` or `male` in any case gives
      "Male", `f` or `female` gives "Female". */
  lemma GenderFieldFromFirstMatch(raw: string, i: nat)
    requires GenderLength(raw, i).Some?
    requires forall j :: 0 <= j < i ==> GenderLength(raw, j).None?
    ensures
      var g := Lower(raw[i..i + GenderLength(raw, i).value]);
      GenderField(raw) == if g == "m" || g == "male" then "Male" else "Female"
  {
    var r := FirstGender(raw);
    assert r.Some? && r.value == i;
    var t := raw[i..i + GenderLength(raw, i).value];
    UpperOfLower(t);
    var g := Lower(t);
    assert Upper("m") == "M" && Upper("male") == "MALE";
    assert Upper("f") == "F" && Upper("female") == "FEMALE";
  }

  /** The same, stated on the pattern alone: the first whole-word male, female, m or f
      in any case decides the gender. */
  lemma GenderFieldOfFirstWord(raw: string, i: nat, w: string)
    requires GenderShape(raw, i, w)
    requires forall j: nat, v :: j < i ==> !GenderShape(raw, j, v)
    ensures GenderField(raw) == if w == "m" || w == "male" then "Male" else "Female"
  {
    GenderLengthFindsShape(raw, i, w);
    forall j | 0 <= j < i
      ensures GenderLength(raw, j).None?
    {
      if GenderLength(raw, j).Some? {
        GenderLengthHasShape(raw, j);
      }
    }
    GenderFieldFromFirstMatch(raw, i);
  }

  /** The gender is "N/A" exactly when no gender word stands as a whole word anywhere. */
  lemma GenderFieldUnknownIffNoWord(raw: string)
    ensures GenderField(raw) == Unknown <==> forall j: nat, v :: j < |raw| ==> !GenderShape(raw, j, v)
  {
    GenderFieldUnknownIff(raw);
    forall j: nat, v | j < |raw| && GenderShape(raw, j, v)
      ensures GenderLength(raw, j).Some?
    {
      GenderLengthFindsShape(raw, j, v);
    }
    forall j | 0 <= j < |raw| && GenderLength(raw, j).Some?
      ensures GenderShape(raw, j, Lower(raw[j..j + GenderLength(raw, j).value]))
    {
      GenderLengthHasShape(raw, j);
    }
  }

  /** The gender is "N/A" exactly when no whole-word match exists. */
  lemma GenderFieldUnknownIff(raw: string)
    ensures GenderField(raw) == Unknown <==> forall j :: 0 <= j < |raw| ==> GenderLength(raw, j).None?
  {
    match FirstGender(raw)
    case None =>
    case Some(i) =>
      var g := Upper(raw[i..i + GenderLength(raw, i).value]);
      assert CanonicalGender(g) != Unknown;
  }

  // ---------------------------------------------------------------------------
  // The name

  /** With the first indicator line at `k`, the name is the line before it unless `k` is
      the first line or that line is boilerplate. */
  lemma NameAtFirstIndicator(lines: seq<string>, k: nat)
    requires k < |lines| && IsIndicatorLine(lines[k])
    requires forall j :: 0 <= j < k ==> !IsIndicatorLine(lines[j])
    ensures NameCandidate(lines) ==
      if k > 0 && !IsBoilerplate(Strip(lines[k - 1])) then Some(Strip(lines[k - 1])) else None
    ensures NameFromLines(lines) ==
      if k > 0 && !IsBoilerplate(Strip(lines[k - 1])) then Strip(lines[k - 1]) else Unknown
  {
    var r := FirstIndicator(lines);
    assert r.Some? && r.value == k;
  }

  /** Without an indicator line the name stays "N/A". */
  lemma NameWithoutIndicator(lines: seq<string>)
    requires forall j :: 0 <= j < |lines| ==> !IsIndicatorLine(lines[j])
    ensures NameCandidate(lines) == None
    ensures NameFromLines(lines) == Unknown
  {
    assert FirstIndicator(lines).None?;
  }

  lemma UnknownIsNoKeyword()
    ensures !IsBoilerplate(Unknown) && !IsIndicatorLine(Unknown)
  {
    var u := Lower(Unknown);
    assert u == "n/a";
    forall w | w in BoilerplateWords + Indicators
      ensures !Contains(u, w)
    {
      if Contains(u, w) {
        ContainsNeedsRoom(u, w);
        assert w == "dob";
        assert !(w <= u) by { assert u[0] != w[0]; }
        ContainsNeedsRoom(u[1..], w);
      }
    }
  }

  /** The name is never a boilerplate line and never a date-of-birth or gender line. */
  lemma NameIsNeitherBoilerplateNorIndicator(raw: string)
    ensures !IsBoilerplate(NameField(raw))
    ensures !IsIndicatorLine(NameField(raw))
  {
    UnknownIsNoKeyword();
    var lines := NonEmptyLines(raw);
    match FirstIndicator(lines)
    case None =>
    case Some(k) =>
      if k > 0 {
        StripKeepsTrimmed(lines[k - 1]);
        assert !IsIndicatorLine(lines[k - 1]);
      }
  }

  /** On cleaned text, which is one line, the name is always "N/A". */
  lemma NameUnknownAfterCleaning(ocr: string)
    ensures NameField(Clean(ocr)) == Unknown
  {
    var c := Clean(ocr);
    CleanHasNoLineFeed(ocr);
    assert SplitLines(c) == [c];
    var lines := NonEmptyLines(c);
    assert |lines| <= 1;
  }

  // ---------------------------------------------------------------------------
  // Format validation

  /** `validate_aadhaar_number_format`: the number (missing key read as ""), with its
      spaces removed, is exactly twelve digits. */
  function ValidFormat(details: map<string, string>): (valid: bool)
    ensures valid ==> AadhaarKey in details && details[AadhaarKey] != Unknown
    ensures valid ==> forall c :: c in details[AadhaarKey] ==> IsDigit(c) || c == ' '
    ensures valid ==> |RemoveSpaces(details[AadhaarKey])| == 12
  {
    var number := if AadhaarKey in details then details[AadhaarKey] else "";
    var t := RemoveSpaces(number);
    assert number == Unknown ==> 'N' in t;
    IsTwelveDigits(t)
  }

  /** Validation read declaratively: the number is present, made of digits and spaces,
      and holds exactly twelve characters once its spaces are removed. */
  lemma ValidFormatIff(details: map<string, string>)
    ensures ValidFormat(details) <==>
      && AadhaarKey in details
      && (forall c :: c in details[AadhaarKey] ==> IsDigit(c) || c == ' ')
      && |RemoveSpaces(details[AadhaarKey])| == 12
  {
    if AadhaarKey in details {
      var t := RemoveSpaces(details[AadhaarKey]);
      assert forall k :: 0 <= k < |t| ==> t[k] in t;
    }
  }

  /** Three groups of four digits pass, each pair of groups joined directly or by one space. */
  lemma ValidFormatAcceptsGroups(b1: string, sep1: string, b2: string, sep2: string, b3: string)
    requires IsFourDigits(b1) && IsFourDigits(b2) && IsFourDigits(b3)
    requires sep1 == [] || sep1 == [' ']
    requires sep2 == [] || sep2 == [' ']
    ensures ValidFormat(map[AadhaarKey := b1 + sep1 + b2 + sep2 + b3])
  {
    TwelveDigitsOfGroups(b1, sep1, b2, sep2, b3);
    ValidFormatOfNumber(map[AadhaarKey := b1 + sep1 + b2 + sep2 + b3], b1 + sep1 + b2 + sep2 + b3);
  }

  /** Eleven or thirteen digits, a missing number and "N/A" fail. */
  lemma ValidFormatRejects()
    ensures !ValidFormat(map[AadhaarKey := "23456789012"])
    ensures !ValidFormat(map[AadhaarKey := "2345678901234"])
    ensures !ValidFormat(map[])
    ensures !ValidFormat(AllUnknown)
  {
    RemoveSpacesKeepsSpaceless("23456789012");
    RemoveSpacesKeepsSpaceless("2345678901234");
  }

  /** On text whose only whitespace is the space character, the extracted record passes
      validation exactly when the identity-number pattern matched. */
  lemma ExtractedValidIff(raw: string)
    requires forall k :: 0 <= k < |raw| ==> raw[k] == ' ' || !IsSpace(raw[k])
    ensures ValidFormat(Extracted(raw)) <==> AadhaarField(raw) != Unknown
  {
    var details := Extracted(raw);
    var number := AadhaarField(raw);
    assert AadhaarKey in details && details[AadhaarKey] == number;
    if number != Unknown {
      AadhaarFieldTwelveDigits(raw);
      assert ' ' !in number by {
        assert forall k :: 0 <= k < |number| ==> number[k] != ' ';
      }
      RemoveSpacesKeepsSpaceless(number);
      ValidFormatOfNumber(details, number);
    }
  }

  lemma ValidFormatOfNumber(details: map<string, string>, number: string)
    requires AadhaarKey in details && details[AadhaarKey] == number
    requires IsTwelveDigits(RemoveSpaces(number))
    ensures ValidFormat(details)
  {
  }

  /** Through the whole text pipeline: the record extracted from cleaned OCR output is
      valid exactly when the cleaned text holds a match of the identity-number pattern. */
  lemma CleanedTextValidIff(ocr: string)
    ensures
      var c := Clean(ocr);
      ValidFormat(Extracted(c)) <==> exists i :: 0 <= i < |c| && AadhaarEnd(c, i).Some?
  {
    var c := Clean(ocr);
    CleanIsClean(ocr);
    assert forall k :: 0 <= k < |c| ==> c[k] == ' ' || !IsSpace(c[k]) by {
      forall k | 0 <= k < |c| ensures c[k] == ' ' || !IsSpace(c[k]) {
        assert IsCleanChar(c[k]);
      }
    }
    ExtractedValidIff(c);
    AadhaarFieldUnknownIff(c);
  }
}
