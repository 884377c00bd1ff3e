/**
  The four regular expressions of the field extractor, each written as a
  matcher at one position plus a leftmost search over positions, the way
  `re.search` runs them. Each quantifier in these patterns is followed by a
  character it cannot consume itself, so at most one way of matching can
  succeed at a position and backtracking never changes the outcome.
 */
module Patterns {
  import opened Text
  import opened Search

  /** `\b`: a word character on exactly one side of position `i`. */
  predicate WordBoundary(s: string, i: nat) {
    i <= |s| && ((0 < i && IsWordChar(s[i - 1])) != (i < |s| && IsWordChar(s[i])))
  }

  /** `\d{n}` at position `i`. */
  predicate DigitsAt(s: string, i: nat, n: nat) {
    i + n <= |s| && forall k :: i <= k < i + n ==> IsDigit(s[k])
  }

  /** `\s?` at position `i`, greedy: the position after it. */
  function OptionalSpace(s: string, i: nat): nat {
    if i < |s| && IsSpace(s[i]) then i + 1 else i
  }

  // ---------------------------------------------------------------------------
  // The identity number: \b\d{4}\s?\d{4}\s?\d{4}\b

  /** `\b\d{4}\s?\d{4}\s?\d{4}\b` tried at position `i`: where the match ends. */
  function AadhaarEnd(s: string, i: nat): (r: Option<nat>)
    ensures r.Some? ==> i + 12 <= r.value <= i + 14 && r.value <= |s|
  {
    if !(WordBoundary(s, i) && DigitsAt(s, i, 4)) then None
    else
      var j := OptionalSpace(s, i + 4);
      if !DigitsAt(s, j, 4) then None
      else
        var k := OptionalSpace(s, j + 4);
        if DigitsAt(s, k, 4) && WordBoundary(s, k + 4) then Some(k + 4) else None
  }

  /** The same pattern read declaratively: `w1` and `w2` say how many characters
      (none or one whitespace character) each `\s?` takes. */
  predicate AadhaarShape(s: string, i: nat, w1: nat, w2: nat) {
    && w1 <= 1 && w2 <= 1
    && WordBoundary(s, i)
    && DigitsAt(s, i, 4)
    && DigitsAt(s, i + 4 + w1, 4)
    && DigitsAt(s, i + 8 + w1 + w2, 4)
    && WordBoundary(s, i + 12 + w1 + w2)
    && (w1 == 1 ==> IsSpace(s[i + 4]))
    && (w2 == 1 ==> IsSpace(s[i + 8 + w1]))
  }

  /** The matcher finds a match at `i` exactly when the pattern can match there,
      and the end it reports is the only possible end. */
  lemma AadhaarEndIsPattern(s: string, i: nat, w1: nat, w2: nat)
    ensures AadhaarShape(s, i, w1, w2) ==> AadhaarEnd(s, i) == Some(i + 12 + w1 + w2)
    ensures AadhaarEnd(s, i).Some? ==>
      var j := OptionalSpace(s, i + 4);
      var k := OptionalSpace(s, j + 4);
      AadhaarShape(s, i, j - (i + 4), k - (j + 4))
  {
    if AadhaarShape(s, i, w1, w2) {
      assert IsDigit(s[i + 4 + w1]) && IsDigit(s[i + 8 + w1 + w2]);
      assert OptionalSpace(s, i + 4) == i + 4 + w1;
      assert OptionalSpace(s, i + 8 + w1) == i + 8 + w1 + w2;
    }
  }

  /** Leftmost start of the identity-number pattern. */
  function FirstAadhaar(s: string): (r: Option<nat>)
    ensures r.Some? ==> r.value < |s| && AadhaarEnd(s, r.value).Some?
    ensures r.Some? ==> forall j :: 0 <= j < r.value ==> AadhaarEnd(s, j).None?
    ensures r.None? ==> forall j :: 0 <= j < |s| ==> AadhaarEnd(s, j).None?
  {
    var p := (i: nat) => AadhaarEnd(s, i).Some?;
    assert forall j: nat :: p(j) == AadhaarEnd(s, j).Some?;
    Leftmost(p, 0, |s|)
  }

  // ---------------------------------------------------------------------------
  // Dates: \d{2}[/-]\d{2}[/-]\d{4}

  predicate IsDateSeparator(c: char) {
    c == '/' || c == '-'
  }

  /** `\d{2}[/-]\d{2}[/-]\d{4}` at position `i` (ten characters). */
  predicate DateAt(s: string, i: nat) {
    && DigitsAt(s, i, 2)
    && DigitsAt(s, i + 3, 2)
    && DigitsAt(s, i + 6, 4)
    && IsDateSeparator(s[i + 2])
    && IsDateSeparator(s[i + 5])
  }

  /** A whole text of the form `dd/mm/yyyy`, with `/` or `-` in either place. */
  predicate IsDateShape(t: string) {
    |t| == 10 && DateAt(t, 0)
  }

  lemma DateAtGivesShape(s: string, i: nat)
    requires DateAt(s, i)
    ensures IsDateShape(s[i..i + 10])
  {
    var t := s[i..i + 10];
    assert forall k :: 0 <= k < 10 ==> t[k] == s[i + k];
  }

  /** A case-insensitive literal `w` (given in lower case) at position `i`. */
  predicate LiteralAt(s: string, i: nat, w: string) {
    i + |w| <= |s| && Lower(s[i..i + |w|]) == w
  }

  /** `[: ]*` from position `i`, greedy: the first position after the run. */
  function SkipColonsAndSpaces(s: string, i: nat): (j: nat)
    requires i <= |s|
    ensures i <= j <= |s|
    decreases |s| - i
  {
    if i < |s| && (s[i] == ':' || s[i] == ' ') then SkipColonsAndSpaces(s, i + 1) else i
  }

  /** The run skipped is all colons and spaces, and it cannot be extended. */
  lemma {:induction false} SkipColonsAndSpacesIsMaximal(s: string, i: nat)
    requires i <= |s|
    ensures var j := SkipColonsAndSpaces(s, i);
      && (forall k :: i <= k < j ==> s[k] == ':' || s[k] == ' ')
      && (j == |s| || (s[j] != ':' && s[j] != ' '))
    decreases |s| - i
  {
    if i < |s| && (s[i] == ':' || s[i] == ' ') {
      SkipColonsAndSpacesIsMaximal(s, i + 1);
    }
  }

  /** First alternative, `DOB[: ]*` then the date: where the date starts. */
  function DobLabelDate(s: string, i: nat): (r: Option<nat>)
    ensures r.Some? ==> i + 3 <= r.value && DateAt(s, r.value) && LiteralAt(s, i, "dob")
  {
    if LiteralAt(s, i, "dob") then
      var d := SkipColonsAndSpaces(s, i + 3);
      if DateAt(s, d) then Some(d) else None
    else None
  }

  /** Second alternative, `Date[: ]*of[: ]*Birth[: ]*` then the date. */
  function DateOfBirthLabelDate(s: string, i: nat): (r: Option<nat>)
    ensures r.Some? ==> i + 3 <= r.value && DateAt(s, r.value) && LiteralAt(s, i, "date")
  {
    if !LiteralAt(s, i, "date") then None
    else
      var a := SkipColonsAndSpaces(s, i + 4);
      if !LiteralAt(s, a, "of") then None
      else
        var b := SkipColonsAndSpaces(s, a + 2);
        if !LiteralAt(s, b, "birth") then None
        else
          var d := SkipColonsAndSpaces(s, b + 5);
          if DateAt(s, d) then Some(d) else None
  }

  /** `(DOB[: ]*|Date[: ]*of[: ]*Birth[: ]*)(\d{2}[/-]\d{2}[/-]\d{4})`, case-insensitive,
      tried at `i`: where group 2 (the date) starts. No `\b` anywhere. */
  function LabelledDate(s: string, i: nat): (r: Option<nat>)
    ensures r.Some? ==> i + 3 <= r.value && DateAt(s, r.value)
    ensures r.Some? ==> LiteralAt(s, i, "dob") || LiteralAt(s, i, "date")
  {
    var first := DobLabelDate(s, i);
    if first.Some? then first else DateOfBirthLabelDate(s, i)
  }

  // The labelled date read declaratively: the words in any case, runs of colons and
  // spaces between them, then the date.

  /** `s[a..b]` is a (possibly empty) run of colons and spaces. */
  predicate ColonSpaceRun(s: string, a: nat, b: nat) {
    a <= b <= |s| && forall k :: a <= k < b ==> s[k] == ':' || s[k] == ' '
  }

  /** `DOB[: ]*` from `i`, and the date at `d`. */
  predicate DobLabelShape(s: string, i: nat, d: nat) {
    LiteralAt(s, i, "dob") && ColonSpaceRun(s, i + 3, d) && DateAt(s, d)
  }

  /** `Date[: ]*of[: ]*Birth[: ]*` from `i`, with "of" at `a` and "birth" at `b`, and the
      date at `d`. */
  predicate DateOfBirthLabelShape(s: string, i: nat, a: nat, b: nat, d: nat) {
    && LiteralAt(s, i, "date") && ColonSpaceRun(s, i + 4, a)
    && LiteralAt(s, a, "of") && ColonSpaceRun(s, a + 2, b)
    && LiteralAt(s, b, "birth") && ColonSpaceRun(s, b + 5, d)
    && DateAt(s, d)
  }

  /** The character at offset `k` of a matched literal lower-cases to the literal's. */
  lemma LiteralCharAt(s: string, i: nat, w: string, k: nat)
    requires LiteralAt(s, i, w) && k < |w|
    ensures ToLower(s[i + k]) == w[k]
  {
    assert Lower(s[i..i + |w|])[k] == ToLower(s[i + k]);
  }

  /** A run of colons and spaces that ends at a character outside the run is the run the
      greedy `[: ]*` takes. */
  lemma {:induction false} SkipColonsAndSpacesReaches(s: string, a: nat, b: nat)
    requires ColonSpaceRun(s, a, b)
    requires b == |s| || (s[b] != ':' && s[b] != ' ')
    ensures SkipColonsAndSpaces(s, a) == b
    decreases b - a
  {
    if a < b {
      SkipColonsAndSpacesReaches(s, a + 1, b);
    }
  }

  /** What the greedy `[: ]*` skips is a run of colons and spaces. */
  lemma SkipColonsAndSpacesIsRun(s: string, i: nat)
    requires i <= |s|
    ensures ColonSpaceRun(s, i, SkipColonsAndSpaces(s, i))
  {
    SkipColonsAndSpacesIsMaximal(s, i);
  }

  /** A literal starting with a letter other than ':' and ' ' ends any colon/space run
      before it. */
  lemma LiteralEndsRun(s: string, p: nat, w: string)
    requires LiteralAt(s, p, w) && |w| > 0 && IsLetter(w[0])
    ensures s[p] != ':' && s[p] != ' '
  {
    LiteralCharAt(s, p, w, 0);
  }

  /** The first alternative matches at `i` with its date at `d` exactly when the
      declarative shape holds there. */
  lemma DobLabelIsPattern(s: string, i: nat, d: nat)
    ensures DobLabelShape(s, i, d) ==> DobLabelDate(s, i) == Some(d)
    ensures DobLabelDate(s, i) == Some(d) ==> DobLabelShape(s, i, d)
  {
    if DobLabelShape(s, i, d) {
      assert IsDigit(s[d]);
      SkipColonsAndSpacesReaches(s, i + 3, d);
    }
    if DobLabelDate(s, i) == Some(d) {
      SkipColonsAndSpacesIsMaximal(s, i + 3);
    }
  }

  /** The second alternative finds its declarative shape, "of" and "birth" standing
      where the greedy runs of colons and spaces end. */
  lemma DateOfBirthLabelFindsShape(s: string, i: nat, a: nat, b: nat, d: nat)
    requires DateOfBirthLabelShape(s, i, a, b, d)
    ensures DateOfBirthLabelDate(s, i) == Some(d)
  {
    LiteralEndsRun(s, a, "of");
    SkipColonsAndSpacesReaches(s, i + 4, a);
    LiteralEndsRun(s, b, "birth");
    SkipColonsAndSpacesReaches(s, a + 2, b);
    assert IsDigit(s[d]);
    SkipColonsAndSpacesReaches(s, b + 5, d);
  }

  /** What the second alternative finds has the declarative shape. */
  lemma DateOfBirthLabelHasShape(s: string, i: nat)
    requires DateOfBirthLabelDate(s, i).Some?
    ensures
      var a := SkipColonsAndSpaces(s, i + 4);
      var b := SkipColonsAndSpaces(s, a + 2);
      DateOfBirthLabelShape(s, i, a, b, DateOfBirthLabelDate(s, i).value)
  {
    var a := SkipColonsAndSpaces(s, i + 4);
    assert LiteralAt(s, i, "date") && LiteralAt(s, a, "of");
    var b := SkipColonsAndSpaces(s, a + 2);
    assert LiteralAt(s, b, "birth");
    var d := SkipColonsAndSpaces(s, b + 5);
    assert DateOfBirthLabelDate(s, i) == Some(d);
    SkipColonsAndSpacesIsRun(s, i + 4);
    SkipColonsAndSpacesIsRun(s, a + 2);
    SkipColonsAndSpacesIsRun(s, b + 5);
  }

  /** Whichever alternative fits at `i`, the labelled pattern reports its date: the two
      alternatives never fit at the same position ("dob" and "date" differ in their
      second letter). */
  lemma LabelledDateFindsDob(s: string, i: nat, d: nat)
    requires DobLabelShape(s, i, d)
    ensures LabelledDate(s, i) == Some(d)
  {
    DobLabelIsPattern(s, i, d);
  }

  lemma LabelledDateFindsDateOfBirth(s: string, i: nat, a: nat, b: nat, d: nat)
    requires DateOfBirthLabelShape(s, i, a, b, d)
    ensures !LiteralAt(s, i, "dob")
    ensures LabelledDate(s, i) == Some(d)
  {
    DateOfBirthLabelFindsShape(s, i, a, b, d);
    if LiteralAt(s, i, "dob") {
      LiteralCharAt(s, i, "dob", 1);
      LiteralCharAt(s, i, "date", 1);
      assert false;
    }
  }

  /** `(DOB[: ]*|Date[: ]*of[: ]*Birth[: ]*)` then a date, read declaratively: either
      alternative fits at `i` with its date at `d`. */
  ghost predicate LabelledShape(s: string, i: nat, d: nat) {
    DobLabelShape(s, i, d) || exists a: nat, b: nat :: DateOfBirthLabelShape(s, i, a, b, d)
  }

  /** The labelled matcher reports `d` at `i` exactly when one of the alternatives fits
      there with its date at `d`. */
  lemma LabelledDateIsPattern(s: string, i: nat, d: nat)
    ensures LabelledDate(s, i) == Some(d) <==> LabelledShape(s, i, d)
  {
    if LabelledShape(s, i, d) {
      if DobLabelShape(s, i, d) {
        LabelledDateFindsDob(s, i, d);
      } else {
        var a: nat, b: nat :| DateOfBirthLabelShape(s, i, a, b, d);
        LabelledDateFindsDateOfBirth(s, i, a, b, d);
      }
    }
    if LabelledDate(s, i) == Some(d) {
      if DobLabelDate(s, i).Some? {
        DobLabelIsPattern(s, i, d);
      } else {
        DateOfBirthLabelHasShape(s, i);
      }
    }
  }

  /** No digit in `s[a..b]`. */
  predicate NoDigitIn(s: string, a: nat, b: nat) {
    forall k :: a <= k < b && k < |s| ==> !IsDigit(s[k])
  }

  lemma NoDigitInJoin(s: string, a: nat, b: nat, c: nat)
    requires a <= b <= c
    requires NoDigitIn(s, a, b) && NoDigitIn(s, b, c)
    ensures NoDigitIn(s, a, c)
  {
  }

  /** The label words of the date pattern hold no digit. */
  lemma LabelWordsHaveNoDigit()
    ensures NoDigitIn("dob", 0, 3) && NoDigitIn("date", 0, 4)
    ensures NoDigitIn("of", 0, 2) && NoDigitIn("birth", 0, 5)
  {
  }

  /** A digit stays a digit under `lower()`, so a literal without digits at `p`, and
      the run of colons and spaces after it, hold no digit. */
  lemma LabelWordHasNoDigit(s: string, p: nat, w: string)
    requires LiteralAt(s, p, w)
    requires NoDigitIn(w, 0, |w|)
    ensures NoDigitIn(s, p, SkipColonsAndSpaces(s, p + |w|))
  {
    forall k | p <= k < p + |w|
      ensures !IsDigit(s[k])
    {
      assert Lower(s[p..p + |w|])[k - p] == ToLower(s[k]) == w[k - p];
    }
    SkipColonsAndSpacesIsMaximal(s, p + |w|);
  }

  lemma DobLabelHasNoDigit(s: string, i: nat)
    requires DobLabelDate(s, i).Some?
    ensures forall k :: i <= k < DobLabelDate(s, i).value ==> !IsDigit(s[k])
  {
    LabelWordsHaveNoDigit();
    LabelWordHasNoDigit(s, i, "dob");
  }

  lemma DateOfBirthLabelHasNoDigit(s: string, i: nat)
    requires DateOfBirthLabelDate(s, i).Some?
    ensures forall k :: i <= k < DateOfBirthLabelDate(s, i).value ==> !IsDigit(s[k])
  {
    var a := SkipColonsAndSpaces(s, i + 4);
    var b := SkipColonsAndSpaces(s, a + 2);
    var d := SkipColonsAndSpaces(s, b + 5);
    assert DateOfBirthLabelDate(s, i) == Some(d);
    LabelWordsHaveNoDigit();
    LabelWordHasNoDigit(s, i, "date");
    LabelWordHasNoDigit(s, a, "of");
    LabelWordHasNoDigit(s, b, "birth");
    NoDigitInJoin(s, i, a, b);
    NoDigitInJoin(s, i, b, d);
  }

  /** Between the start of the label and the date there is no digit: the date the
      pattern reports is the first digit after the label. */
  lemma LabelledDateLabelHasNoDigit(s: string, i: nat)
    requires LabelledDate(s, i).Some?
    ensures forall k :: i <= k < LabelledDate(s, i).value ==> !IsDigit(s[k])
  {
    if DobLabelDate(s, i).Some? {
      DobLabelHasNoDigit(s, i);
    } else {
      DateOfBirthLabelHasNoDigit(s, i);
    }
  }

  /** Leftmost start of the labelled date pattern. */
  function FirstLabelledDate(s: string): (r: Option<nat>)
    ensures r.Some? ==> r.value < |s| && LabelledDate(s, r.value).Some?
    ensures r.Some? ==> forall j :: 0 <= j < r.value ==> LabelledDate(s, j).None?
    ensures r.None? ==> forall j :: 0 <= j < |s| ==> LabelledDate(s, j).None?
  {
    var p := (i: nat) => LabelledDate(s, i).Some?;
    assert forall j: nat :: p(j) == LabelledDate(s, j).Some?;
    Leftmost(p, 0, |s|)
  }

  /** `\b\d{2}[/-]\d{2}[/-]\d{4}\b` at position `i`. */
  predicate BareDateAt(s: string, i: nat) {
    WordBoundary(s, i) && DateAt(s, i) && WordBoundary(s, i + 10)
  }

  /** Leftmost start of the bare date pattern. */
  function FirstBareDate(s: string): (r: Option<nat>)
    ensures r.Some? ==> r.value < |s| && BareDateAt(s, r.value)
    ensures r.Some? ==> forall j :: 0 <= j < r.value ==> !BareDateAt(s, j)
    ensures r.None? ==> forall j :: 0 <= j < |s| ==> !BareDateAt(s, j)
  {
    var p := (i: nat) => BareDateAt(s, i);
    assert forall j: nat :: p(j) == BareDateAt(s, j);
    Leftmost(p, 0, |s|)
  }

  // ---------------------------------------------------------------------------
  // Gender: \b(MALE|FEMALE|M|F)\b, case-insensitive

  /** `\b(MALE|FEMALE|M|F)\b` tried at `i`, alternatives in order: the length of the match. */
  function GenderLength(s: string, i: nat): (r: Option<nat>)
    ensures r.Some? ==> i + r.value <= |s| && WordBoundary(s, i) && WordBoundary(s, i + r.value)
    ensures r.Some? ==>
      var g := Lower(s[i..i + r.value]);
      g == "male" || g == "female" || g == "m" || g == "f"
  {
    if !WordBoundary(s, i) then None
    else if LiteralAt(s, i, "male") && WordBoundary(s, i + 4) then Some(4)
    else if LiteralAt(s, i, "female") && WordBoundary(s, i + 6) then Some(6)
    else if LiteralAt(s, i, "m") && WordBoundary(s, i + 1) then Some(1)
    else if LiteralAt(s, i, "f") && WordBoundary(s, i + 1) then Some(1)
    else None
  }

  predicate IsGenderWord(w: string) {
    w == "male" || w == "female" || w == "m" || w == "f"
  }

  /** `\b(MALE|FEMALE|M|F)\b` read declaratively: a gender word in any case standing as a
      whole word at `i`. */
  predicate GenderShape(s: string, i: nat, w: string) {
    IsGenderWord(w) && WordBoundary(s, i) && LiteralAt(s, i, w) && WordBoundary(s, i + |w|)
  }

  /** A letter inside a matched literal leaves no word boundary after the character before it. */
  lemma NoBoundaryInsideLiteral(s: string, i: nat, w: string, k: nat)
    requires LiteralAt(s, i, w) && 0 < k < |w|
    requires IsLetter(w[k - 1]) && IsLetter(w[k])
    ensures !WordBoundary(s, i + k)
  {
    LiteralCharAt(s, i, w, k - 1);
    LiteralCharAt(s, i, w, k);
  }

  /** The matcher finds every whole-word gender word, with that word's length. */
  lemma GenderLengthFindsShape(s: string, i: nat, w: string)
    requires GenderShape(s, i, w)
    ensures GenderLength(s, i) == Some(|w|)
  {
    LiteralCharAt(s, i, w, 0);
    if w == "m" || w == "f" {
      if LiteralAt(s, i, "male") {
        LiteralCharAt(s, i, "male", 0);
        NoBoundaryInsideLiteral(s, i, "male", 1);
      }
      if LiteralAt(s, i, "female") {
        LiteralCharAt(s, i, "female", 0);
        NoBoundaryInsideLiteral(s, i, "female", 1);
      }
    } else if w == "female" {
      if LiteralAt(s, i, "male") {
        LiteralCharAt(s, i, "male", 0);
      }
    }
  }

  /** What the matcher finds is a whole-word gender word. */
  lemma GenderLengthHasShape(s: string, i: nat)
    requires GenderLength(s, i).Some?
    ensures GenderShape(s, i, Lower(s[i..i + GenderLength(s, i).value]))
  {
    var n := GenderLength(s, i).value;
    assert LiteralAt(s, i, Lower(s[i..i + n]));
  }

  /** Leftmost start of the gender pattern. */
  function FirstGender(s: string): (r: Option<nat>)
    ensures r.Some? ==> r.value < |s| && GenderLength(s, r.value).Some?
    ensures r.Some? ==> forall j :: 0 <= j < r.value ==> GenderLength(s, j).None?
    ensures r.None? ==> forall j :: 0 <= j < |s| ==> GenderLength(s, j).None?
  {
    var p := (i: nat) => GenderLength(s, i).Some?;
    assert forall j: nat :: p(j) == GenderLength(s, j).Some?;
    Leftmost(p, 0, |s|)
  }
}
