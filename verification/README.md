# Identity-card text check, modelled in Dafny

This project models the text side of an identity-card (Aadhaar) verification web
service. It covers everything that happens after the OCR engine has turned an
uploaded image into a string:

- **Cleaning** (`Cleaning.dfy`): every character outside `[A-Za-z0-9:/\- \n]`
  becomes a space, every whitespace run becomes one space, and the ends are stripped.
- **Field extraction** (`Extraction.dfy`): the text is read into the four-key
  record `{Name, DOB, Gender, AadhaarNumber}`, with `"N/A"` for a field not found.
  `ExtractDetails` is a method. It starts from the all-`"N/A"` record and
  overwrites the four entries in the source's order, one step method per field.
  The name step carries the source's loop over the non-empty lines, which breaks
  at the first indicator line. The method is proved equal to the specification
  function `Extracted`, which builds the record from one search per field.
- **The four regular expressions** (`Patterns.dfy`, `Search.dfy`), written out by
  hand:
  - each is a matcher at one position plus a leftmost search, as `re.search` does;
  - `\b`, `\s?`, `[: ]*` and the case-insensitive literals are spelt out character
    by character.
- **Format validation** (`ValidFormat`): the number, with spaces removed, must be
  exactly twelve digits. A missing key counts as the empty string.
- **The upload handler's decision rules** (`Decision.dfy`):
  - the extension filter;
  - the choice of the classifier's highest-confidence detection, defaulting to the
    label `"true"` and confidence 0.0;
  - the all-`"N/A"` record that replaces an OCR result that is not a record;
  - the verdict: `"Verified"` exactly when the label, lower-cased, is `"real"` and
    the number is well-formed, otherwise `"Accepted"`.

`Text.dfy` holds the ASCII character classes and the Python string operations the
code relies on: `lower`, `upper`, `strip`, `split("\n")`, `replace(" ", "")` and
substring tests.

The first substitution in cleaning (project_utils/ocr_utils.py:54) keeps line feeds,
but the `\s+` substitution after it (line 55) turns them into spaces as well. Cleaned
text is therefore one line. The name heuristic (lines 87-94) takes the line before the
first indicator line, so on cleaned text it finds none and the name is always `"N/A"`
(`NameUnknownAfterCleaning`, `Decision.VerifyNameUnknown`). Extraction is modelled on
arbitrary text, so the name rules can still be stated.

## Model

| member | source | states |
|---|---|---|
| Cleaning.ReplaceUnkept | project_utils/ocr_utils.py:54 | the result has the input's length, keeps every character of `[A-Za-z0-9:/\-\n ]` where it stands, turns every other character into a space, and so holds only those characters |
| Cleaning.Clean | project_utils/ocr_utils.py:54-56 | definition: substitute, collapse, strip; characterised by `CleanIsClean`, `CleanHasNoLineFeed`, `CleanKeepsClean` and `CleanIdempotent` |
| Cleaning.CollapseWhitespace | project_utils/ocr_utils.py:55 | the result is empty exactly when the input is; a leading whitespace run becomes a leading space, and a leading non-whitespace character is kept |
| Cleaning.CollapseWhitespaceShape | project_utils/ocr_utils.py:55 | the result has no two adjacent spaces, and each of its characters is a space or a non-whitespace character of the input |
| Cleaning.CollapseWhitespaceOfRun | project_utils/ocr_utils.py:55 | a non-empty run of whitespace becomes exactly one space |
| Cleaning.CollapseWhitespaceOfChar | project_utils/ocr_utils.py:55 | a non-whitespace character is kept |
| Cleaning.CollapseWhitespaceSplit | project_utils/ocr_utils.py:55 | text before a non-whitespace character and text from it on are collapsed independently and concatenated |
| Cleaning.CollapseWhitespaceRunThen | project_utils/ocr_utils.py:55 | a whitespace run followed by text not starting with whitespace becomes one space followed by that text collapsed |
| Cleaning.CollapseWhitespaceAfterChar | project_utils/ocr_utils.py:55 | text ending in a non-whitespace character is collapsed independently of what follows it |
| Cleaning.CollapseWhitespaceRunBetween | project_utils/ocr_utils.py:55 | a maximal whitespace run between two texts becomes exactly one space, with the texts on each side collapsed independently |
| Cleaning.CleanIsClean | project_utils/ocr_utils.py:54-56 | cleaned text contains only letters, digits, `:`, `/`, `-` and single spaces, and neither starts nor ends with a space |
| Cleaning.CleanHasNoLineFeed | project_utils/ocr_utils.py:54-56 | cleaned text holds no line feed |
| Cleaning.CleanKeepsClean | project_utils/ocr_utils.py:54-56 | a text already of the cleaned shape passes through cleaning unchanged |
| Cleaning.CleanIdempotent | project_utils/ocr_utils.py:54-56 | cleaning a cleaned text changes nothing |
| Cleaning.CollapseKeepsSingleSpaces | project_utils/ocr_utils.py:55 | on text whose only whitespace is single spaces, collapsing whitespace changes nothing |
| Text.Strip | project_utils/ocr_utils.py:56 | the stripped text is no longer than the input and has no whitespace at either end |
| Text.StripLeftIsSuffix | project_utils/ocr_utils.py:56 | removing leading whitespace leaves a suffix, and everything removed is whitespace |
| Text.StripLeftAppend | project_utils/ocr_utils.py:56 | leading whitespace is stripped only up to the first non-whitespace character: appending text that starts with one changes nothing before it |
| Text.StripRightIsPrefix | project_utils/ocr_utils.py:56 | removing trailing whitespace leaves a prefix, and everything removed is whitespace |
| Text.StripIdempotent | project_utils/ocr_utils.py:87-91 | stripping twice is stripping once |
| Text.RemoveSpaces | project_utils/ocr_utils.py:69 | removing spaces keeps exactly the non-space characters and never lengthens the text |
| Text.RemoveSpacesAppend | project_utils/ocr_utils.py:69 | removing spaces distributes over concatenation |
| Text.RemoveSpacesKeepsSpaceless | project_utils/ocr_utils.py:100 | text without spaces is unchanged by removing spaces |
| Text.SplitLines | project_utils/ocr_utils.py:87 | splitting on line feeds gives at least one piece, no piece holds a line feed, and text without line feeds is one piece |
| Text.JoinSplitLines | project_utils/ocr_utils.py:87 | joining the pieces with line feeds gives the text back |
| Search.Leftmost | project_utils/ocr_utils.py:67 | the position found satisfies the predicate and no earlier one does; nothing found means no position satisfies it |
| Search.LeftmostIsFirst | project_utils/ocr_utils.py:67 | a satisfying position with none before it is the one found |
| Patterns.AadhaarEnd | project_utils/ocr_utils.py:67 | a match at a position is 12 to 14 characters long and lies inside the text |
| Patterns.AadhaarEndIsPattern | project_utils/ocr_utils.py:67 | the matcher succeeds at a position exactly when `\b`, three four-digit groups each optionally followed by one whitespace, and `\b` fit there, and its end is that of the only possible match |
| Patterns.FirstAadhaar | project_utils/ocr_utils.py:67 | the leftmost position where the number pattern matches, and none when it matches nowhere |
| Patterns.SkipColonsAndSpaces | project_utils/ocr_utils.py:72 | `[: ]*` never moves backwards or past the end |
| Patterns.SkipColonsAndSpacesIsMaximal | project_utils/ocr_utils.py:72 | the run skipped is all colons and spaces and stops at the first other character |
| Patterns.DobLabelDate | project_utils/ocr_utils.py:72 | the `DOB[: ]*` alternative finds a date only after the literal "dob" in any case |
| Patterns.DateOfBirthLabelDate | project_utils/ocr_utils.py:72 | the `Date[: ]*of[: ]*Birth[: ]*` alternative finds a date only after the literal "date" in any case |
| Patterns.SkipColonsAndSpacesReaches | project_utils/ocr_utils.py:72 | a colon/space run that ends at another character or at the end of the text is exactly the run `[: ]*` skips |
| Patterns.SkipColonsAndSpacesIsRun | project_utils/ocr_utils.py:72 | what `[: ]*` skips is a run of colons and spaces |
| Patterns.LiteralEndsRun | project_utils/ocr_utils.py:72 | a label word starting with a letter is not part of a preceding colon/space run |
| Patterns.DobLabelIsPattern | project_utils/ocr_utils.py:72 | the `DOB[: ]*` alternative reports date position d at i exactly when "dob" in any case, a colon/space run and a date at d fit there |
| Patterns.DateOfBirthLabelFindsShape | project_utils/ocr_utils.py:72 | when "date", a run, "of", a run, "birth", a run and a date at d fit at i, the second alternative reports d |
| Patterns.DateOfBirthLabelHasShape | project_utils/ocr_utils.py:72 | whatever the second alternative reports has that declarative shape, with "of" and "birth" where the greedy runs end |
| Patterns.LabelledDateFindsDob | project_utils/ocr_utils.py:72 | when the first alternative's shape fits, the labelled pattern reports its date |
| Patterns.LabelledDateFindsDateOfBirth | project_utils/ocr_utils.py:72 | when the second alternative's shape fits, the labelled pattern reports its date; the first alternative cannot fit at the same position |
| Patterns.LabelledDateIsPattern | project_utils/ocr_utils.py:72 | the labelled pattern reports date position d at i exactly when one of its two alternatives fits at i with its date at d |
| Patterns.LabelledDate | project_utils/ocr_utils.py:72 | group 2 of the labelled pattern is a date at least three characters after the label start, which is "dob" or "date" in any case |
| Patterns.LabelWordHasNoDigit | project_utils/ocr_utils.py:72 | a digit-free literal matched in any case, with the colons and spaces after it, covers no digit |
| Patterns.LabelledDateLabelHasNoDigit | project_utils/ocr_utils.py:72 | between the label start and group 2 there is no digit, so the reported date begins at the first digit after the label |
| Patterns.DateAtGivesShape | project_utils/ocr_utils.py:72-78 | the ten characters of a date match form a `dd?dd?dddd` text with `/` or `-` for each `?` |
| Patterns.FirstLabelledDate | project_utils/ocr_utils.py:72 | the leftmost start of the labelled pattern, and none when it matches nowhere |
| Patterns.FirstBareDate | project_utils/ocr_utils.py:76 | the leftmost bare date between word boundaries, and none when there is none |
| Patterns.GenderLength | project_utils/ocr_utils.py:81 | a gender match lies between word boundaries and reads male, female, m or f in any case |
| Patterns.GenderLengthFindsShape | project_utils/ocr_utils.py:81 | when male, female, m or f in any case stands between word boundaries at i, the gender pattern matches there with that word's length |
| Patterns.GenderLengthHasShape | project_utils/ocr_utils.py:81 | a gender match at i is a gender word in any case standing between word boundaries |
| Patterns.FirstGender | project_utils/ocr_utils.py:81 | the leftmost position where the gender pattern matches, and none when it matches nowhere |
| Extraction.StrippedNonEmpty | project_utils/ocr_utils.py:87 | the kept lines are stripped and non-empty, and there are no more of them than pieces |
| Extraction.StrippedNonEmptyOne | project_utils/ocr_utils.py:87 | one piece gives its stripped text, or nothing when that is empty |
| Extraction.StrippedNonEmptyAppend | project_utils/ocr_utils.py:87 | the lines of two lists of pieces are the lines of the first followed by those of the second |
| Extraction.NonEmptyLines | project_utils/ocr_utils.py:87 | definition: the pieces of `split("\n")`, stripped, empty ones dropped; characterised by `SplitLines`, `JoinSplitLines`, `StrippedNonEmptyOne` and `StrippedNonEmptyAppend` |
| Extraction.FirstIndicator | project_utils/ocr_utils.py:88-89 | the first line containing dob, birth, male or female in any case, and none when no line does |
| Extraction.NameCandidate | project_utils/ocr_utils.py:88-94 | definition: the stripped line before the first indicator line unless it is the first line or boilerplate; characterised by `NameAtFirstIndicator` and `NameWithoutIndicator` |
| Extraction.AadhaarMatch | project_utils/ocr_utils.py:67-69 | definition: the leftmost number match with spaces removed; characterised by `AadhaarFieldUnknownIff`, `AadhaarFieldIsLeftmost` and `AadhaarFieldTwelveDigits` |
| Extraction.DobMatch | project_utils/ocr_utils.py:72-78 | definition: group 2 of the leftmost labelled match, else the leftmost bare date; characterised by `DobFieldPrefersLabel`, `DobFieldOfFirstLabel`, `DobFieldFallsBack` and `DobFieldShape` |
| Extraction.GenderMatch | project_utils/ocr_utils.py:81-84 | definition: the leftmost gender match, upper-cased and canonicalised; characterised by `GenderFieldFromFirstMatch`, `GenderFieldOfFirstWord` and `GenderFieldUnknownIff` |
| Extraction.CanonicalGender | project_utils/ocr_utils.py:84 | the canonical gender is "Male" or "Female" |
| Extraction.GenderField | project_utils/ocr_utils.py:81-84 | the gender field is "Male", "Female" or "N/A" |
| Extraction.Extracted | project_utils/ocr_utils.py:61-96 | the extracted record has exactly the keys Name, DOB, Gender and AadhaarNumber |
| Extraction.ExtractDetails | project_utils/ocr_utils.py:61-96 | the record built step by step has exactly the four keys and equals the specification `Extracted` of the same text |
| Extraction.SetAadhaarNumber | project_utils/ocr_utils.py:66-69 | the step overwrites AadhaarNumber with the leftmost number match, spaces removed, and leaves everything else alone; without a match it changes nothing |
| Extraction.SetDob | project_utils/ocr_utils.py:71-78 | the step overwrites DOB with the labelled date, else the bare date, and changes nothing when neither exists |
| Extraction.SetGender | project_utils/ocr_utils.py:80-84 | the step overwrites Gender with the canonical form of the first gender match, and changes nothing without one |
| Extraction.SetName | project_utils/ocr_utils.py:86-94 | the loop stops at the first indicator line and overwrites Name with the previous stripped line unless that line is the first or boilerplate; without an indicator line it changes nothing |
| Extraction.ExtractedIsOverwrites | project_utils/ocr_utils.py:61-94 | the four overwrites applied in the source's order to the all-"N/A" record give the extracted record |
| Extraction.EmptyTextAllUnknown | project_utils/ocr_utils.py:61-64 | empty text gives "N/A" in all four fields |
| Extraction.FieldsOfEmptyText | project_utils/ocr_utils.py:63-64 | on empty text each of the four searches finds nothing |
| Extraction.AadhaarFieldUnknownIff | project_utils/ocr_utils.py:67-69 | the number is "N/A" exactly when the number pattern matches nowhere |
| Extraction.AadhaarFieldIsLeftmost | project_utils/ocr_utils.py:67-69 | the number is the leftmost match with its spaces removed |
| Extraction.RemoveSpacesOfGroups | project_utils/ocr_utils.py:69 | groups joined directly or by one space lose exactly those spaces |
| Extraction.TwelveDigitsOfGroups | project_utils/ocr_utils.py:69 | three four-digit groups joined directly or by one space become twelve digits |
| Extraction.RemoveSpacesOfNumber | project_utils/ocr_utils.py:67-69 | a number match whose separators are spaces becomes twelve digits once spaces are removed |
| Extraction.NumberMatchTwelveDigits | project_utils/ocr_utils.py:67-69 | in text whose only whitespace is the space, any number match with its spaces removed is exactly twelve digits |
| Extraction.AadhaarFieldTwelveDigits | project_utils/ocr_utils.py:67-69 | on text whose only whitespace is the space, a found number is exactly twelve digits |
| Extraction.DobFieldPrefersLabel | project_utils/ocr_utils.py:72-74 | a labelled date is taken whenever one exists, whatever bare dates come before it |
| Extraction.DobFieldOfFirstLabel | project_utils/ocr_utils.py:72-74 | when a labelled date fits at i with its date at d and no labelled date fits earlier, the date of birth is the ten characters at d |
| Extraction.DobFieldFallsBack | project_utils/ocr_utils.py:75-78 | without any labelled date, the leftmost bare date is taken |
| Extraction.DobFieldShape | project_utils/ocr_utils.py:72-78 | the date of birth is "N/A" or of the shape `dd?dd?dddd`; it is "N/A" exactly when neither pattern matches anywhere |
| Extraction.UpperOfLower | project_utils/ocr_utils.py:81-83 | upper-casing after lower-casing is upper-casing |
| Extraction.GenderFieldFromFirstMatch | project_utils/ocr_utils.py:81-84 | the gender comes from the first whole-word match: m or male in any case gives "Male", f or female gives "Female" |
| Extraction.GenderFieldOfFirstWord | project_utils/ocr_utils.py:81-84 | when the first whole-word gender word is at i, the gender is "Male" for m or male and "Female" for f or female |
| Extraction.GenderFieldUnknownIffNoWord | project_utils/ocr_utils.py:81-84 | the gender is "N/A" exactly when no gender word in any case stands between word boundaries anywhere |
| Extraction.GenderFieldUnknownIff | project_utils/ocr_utils.py:81-84 | the gender is "N/A" exactly when the gender pattern matches nowhere |
| Extraction.NameAtFirstIndicator | project_utils/ocr_utils.py:87-94 | with the first indicator line at k, the name is the stripped line k-1 when k > 0 and that line is not boilerplate, and "N/A" otherwise |
| Extraction.NameWithoutIndicator | project_utils/ocr_utils.py:87-94 | without an indicator line the name stays "N/A" |
| Extraction.UnknownIsNoKeyword | project_utils/ocr_utils.py:89-92 | "N/A" contains neither a boilerplate word nor an indicator word |
| Extraction.NameIsNeitherBoilerplateNorIndicator | project_utils/ocr_utils.py:87-94 | the name never contains india, aadhaar, uidai, government, dob, birth, male or female in any case |
| Extraction.NameUnknownAfterCleaning | project_utils/ocr_utils.py:54-56 | on cleaned text, which is one line, the name is always "N/A" |
| Extraction.ValidFormat | project_utils/ocr_utils.py:98-101 | a valid record has an AadhaarNumber other than "N/A", made only of digits and spaces, that is exactly twelve characters long once its spaces are removed |
| Extraction.ValidFormatIff | project_utils/ocr_utils.py:98-101 | a record is valid exactly when its AadhaarNumber is present, made only of digits and spaces, and twelve characters long once its spaces are removed |
| Extraction.ValidFormatOfNumber | project_utils/ocr_utils.py:98-101 | a record whose number is twelve digits once its spaces are removed is valid |
| Extraction.ValidFormatAcceptsGroups | project_utils/ocr_utils.py:98-101 | three four-digit groups, joined directly or by single spaces, are accepted |
| Extraction.ValidFormatRejects | project_utils/ocr_utils.py:98-101 | eleven digits, thirteen digits, a missing number and "N/A" are rejected |
| Extraction.ExtractedValidIff | project_utils/ocr_utils.py:67-69 | on text whose only whitespace is the space, the extracted record is valid exactly when a number was found |
| Extraction.CleanedTextValidIff | project_utils/ocr_utils.py:54-101 | after cleaning, the extracted record is valid exactly when the number pattern matches somewhere in the cleaned text |
| Decision.AfterLastDot | app.py:39 | the extension holds no dot and is no longer than the name |
| Decision.AllowedFile | app.py:38-39 | definition: a dot, then an allowed extension after the last dot in any case; characterised by `AllowedFileIff`, `NoDotRefused` and `AllowedFileHasExtension` |
| Decision.AfterLastDotOfSplit | app.py:39 | for a stem, a dot and a dot-free extension, the text after the last dot is that extension |
| Decision.LastDotSplit | app.py:39 | a name with a dot is the part before its last dot, the dot, and the extension |
| Decision.AllowedFileIff | app.py:38-39 | a name ending in a dot and a dot-free extension is accepted exactly when the extension, lower-cased, is png, jpg or jpeg |
| Decision.NoDotRefused | app.py:39 | a name without a dot is refused |
| Decision.AllowedFileHasExtension | app.py:38-39 | an accepted name ends in a dot and an allowed extension |
| Decision.AllowedFileExamples | app.py:38-39 | `x.PNG` is accepted and `x.png.exe` is refused |
| Decision.IdxMax | app.py:64 | the chosen position has a confidence no other detection exceeds, and every earlier detection has a strictly lower one |
| Decision.Predict | app.py:60-66 | with no detection the label is "true" and the confidence 0.0; otherwise the pair comes from one of the detections and its confidence is maximal |
| Decision.PredictTakesFirstMaximum | app.py:63-66 | among detections of equal highest confidence, the first one is taken |
| Decision.VerdictText | app.py:84-86 | the verdict text is "Accepted" or "Verified" |
| Decision.FinalVerdict | app.py:84-86 | definition: "Verified" only for the label "real" in any case with a valid format; characterised by `Decide` and `VerdictIgnoresConfidence` |
| Decision.RecordOrUnknown | app.py:72-78 | a non-record OCR result becomes the all-"N/A" record, and a record is kept as it is |
| Decision.Decide | app.py:60-86 | the verdict is "Verified" exactly when the chosen label, lower-cased, is "real" and the record's number is valid |
| Decision.NoDetectionAccepted | app.py:60-61 | with no detection the verdict is "Accepted" whatever the OCR found |
| Decision.NotARecordAccepted | app.py:72-86 | a non-record OCR result is replaced by the all-"N/A" record, fails validation, and gives "Accepted" |
| Decision.VerdictIgnoresConfidence | app.py:84-86 | detection lists whose chosen labels agree give the same verdict, whatever the confidences |
| Decision.Verify | app.py:60-86 | definition: the decision on the record extracted from the cleaned OCR text; characterised by `VerifyVerifiedIff` and `VerifyNameUnknown` |
| Decision.VerifyVerifiedIff | app.py:84-86 | for a whole request, "Verified" exactly when the chosen label is "real" in any case and the cleaned OCR text contains a number match |
| Decision.VerifyNameUnknown | app.py:69 | for a whole request, the Name shown is always "N/A" |

## Left out

- Image preprocessing and OCR (project_utils/ocr_utils.py:9-51): grayscale, contrast, thresholding, morphology, resizing and the Tesseract call are foreign library calls over pixel arrays. The OCR output is an arbitrary input string here.
- The Tesseract path setting (project_utils/ocr_utils.py:7) and both `__main__` blocks: configuration and console output.
- Loading and running the YOLOv5 classifier (app.py:21-36, 58-59): its detections are an input list of (class name, confidence) pairs.
- Decision.Predict: does not model `round(float(...), 2)` or NaN confidences. Rounding is floating point and never reaches the verdict. pandas `idxmax` skips NaN, while the model's confidences are exact reals.
- The Flask plumbing (app.py:42-125): routes, `request.files`, `secure_filename`, saving the file, templates, file serving and JSON output.
- Storing and listing results (project_utils/db_utils.py): database I/O only. db_utils.py is not part of this model.
- Non-ASCII text: `\d`, `\w`, `\s`, `lower()` and `upper()` are modelled for ASCII. Other characters count as non-digit, non-word and non-space, and no case mapping applies to them.
- tests/test_app.py: its cases pass strings where the code expects a record, so no property is drawn from it.
