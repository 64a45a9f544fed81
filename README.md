# Diminutive case forms and document-signal detection, in Dafny

This project models two pieces of the name-screening service and proves
properties of them.

**Diminutive case forms** (`fix_diminutives.py`). The Russian diminutive
dictionary maps a diminutive ("даша") to a full name ("дарья"). For each real
diminutive (a key whose value differs from it), `generate_case_forms` builds
the oblique-case forms from the final letter. Each form that is not yet a key
is then added, mapped to the same full name. In `diminutives.dfy`:

- `CaseForms` is the form generator.
- `Nominative` is its inverse, an independent reference definition.
- The dictionary is an `OrderedDict`: insertion order plus the mapping, as a
  Python `dict`.
- The merge is specified by the fold `MergeAll`. It is implemented by the
  loop methods `CollectBaseDiminutives`, `InsertCaseForms`, `MergeCaseForms`
  and `AddCaseForms`.

**Document-signal detection**
(`src/ai_service/layers/smart_filter/document_detector.py`). Six detectors
run in a fixed order: INN (tax number), dates, document numbers, addresses,
bank details, contact information. Each detector:

- collects the matches of its regular expressions and, for INN and dates,
  validates them;
- reports a confidence of `min(count * k, cap)`, or 0.0 with no match.

`detect_document_signals` keeps the signals with a positive confidence. It
sums their confidences and caps the sum at 1.0. It lists the signals above 0.7
and the union of all matches.

In `document_detector.dfy`, regex matching is an oracle. Each detector gets
the list that each of its patterns matched, in pattern order (`Findings`).
The date parser's answers are a `DateReading` per string. Everything after
matching is modelled as the source does it: the loops as methods with
invariants, the result assembly as a method specified by functions.

`seqs.dfy` holds the shared list operations. `Flatten` is the `extend` loop,
`Filter` is a comprehension with a condition, and `SetOfSeqSize` is about
`set(...)`.

Three behaviours of the code that are easy to miss, and which the model follows:

- INN validation uses `re.match` with `$`. In Python, `$` also matches just
  before a final newline, so `"12345678\n"` passes (`IsValidInn`,
  `InnValidation`).
- For a whitespace-only text, `text_length` is 0, because the empty result
  is returned, not `len(text)` (`DetectDocumentSignals`).
- Date pattern 3 (document_detector.py:58) matches Russian month names
  ("15 января 2020"), but `_is_valid_date` can never accept such a string.
  All six `strptime` formats are numeric, and the two month-name searches need
  a Ukrainian or an English month name. A match of pattern 3 is digits, a
  Russian month and digits, so it contains neither. The model's date-parsing
  oracle `parseDate` is unconstrained, so it over-approximates this case: the
  model also covers parses the real code never produces.

## Model

| member | source | states |
|---|---|---|
| Diminutives.CaseForms | fix_diminutives.py:7-48 | the nominative itself is always among the generated forms |
| Diminutives.CaseFormsRoundTrip | fix_diminutives.py:10-46 | every generated form other than the word leads back to the word when the declension class's ending is restored: the forms are the case forms of exactly that word |
| Diminutives.CaseFormsCount | fix_diminutives.py:10-46 | every word yields exactly five distinct forms: itself and four oblique forms, since the prepositional form listed twice equals the dative and the `ь` class lists only four |
| Diminutives.HasSuffixIff | fix_diminutives.py:12 | `name.endswith(suffix)` holds exactly when the name is some stem followed by the suffix |
| Diminutives.Items | fix_diminutives.py:64 | `items()` has one pair per key, in insertion order |
| Diminutives.ItemsExact | fix_diminutives.py:64 | the items are exactly the dictionary's (key, value) pairs |
| Diminutives.BaseDiminutivesExact | fix_diminutives.py:62-66 | the base diminutives are exactly the dictionary entries whose key differs from its value |
| Diminutives.CollectBaseDiminutives | fix_diminutives.py:63-66 | the loop yields those entries in dictionary order |
| Diminutives.Insert | fix_diminutives.py:77 | assigning a new key keeps the dictionary well formed, adds exactly that entry and appends the key to the insertion order |
| Diminutives.InsertCaseForms | fix_diminutives.py:73-78 | the inner loop adds each form other than the diminutive that is not yet a key, mapped to the full name; existing keys and the earlier insertion order are untouched; `added` counts the new keys |
| Diminutives.MergeCaseForms | fix_diminutives.py:71-78 | the outer loop over the base diminutives, in order, equals the fold `MergeAll`, keeps the old key order as a prefix and counts the added keys |
| Diminutives.AddCaseForms | fix_diminutives.py:62-81 | the whole merge: the new dictionary is well formed, equals `MergeAll` over the base diminutives and grows by exactly `added` keys |
| Diminutives.AddFormsExact | fix_diminutives.py:75-78 | one pass of the inner loop keeps every entry, adds exactly the forms other than the diminutive that were not yet keys, and maps each of them to the full name |
| Diminutives.MergeAll | fix_diminutives.py:72-78 | the merge never overwrites or removes an existing key (`not in diminutives` at line 76) |
| Diminutives.MergeCoversForms | fix_diminutives.py:72-78 | afterwards every case form claimed by some base diminutive is a key |
| Diminutives.MergeAddsFirstClaim | fix_diminutives.py:72-78 | every added key maps to the full name of the first base diminutive, in dictionary order, that claims it |
| Diminutives.DashaForms | fix_diminutives.py:89-96 | from {даша → дарья}, the merge maps даши, дашу, даше and дашой to дарья |
| DocumentDetector.CappedConfidence | src/ai_service/layers/smart_filter/document_detector.py:281-283 | the confidence lies in [0, cap] and is positive iff some match counted; it equals count × step up to the cap and the cap beyond it, which is `min(count * step, cap)` |
| DocumentDetector.SignalOf | src/ai_service/layers/smart_filter/document_detector.py:281-290 | each detector's signal has its type, a confidence in [0, its cap ≤ 0.95] that is positive iff a match survived, the validated matches as `matches` and their number with repetitions as `count` |
| DocumentDetector.SignalShape | src/ai_service/layers/smart_filter/document_detector.py:288-289 | `matches` never has more elements than `count`, and is empty iff `count` is 0 |
| DocumentDetector.TypeNamesDistinct | src/ai_service/layers/smart_filter/document_detector.py:286 | the six detectors report six different `signal_type` strings |
| DocumentDetector.HighConfidenceByType | src/ai_service/layers/smart_filter/document_detector.py:258 | a signal is high-confidence for INN iff it has a match, never for dates, and for the other detectors iff it has at least two matches |
| DocumentDetector.CollectMatches | src/ai_service/layers/smart_filter/document_detector.py:266-273 | the extend loop yields all matches of all patterns in order |
| DocumentDetector.InnValidation | src/ai_service/layers/smart_filter/document_detector.py:278 | without a final newline, a match is valid iff it is 8, 10 or 12 ASCII digits; a final newline does not change validity |
| DocumentDetector.ValidateInns | src/ai_service/layers/smart_filter/document_detector.py:276-279 | the loop keeps exactly the valid INN matches, in order |
| DocumentDetector.DetectInn | src/ai_service/layers/smart_filter/document_detector.py:264-290 | the signal is built from the valid matches, the confidence is at most 0.95, and it is positive iff some pattern matched a valid INN |
| DocumentDetector.IsValidDate | src/ai_service/layers/smart_filter/document_detector.py:402-483 | a string is valid iff a format parsed to a year in 1900..2100, or a Ukrainian or English month-name search found a year in 1900..2100 and a day in 1..31 |
| DocumentDetector.MonthNameBounds | src/ai_service/layers/smart_filter/document_detector.py:463-479 | when no format parsed to an in-range year, acceptance needs a month-name reading with in-range year and day |
| DocumentDetector.ValidateDates | src/ai_service/layers/smart_filter/document_detector.py:303-306 | the loop keeps exactly the date strings `_is_valid_date` accepts, in order |
| DocumentDetector.DetectDates | src/ai_service/layers/smart_filter/document_detector.py:292-317 | the signal is built from the accepted dates, its confidence is at most 0.7, and every reported match is an accepted date |
| DocumentDetector.DetectDocumentNumbers | src/ai_service/layers/smart_filter/document_detector.py:319-337 | every match counts; the count is the total number of matches; the confidence is at most 0.9 |
| DocumentDetector.DetectAddresses | src/ai_service/layers/smart_filter/document_detector.py:339-357 | every match counts; the count is the total number of matches; the confidence is at most 0.8 |
| DocumentDetector.DetectBankDetails | src/ai_service/layers/smart_filter/document_detector.py:359-377 | every match counts; the count is the total number of matches; the confidence is at most 0.9 |
| DocumentDetector.DetectContactInfo | src/ai_service/layers/smart_filter/document_detector.py:379-400 | phone matches then e-mail matches; the count is their total; the confidence is at most 0.8 |
| DocumentDetector.EmptyResult | src/ai_service/layers/smart_filter/document_detector.py:493-503 | the empty result is what assembling from no signals gives (confidence 0, no signals, nothing high-confidence, no documents), except that its text length is 0 |
| DocumentDetector.LStrip | src/ai_service/layers/smart_filter/document_detector.py:209 | stripping removes exactly the leading whitespace: the result is a suffix of the text, every character removed is Python whitespace, and the result is empty or starts with a non-space |
| DocumentDetector.BlankIffStripEmpty | src/ai_service/layers/smart_filter/document_detector.py:209 | a text is blank (every character is Python whitespace) iff stripping it leaves nothing, so the test equals `not text or not text.strip()` |
| DocumentDetector.PythonSpaceExamples | src/ai_service/layers/smart_filter/document_detector.py:209 | the whitespace set is Python's: the ASCII separators 0x1C-0x1F, U+0085, U+00A0 and U+3000 are spaces; U+200B, letters and digits are not |
| DocumentDetector.Include | src/ai_service/layers/smart_filter/document_detector.py:217-219 | one detector's step appends its signal only when the confidence is positive and keeps the running total equal to the sum of the appended confidences |
| DocumentDetector.TotalConfidenceAppend | src/ai_service/layers/smart_filter/document_detector.py:213-249 | the running total of the signals appended one after another is additive over concatenation |
| DocumentDetector.TotalConfidenceNonNegative | src/ai_service/layers/smart_filter/document_detector.py:213-249 | a total of non-negative confidences is not negative |
| DocumentDetector.HighConfidenceSignals | src/ai_service/layers/smart_filter/document_detector.py:258 | the selected signals are exactly those above 0.7, in their original order |
| DocumentDetector.ExtractDetectedDocuments | src/ai_service/layers/smart_filter/document_detector.py:485-491 | a string is a detected document iff it is a match of some signal |
| DocumentDetector.RunDetectors | src/ai_service/layers/smart_filter/document_detector.py:212-249 | the signals kept are the six detectors' signals with positive confidence, in run order, and the running total is their sum |
| DocumentDetector.DetectedSignals | src/ai_service/layers/smart_filter/document_detector.py:215-249 | the kept signals have positive confidences and come in strictly increasing run order, so no type appears twice; their total is not negative |
| DocumentDetector.DetectDocumentSignals | src/ai_service/layers/smart_filter/document_detector.py:199-262 | a blank text gives the empty result; otherwise the signals are the positive ones in run order, `signal_count` is their number, the confidence is their sum capped at 1.0 and lies in [0, 1], the high-confidence list and the detected documents are as above, `text_length` is the text's length |
| DocumentDetector.RepeatedInnMatch | src/ai_service/layers/smart_filter/document_detector.py:281-290 | one eight-digit INN found by two patterns gives count 2, one distinct match and confidence 0.95 |
| Seqs.Filter | src/ai_service/layers/smart_filter/document_detector.py:258 | a conditional comprehension yields only elements that pass the test, contains every element of the input that passes it, keeps their order (a subsequence) and is no longer than its input |
| Seqs.FilterMultiplicity | src/ai_service/layers/smart_filter/document_detector.py:276-279 | filtering keeps every occurrence of an element passing the test and none of the others, so repeated matches survive validation and count towards `len(validated_matches)` |
| Seqs.FlattenMembership | src/ai_service/layers/smart_filter/document_detector.py:266-273 | a string is among the collected matches iff some pattern's list contains it |
| Seqs.SetOfSeqSize | src/ai_service/layers/smart_filter/document_detector.py:288-289 | `set(matches)` has at most `len(matches)` elements and is empty iff the list is |

## Left out

- Regular-expression matching is not modelled. Each detector receives what `findall` or `finditer` returned for each pattern, in pattern order.
- The `isinstance(..., tuple)` branches of the `findall` loops are left out: no pattern has more than one capturing group, so `findall` always returns strings.
- `datetime.strptime` is not modelled. A `DateReading` gives the year of each of the six formats that parsed the string. The same holds for the two month-name searches: each gives its day and year, or nothing. The case-insensitive English search is part of that oracle.
- The outer `except Exception` of `_is_valid_date` is left out: with the validation as written, nothing in the try block raises for a string.
- IsValidInn: `\d` is taken as the ASCII digits 0 to 9. Python also accepts other Unicode decimal digits there.
- Confidences are exact reals. The float rounding of the running total (0.3 + 0.6 gives 0.8999999999999999 in binary floating point) is not modelled. Each per-detector value is a product of an integer and a constant capped by another constant, and the model states it exactly.
- Lists that the source builds with `list(set(...))` are sets in the model (`Signal.matches`, `detectedDocuments`). Python leaves their order unspecified.
- The inner loop of the merge goes over a Python set, whose iteration order is arbitrary. `InsertCaseForms` picks the next form nondeterministically, so the proved result holds for every order. The insertion order of the new keys among themselves is left unspecified.
- The `DocumentDetector` object is not modelled as a class. Its fields are the compiled patterns and the context words, which are set once and never updated; the detectors are pure in everything else.
- The `position` and `context` fields of the `DocumentSignal` dataclass are not modelled. The detectors never use that dataclass.
- The logger, the JSON loading and saving of `data/diminutives_ru.json` (including `sort_keys`) and the progress messages of `add_case_forms_to_diminutives` are I/O and are left out. `DashaForms` states what the final test loop would report for a dictionary holding only даша → дарья. On a larger dictionary the report depends on the other keys, for instance an earlier даш → дан claims даше first.
- The other scripts and tests of the repository are not part of this model.
