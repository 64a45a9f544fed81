/** The document-signal detector of the smart filter
    (src/ai_service/layers/smart_filter/document_detector.py) from the point
    where the regular expressions have matched onwards. The regex engine is an
    oracle: each detector receives, for each of its compiled patterns in
    order, the list of strings that pattern matched. What is modelled is the
    validation of the matches, the capped confidence of each detector, the
    choice of the signals to report and the aggregate result. */
module DocumentDetector {
  import opened Seqs

  datatype Option<T> = None | Some(value: T)

  /** The six detectors, in the order `detect_document_signals` runs them. */
  datatype SignalType = Inn | Dates | DocumentNumbers | Addresses | BankDetails | ContactInfo

  /** The `signal_type` string each detector reports. */
  function TypeName(t: SignalType): string
  {
    match t
    case Inn => "inn"
    case Dates => "dates"
    case DocumentNumbers => "document_numbers"
    case Addresses => "addresses"
    case BankDetails => "bank_details"
    case ContactInfo => "contact_info"
  }

  /** Distinct detectors report distinct `signal_type` strings. */
  lemma TypeNamesDistinct(t: SignalType, u: SignalType)
    ensures TypeName(t) == TypeName(u) <==> t == u
  {
  }

  /** Position of a detector in the run order. */
  function Rank(t: SignalType): int
  {
    match t
    case Inn => 0
    case Dates => 1
    case DocumentNumbers => 2
    case Addresses => 3
    case BankDetails => 4
    case ContactInfo => 5
  }

  /** Confidence each match adds, per detector. */
  function Step(t: SignalType): real
  {
    match t
    case Inn => 0.8
    case Dates => 0.3
    case DocumentNumbers => 0.6
    case Addresses => 0.4
    case BankDetails => 0.7
    case ContactInfo => 0.5
  }

  /** Largest confidence a detector reports. */
  function Cap(t: SignalType): real
  {
    match t
    case Inn => 0.95
    case Dates => 0.7
    case DocumentNumbers => 0.9
    case Addresses => 0.8
    case BankDetails => 0.9
    case ContactInfo => 0.8
  }

  /** What one detector returns: its type, its confidence, the distinct
      matches (`list(set(...))`, whose order Python leaves unspecified) and
      the number of matches counted with repetitions. */
  datatype Signal = Signal(signalType: SignalType, confidence: real, matches: set<string>, count: nat)

  function Min(a: real, b: real): real
  {
    if a <= b then a else b
  }

  /** `min(n * step, cap) if n else 0.0`. */
  function CappedConfidence(n: nat, step: real, cap: real): (c: real)
    requires 0.0 < step && 0.0 < cap
    ensures 0.0 <= c <= cap
    ensures c <= n as real * step
    ensures c > 0.0 <==> n > 0
    ensures n > 0 && n as real * step <= cap ==> c == n as real * step
    ensures n > 0 && cap <= n as real * step ==> c == cap
  {
    if n == 0 then 0.0 else Min(n as real * step, cap)
  }

  /** The signal a detector of type `t` builds from its validated matches:
      the confidence lies between 0 and the detector's cap, and is positive
      exactly when some match survived validation; `matches` holds the
      validated matches, `count` their number with repetitions. */
  function SignalOf(t: SignalType, validated: seq<string>): (s: Signal)
    ensures s.signalType == t
    ensures 0.0 <= s.confidence <= Cap(t) <= 0.95
    ensures s.confidence > 0.0 <==> |validated| > 0
    ensures s.count == |validated|
    ensures forall m :: m in s.matches <==> m in validated
  {
    Signal(t, CappedConfidence(|validated|, Step(t), Cap(t)), set m | m in validated, |validated|)
  }

  /** `matches` drops repetitions, `count` keeps them: there are never more
      distinct matches than matches, and there are none exactly when the
      count is zero. */
  lemma SignalShape(t: SignalType, validated: seq<string>)
    ensures var s := SignalOf(t, validated);
      && |s.matches| <= s.count
      && (s.matches == {} <==> s.count == 0)
  {
    SetOfSeqSize(validated);
  }

  /** A detector keeps its signal in the result only with a positive confidence. */
  predicate Detected(s: Signal)
  {
    s.confidence > 0.0
  }

  /** The filter of `high_confidence_signals`. */
  predicate IsHigh(s: Signal)
  {
    s.confidence > 0.7
  }

  function RankOf(s: Signal): int
  {
    Rank(s.signalType)
  }

  /** Which signals are high-confidence: an INN signal always, a dates signal
      never (its cap is 0.7), and any other signal once it has two matches. */
  lemma HighConfidenceByType(t: SignalType, validated: seq<string>)
    ensures IsHigh(SignalOf(t, validated)) <==>
      if t == Inn then |validated| >= 1
      else if t == Dates then false
      else |validated| >= 2
  {
  }

  // ---- Matching, as far as it is modelled ----------------------------------

  /** The extend loop every detector runs over its patterns: all matches of
      all patterns, in pattern order, repetitions included. */
  method CollectMatches(found: seq<seq<string>>) returns (matches: seq<string>)
    ensures matches == Flatten(found)
  {
    matches := [];
    for i := 0 to |found|
      invariant matches == Flatten(found[..i])
    {
      assert found[..i + 1][..i] == found[..i];
      matches := matches + found[i];
    }
    assert found[..|found|] == found;
  }

  // ---- INN -----------------------------------------------------------------

  predicate IsAsciiDigit(c: char)
  {
    '0' <= c <= '9'
  }

  predicate AllDigits(s: string)
  {
    forall i :: 0 <= i < |s| ==> IsAsciiDigit(s[i])
  }

  /** `re.match(r"^\d{8}$|^\d{10}$|^\d{12}$", m)`: 8, 10 or 12 digits and
      nothing else, except that `$` also matches just before a newline that
      ends the string. */
  predicate IsValidInn(m: string)
  {
    var body := if |m| > 0 && m[|m| - 1] == '\n' then m[..|m| - 1] else m;
    AllDigits(body) && (|body| == 8 || |body| == 10 || |body| == 12)
  }

  /** For a match that does not end in a newline, validation accepts exactly
      the strings of 8, 10 or 12 digits; a final newline is ignored. */
  lemma InnValidation(m: string)
    requires |m| == 0 || m[|m| - 1] != '\n'
    ensures IsValidInn(m) <==> AllDigits(m) && (|m| == 8 || |m| == 10 || |m| == 12)
    ensures IsValidInn(m + "\n") <==> IsValidInn(m)
  {
  }

  /** The validation loop of `_detect_inn`. */
  method ValidateInns(matches: seq<string>) returns (validated: seq<string>)
    ensures validated == Filter(matches, IsValidInn)
  {
    validated := [];
    for i := 0 to |matches|
      invariant validated == Filter(matches[..i], IsValidInn)
    {
      assert matches[..i + 1][..i] == matches[..i];
      if IsValidInn(matches[i]) {
        validated := validated + [matches[i]];
      }
    }
    assert matches[..|matches|] == matches;
  }

  /** The INN detector's signal for the matches of its patterns. */
  function InnSignal(found: seq<seq<string>>): Signal
  {
    SignalOf(Inn, Filter(Flatten(found), IsValidInn))
  }

  /** `_detect_inn`: keeps the matches that pass INN validation; the
      confidence is positive exactly when one of the patterns matched a valid
      INN, and never exceeds 0.95. */
  method DetectInn(found: seq<seq<string>>) returns (s: Signal)
    ensures s == InnSignal(found)
    ensures 0.0 <= s.confidence <= 0.95
    ensures s.confidence > 0.0 <==>
      exists i, j :: 0 <= i < |found| && 0 <= j < |found[i]| && IsValidInn(found[i][j])
  {
    var matches := CollectMatches(found);
    var validated := ValidateInns(matches);
    s := SignalOf(Inn, validated);
    SignalShape(Inn, validated);
    if exists i, j :: 0 <= i < |found| && 0 <= j < |found[i]| && IsValidInn(found[i][j]) {
      var i, j :| 0 <= i < |found| && 0 <= j < |found[i]| && IsValidInn(found[i][j]);
      FlattenMembership(found, found[i][j]);
      var k :| 0 <= k < |matches| && matches[k] == found[i][j];
    }
    if |validated| > 0 {
      FlattenMembership(found, validated[0]);
    }
  }

  // ---- Dates ---------------------------------------------------------------

  datatype DayYear = DayYear(day: nat, year: nat)

  /** What `_is_valid_date` finds in one matched string: the year of each of
      the six `strptime` formats that parsed it, in format order, and the day
      and year of the Ukrainian and of the English month-name search (None
      when that search found nothing). */
  datatype DateReading = DateReading(parsedYears: seq<int>, ukrainian: Option<DayYear>, english: Option<DayYear>)

  predicate InYearRange(year: int)
  {
    1900 <= year <= 2100
  }

  /** The month-name check: the search matched and its year and day are in range. */
  predicate MonthNameDateOk(found: Option<DayYear>)
  {
    found.Some? && InYearRange(found.value.year) && 1 <= found.value.day <= 31
  }

  /** A date string is valid when a format parsed to a year from 1900 to
      2100, or one month-name search found a year from 1900 to 2100 and a day
      from 1 to 31. */
  predicate DateAccepted(r: DateReading)
  {
    || (exists i :: 0 <= i < |r.parsedYears| && InYearRange(r.parsedYears[i]))
    || MonthNameDateOk(r.ukrainian)
    || MonthNameDateOk(r.english)
  }

  /** `_is_valid_date`: tries the formats in order, then the Ukrainian and
      the English month names. */
  method IsValidDate(r: DateReading) returns (ok: bool)
    ensures ok == DateAccepted(r)
  {
    for i := 0 to |r.parsedYears|
      invariant forall j :: 0 <= j < i ==> !InYearRange(r.parsedYears[j])
    {
      if InYearRange(r.parsedYears[i]) {
        return true;
      }
    }
    if r.ukrainian.Some? {
      var year, day := r.ukrainian.value.year, r.ukrainian.value.day;
      if 1900 <= year <= 2100 && 1 <= day <= 31 {
        return true;
      }
    }
    if r.english.Some? {
      var year, day := r.english.value.year, r.english.value.day;
      if 1900 <= year <= 2100 && 1 <= day <= 31 {
        return true;
      }
    }
    return false;
  }

  /** Without a format that parsed to an in-range year, a month-name date is
      accepted only when 1900 <= year <= 2100 and 1 <= day <= 31. */
  lemma MonthNameBounds(r: DateReading)
    requires forall i :: 0 <= i < |r.parsedYears| ==> !InYearRange(r.parsedYears[i])
    ensures DateAccepted(r) ==> exists d :: (r.ukrainian == Some(d) || r.english == Some(d)) &&
                                          1900 <= d.year <= 2100 && 1 <= d.day <= 31
  {
  }

  /** The test the date detector applies to a matched string. */
  function DateTest(parse: string -> DateReading): string -> bool
  {
    m => DateAccepted(parse(m))
  }

  /** The validation loop of `_detect_dates`. */
  method ValidateDates(matches: seq<string>, parse: string -> DateReading) returns (validated: seq<string>)
    ensures validated == Filter(matches, DateTest(parse))
  {
    validated := [];
    for i := 0 to |matches|
      invariant validated == Filter(matches[..i], DateTest(parse))
    {
      assert matches[..i + 1][..i] == matches[..i];
      var ok := IsValidDate(parse(matches[i]));
      if ok {
        validated := validated + [matches[i]];
      }
    }
    assert matches[..|matches|] == matches;
  }

  function DateSignal(found: seq<seq<string>>, parse: string -> DateReading): Signal
  {
    SignalOf(Dates, Filter(Flatten(found), DateTest(parse)))
  }

  /** `_detect_dates`: keeps the matched strings that `_is_valid_date`
      accepts; the confidence never exceeds 0.7. */
  method DetectDates(found: seq<seq<string>>, parse: string -> DateReading) returns (s: Signal)
    ensures s == DateSignal(found, parse)
    ensures 0.0 <= s.confidence <= 0.7
    ensures forall m :: m in s.matches ==> DateAccepted(parse(m))
  {
    var matches := CollectMatches(found);
    var validated := ValidateDates(matches, parse);
    s := SignalOf(Dates, validated);
    SignalShape(Dates, validated);
  }

  // ---- Detectors without validation ---------------------------------------

  /** `_detect_document_numbers`: every match counts; the confidence never
      exceeds 0.9. */
  method DetectDocumentNumbers(found: seq<seq<string>>) returns (s: Signal)
    ensures s == SignalOf(DocumentNumbers, Flatten(found))
    ensures s.count == TotalLength(found)
    ensures 0.0 <= s.confidence <= 0.9
  {
    var matches := CollectMatches(found);
    s := SignalOf(DocumentNumbers, matches);
    FlattenLength(found);
  }

  /** `_detect_addresses`: every match counts; the confidence never exceeds 0.8. */
  method DetectAddresses(found: seq<seq<string>>) returns (s: Signal)
    ensures s == SignalOf(Addresses, Flatten(found))
    ensures s.count == TotalLength(found)
    ensures 0.0 <= s.confidence <= 0.8
  {
    var matches := CollectMatches(found);
    s := SignalOf(Addresses, matches);
    FlattenLength(found);
  }

  /** `_detect_bank_details`: every match counts; the confidence never exceeds 0.9. */
  method DetectBankDetails(found: seq<seq<string>>) returns (s: Signal)
    ensures s == SignalOf(BankDetails, Flatten(found))
    ensures s.count == TotalLength(found)
    ensures 0.0 <= s.confidence <= 0.9
  {
    var matches := CollectMatches(found);
    s := SignalOf(BankDetails, matches);
    FlattenLength(found);
  }

  /** `_detect_contact_info`: the phone matches followed by the e-mail
      matches; the confidence never exceeds 0.8. */
  method DetectContactInfo(phones: seq<seq<string>>, emails: seq<seq<string>>) returns (s: Signal)
    ensures s == SignalOf(ContactInfo, Flatten(phones) + Flatten(emails))
    ensures s.count == TotalLength(phones) + TotalLength(emails)
    ensures 0.0 <= s.confidence <= 0.8
  {
    var phoneMatches := CollectMatches(phones);
    var emailMatches := CollectMatches(emails);
    s := SignalOf(ContactInfo, phoneMatches + emailMatches);
    FlattenLength(phones);
    FlattenLength(emails);
  }

  // ---- Aggregation ---------------------------------------------------------

  /** The oracle's answers for one text: per detector, the matches of each of
      its patterns, and how the date strings parse. */
  datatype Findings = Findings(
    inn: seq<seq<string>>,
    dates: seq<seq<string>>,
    parseDate: string -> DateReading,
    documents: seq<seq<string>>,
    addresses: seq<seq<string>>,
    bank: seq<seq<string>>,
    phones: seq<seq<string>>,
    emails: seq<seq<string>>)

  /** The six detectors' signals, in run order. */
  function Candidates(f: Findings): seq<Signal>
  {
    [ InnSignal(f.inn),
      DateSignal(f.dates, f.parseDate),
      SignalOf(DocumentNumbers, Flatten(f.documents)),
      SignalOf(Addresses, Flatten(f.addresses)),
      SignalOf(BankDetails, Flatten(f.bank)),
      SignalOf(ContactInfo, Flatten(f.phones) + Flatten(f.emails)) ]
  }

  datatype DetectionResult = DetectionResult(
    confidence: real,
    signals: seq<Signal>,
    signalCount: nat,
    highConfidenceSignals: seq<Signal>,
    detectedDocuments: set<string>,
    textLength: nat,
    analysisComplete: bool)

  /** `_create_empty_result`: the result assembled from no signals at all,
      except that its text length is 0 whatever the text was. */
  function EmptyResult(): (r: DetectionResult)
    ensures r.signals == [] && r.signalCount == |r.signals|
    ensures r.confidence == Min(TotalConfidence(r.signals), 1.0)
    ensures r.highConfidenceSignals == HighConfidenceSignals(r.signals)
    ensures forall d :: d !in r.detectedDocuments
    ensures r.textLength == 0 && r.analysisComplete
  {
    DetectionResult(0.0, [], 0, [], {}, 0, true)
  }

  /** The characters Python's `str.strip()` removes (those for which
      `str.isspace()` holds). */
  predicate IsPythonSpace(c: char)
  {
    || c == '\t' || c == '\n' || c == '\U{B}' || c == '\U{C}' || c == '\r'
    || ('\U{1C}' <= c <= '\U{1F}') || c == ' ' || c == '\U{85}' || c == '\U{A0}'
    || c == '\U{1680}' || ('\U{2000}' <= c <= '\U{200A}') || c == '\U{2028}'
    || c == '\U{2029}' || c == '\U{202F}' || c == '\U{205F}' || c == '\U{3000}'
  }

  /** `not text or not text.strip()`. */
  predicate IsBlank(text: string)
  {
    forall i :: 0 <= i < |text| ==> IsPythonSpace(text[i])
  }

  /** `text.lstrip()`: the text without its leading whitespace. */
  function LStrip(text: string): (r: string)
    ensures |r| <= |text| && r == text[|text| - |r|..]
    ensures r == [] || !IsPythonSpace(r[0])
    ensures forall i :: 0 <= i < |text| - |r| ==> IsPythonSpace(text[i])
  {
    if text == [] || !IsPythonSpace(text[0]) then text else LStrip(text[1..])
  }

  /** A text is blank exactly when stripping its whitespace leaves nothing
      (stripping both ends leaves nothing iff stripping the front does). */
  lemma BlankIffStripEmpty(text: string)
    ensures IsBlank(text) <==> LStrip(text) == []
  {
  }

  /** Python's whitespace includes the ASCII separators 0x1C-0x1F, the
      next-line control and the no-break and ideographic spaces, but not the
      zero-width space or letters. */
  lemma PythonSpaceExamples()
    ensures IsPythonSpace(' ') && IsPythonSpace('\U{1D}') && IsPythonSpace('\U{85}')
    ensures IsPythonSpace('\U{A0}') && IsPythonSpace('\U{3000}')
    ensures !IsPythonSpace('\U{200B}') && !IsPythonSpace('a') && !IsPythonSpace('0')
    ensures IsBlank(" \t\n") && IsBlank("") && !IsBlank(" x ")
  {
    assert " x "[1] == 'x';
  }

  /** Sum of the confidences, in order (`total_confidence`). */
  function TotalConfidence(signals: seq<Signal>): real
  {
    if signals == [] then 0.0
    else TotalConfidence(signals[..|signals| - 1]) + signals[|signals| - 1].confidence
  }

  lemma {:induction false} TotalConfidenceNonNegative(signals: seq<Signal>)
    requires forall i :: 0 <= i < |signals| ==> signals[i].confidence >= 0.0
    ensures TotalConfidence(signals) >= 0.0
  {
    if signals != [] {
      TotalConfidenceNonNegative(signals[..|signals| - 1]);
    }
  }

  /** The total of two lists of signals, one after the other, is the sum of their totals. */
  lemma {:induction false} TotalConfidenceAppend(a: seq<Signal>, b: seq<Signal>)
    ensures TotalConfidence(a + b) == TotalConfidence(a) + TotalConfidence(b)
  {
    if b != [] {
      var init := b[..|b| - 1];
      TotalConfidenceAppend(a, init);
      assert (a + b)[..|a + b| - 1] == a + init;
    } else {
      assert a + b == a;
    }
  }

  /** `[s for s in signals if s["confidence"] > 0.7]`: the signals above
      0.7, in their original order. */
  function HighConfidenceSignals(signals: seq<Signal>): (r: seq<Signal>)
    ensures forall i :: 0 <= i < |r| ==> r[i] in signals && r[i].confidence > 0.7
    ensures forall i :: 0 <= i < |signals| && signals[i].confidence > 0.7 ==> signals[i] in r
    ensures IsSubsequence(r, signals)
  {
    Filter(signals, IsHigh)
  }

  /** `_extract_detected_documents`: the union of the signals' matches. */
  method ExtractDetectedDocuments(signals: seq<Signal>) returns (documents: set<string>)
    ensures forall d :: d in documents <==> exists i :: 0 <= i < |signals| && d in signals[i].matches
  {
    documents := {};
    for i := 0 to |signals|
      invariant forall d :: d in documents <==> exists j :: 0 <= j < i && d in signals[j].matches
    {
      documents := documents + signals[i].matches;
    }
  }

  /** Adds `s` to the reported signals and to the running total when its
      confidence is positive. */
  method Include(signals: seq<Signal>, total: real, s: Signal) returns (signals': seq<Signal>, total': real)
    requires total == TotalConfidence(signals)
    ensures signals' == signals + (if Detected(s) then [s] else [])
    ensures total' == TotalConfidence(signals')
  {
    signals', total' := signals, total;
    if s.confidence > 0.0 {
      signals' := signals + [s];
      total' := total + s.confidence;
      assert signals'[..|signals|] == signals;
    }
  }

  lemma FilterSnoc(xs: seq<Signal>, x: Signal)
    ensures Filter(xs + [x], Detected) == Filter(xs, Detected) + (if Detected(x) then [x] else [])
  {
  }

  /** The detectors run in order, each signal with a positive confidence
      appended to the list and added to the running total. */
  method RunDetectors(f: Findings) returns (signals: seq<Signal>, total: real)
    ensures signals == Filter(Candidates(f), Detected)
    ensures total == TotalConfidence(signals)
  {
    // `run` holds the signals computed so far, detected or not.
    ghost var run: seq<Signal> := [];
    signals, total := [], 0.0;

    var inn := DetectInn(f.inn);
    signals, total := Include(signals, total, inn);
    FilterSnoc(run, inn);
    run := run + [inn];

    var dates := DetectDates(f.dates, f.parseDate);
    signals, total := Include(signals, total, dates);
    FilterSnoc(run, dates);
    run := run + [dates];

    var documents := DetectDocumentNumbers(f.documents);
    signals, total := Include(signals, total, documents);
    FilterSnoc(run, documents);
    run := run + [documents];

    var addresses := DetectAddresses(f.addresses);
    signals, total := Include(signals, total, addresses);
    FilterSnoc(run, addresses);
    run := run + [addresses];

    var bank := DetectBankDetails(f.bank);
    signals, total := Include(signals, total, bank);
    FilterSnoc(run, bank);
    run := run + [bank];

    var contact := DetectContactInfo(f.phones, f.emails);
    signals, total := Include(signals, total, contact);
    FilterSnoc(run, contact);
    run := run + [contact];
    assert run == Candidates(f);
  }

  /** The reported signals have positive confidences, come in run order and
      so carry distinct types, and their total is not negative. */
  lemma DetectedSignals(f: Findings)
    ensures var signals := Filter(Candidates(f), Detected);
      && (forall i :: 0 <= i < |signals| ==> signals[i].confidence > 0.0)
      && (forall i, j :: 0 <= i < j < |signals| ==> Rank(signals[i].signalType) < Rank(signals[j].signalType))
      && TotalConfidence(signals) >= 0.0
  {
    var cands := Candidates(f);
    assert forall i :: 0 <= i < |cands| ==> RankOf(cands[i]) == i;
    FilterKeepsOrder(cands, Detected, RankOf);
    TotalConfidenceNonNegative(Filter(cands, Detected));
  }

  /** `detect_document_signals`. A blank text yields the empty result.
      Otherwise the reported signals are the detectors' signals with a
      positive confidence, in run order; `signal_count` is their number; the
      overall confidence is their sum capped at 1.0; the high-confidence
      signals are those above 0.7 in order; and the detected documents are
      the union of their matches. */
  method DetectDocumentSignals(text: string, f: Findings) returns (r: DetectionResult)
    ensures IsBlank(text) ==> r == EmptyResult()
    ensures !IsBlank(text) ==> r.signals == Filter(Candidates(f), Detected) && r.textLength == |text|
    ensures r.signalCount == |r.signals|
    ensures r.confidence == Min(TotalConfidence(r.signals), 1.0)
    ensures 0.0 <= r.confidence <= 1.0
    ensures forall i :: 0 <= i < |r.signals| ==> r.signals[i].confidence > 0.0
    ensures forall i, j :: 0 <= i < j < |r.signals| ==> Rank(r.signals[i].signalType) < Rank(r.signals[j].signalType)
    ensures r.highConfidenceSignals == HighConfidenceSignals(r.signals)
    ensures forall d :: d in r.detectedDocuments <==> exists i :: 0 <= i < |r.signals| && d in r.signals[i].matches
    ensures r.analysisComplete
  {
    if IsBlank(text) {
      return EmptyResult();
    }
    var signals, total := RunDetectors(f);
    DetectedSignals(f);
    var normalized := Min(total, 1.0);
    var detected := ExtractDetectedDocuments(signals);
    r := DetectionResult(normalized, signals, |signals|, HighConfidenceSignals(signals), detected, |text|, true);
  }

  /** Repeated matches raise the confidence without adding documents: the
      same eight-digit INN found by two patterns gives a count of 2, one
      distinct match and confidence 0.95. */
  lemma RepeatedInnMatch()
    ensures var s := InnSignal([["12345678"], ["12345678"]]);
      s.count == 2 && s.matches == {"12345678"} && s.confidence == 0.95
  {
    var found := [["12345678"], ["12345678"]];
    assert found[..1] == [["12345678"]];
    assert Flatten(found) == ["12345678", "12345678"];
    assert IsValidInn("12345678");
    var v := Filter(Flatten(found), IsValidInn);
    assert ["12345678", "12345678"][..1] == ["12345678"];
    assert v == ["12345678", "12345678"];
  }
}
