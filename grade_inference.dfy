/**
 * `inferGradeFromRaw` and `normalizeGradeSection` of the feeding page: the
 * strategies that read a grade key out of a free-text grade/section string,
 * and the canonical `"<grade> - <section>"` display built from them.
 *
 * Each regular expression is modelled by the scanner it amounts to. All of
 * them are anchored with `^` and end in `(.*)$` without the `m` flag, so a
 * match needs the captured tail to hold no line terminator; every other
 * quantifier is greedy and backtracking into it only lengthens that tail,
 * so each pattern matches exactly when its greedy path does.
 */
module GradeInference {
  import opened JsString
  import opened SectionName
  import opened FeedingMapping

  /* -------------------------- the four patterns -------------------------- */

  /** The two groups of the kindergarten pattern: the `K`, `K1` or `K2`
      token and the section text after the separator. */
  datatype KCapture = KCapture(kpref: string, rest: string)

  /** `^\s*(K(?:1|2)?)\s*[-\s]?(.*)$` with the `i` flag. */
  function KMatch(s: string): (m: Option<KCapture>)
    ensures m.Some? ==> SingleLine(m.value.rest)
    ensures m.Some? ==> 1 <= |m.value.kpref| <= 2 && UpperChar(m.value.kpref[0]) == 'K'
  {
    var a := SkipSpaces(s, 0);
    if a < |s| && (s[a] == 'K' || s[a] == 'k') then
      var p := if a + 1 < |s| && (s[a + 1] == '1' || s[a + 1] == '2') then a + 2 else a + 1;
      var q := SkipSpaces(s, p);
      if SingleLine(s[q..]) then
        Some(KCapture(s[a..p], if q < |s| && s[q] == '-' then s[q + 1..] else s[q..]))
      else None
    else None
  }

  /** `\s*[-\s]\s*(.*)$` matched from position `d`. */
  predicate SeparatedTail(s: string, d: nat)
    requires d <= |s|
  {
    var q := SkipSpaces(s, d);
    if q < |s| && s[q] == '-' then SingleLine(s[SkipSpaces(s, q + 1)..])
    else q > d && SingleLine(s[q..])
  }

  /** One past the greedy `[0-9]{1,2}` that starts at `a`. */
  function LeadingDigits(s: string, a: nat): (d: nat)
    requires a <= |s|
    ensures a <= d <= a + 2 && d <= |s|
    ensures forall k | a <= k < d :: IsDigit(s[k])
    ensures d < a + 2 && d < |s| ==> !IsDigit(s[d])
  {
    if a < |s| && IsDigit(s[a]) then
      if a + 1 < |s| && IsDigit(s[a + 1]) then a + 2 else a + 1
    else a
  }

  /** `^\s*([0-9]{1,2})\s*[-\s]\s*(.*)$`: the one- or two-digit group. */
  function NumMatch(s: string): (m: Option<string>)
    ensures m.Some? ==> 1 <= |m.value| <= 2 && AllDigits(m.value)
  {
    var a := SkipSpaces(s, 0);
    var d := LeadingDigits(s, a);
    if d > a && SeparatedTail(s, d) then Some(s[a..d]) else None
  }

  /** A letter of `[IVXLCDM]` under the `i` flag. */
  predicate IsRomanLetterIgnoringCase(c: char) {
    IsRomanLetter(UpperChar(c))
  }

  /** One past the maximal run of Roman letters that starts at `i`. */
  function RomanRunEnd(s: string, i: nat): (d: nat)
    requires i <= |s|
    ensures i <= d <= |s|
    ensures forall k | i <= k < d :: IsRomanLetterIgnoringCase(s[k])
    ensures d == |s| || !IsRomanLetterIgnoringCase(s[d])
    decreases |s| - i
  {
    if i < |s| && IsRomanLetterIgnoringCase(s[i]) then RomanRunEnd(s, i + 1) else i
  }

  /** `^\s*([IVXLCDM]+)\s*[-\s]\s*(.*)$` with the `i` flag: the letter group. */
  function RomanMatch(s: string): (m: Option<string>)
    ensures m.Some? ==> m.value != [] && forall k | 0 <= k < |m.value| :: IsRomanLetterIgnoringCase(m.value[k])
  {
    var a := SkipSpaces(s, 0);
    var d := RomanRunEnd(s, a);
    if d > a && SeparatedTail(s, d) then Some(s[a..d]) else None
  }

  /** On text with no leading white space, the Roman pattern fails: the
      text has no leading Roman letter, is nothing but Roman letters, or
      the run of them is followed by something other than white space or
      a hyphen (as in `LILAC` or `Music`). */
  predicate RomanBlocked(s: string) {
    var d := RomanRunEnd(s, 0);
    d == 0 || d == |s| || (!IsSpace(s[d]) && s[d] != '-')
  }

  /** One past the maximal run of digits that starts at `j`. */
  function DigitRunEnd(s: string, j: nat): (e: nat)
    requires j <= |s|
    ensures j <= e <= |s|
    ensures forall k | j <= k < e :: IsDigit(s[k])
    ensures e == |s| || !IsDigit(s[e])
    decreases |s| - j
  {
    if j < |s| && IsDigit(s[j]) then DigitRunEnd(s, j + 1) else j
  }

  /** `GRADE\s*[0-9]` (any case) can match starting at `i`. */
  predicate GradeWordAt(s: string, i: nat) {
    i + 5 <= |s| && Upper(s[i..i + 5]) == "GRADE" &&
    var j := SkipSpaces(s, i + 5); j < |s| && IsDigit(s[j])
  }

  /** The digit group of the leftmost match of `GRADE\s*([0-9]+)` at or after `i`. */
  function GradeWordFrom(s: string, i: nat): (m: Option<string>)
    requires i <= |s|
    ensures m.Some? ==> m.value != [] && AllDigits(m.value)
    ensures m.None? <==> forall k | i <= k <= |s| :: !GradeWordAt(s, k)
    decreases |s| - i
  {
    if GradeWordAt(s, i) then
      var j := SkipSpaces(s, i + 5);
      Some(s[j..DigitRunEnd(s, j)])
    else if i == |s| then None
    else GradeWordFrom(s, i + 1)
  }

  /** `s.match(/GRADE\s*([0-9]+)/i)`: the digit group, if any match. */
  function GradeWordMatch(s: string): Option<string> {
    GradeWordFrom(s, 0)
  }

  /* ----------------------------- inference ----------------------------- */

  /** The kindergarten branch (lines 247-258): a section found in the K1
      roster gives K1, one in the K2 roster gives K2, then the token decides,
      and a bare `K` defaults to K1. */
  function KindergartenGrade(c: KCapture): (g: string)
    ensures g == "K1" || g == "K2"
  {
    var sec := NormalizeSectionName(c.rest);
    if sec != [] && RosterHas("K1", sec) then "K1"
    else if sec != [] && RosterHas("K2", sec) then "K2"
    else if Upper(c.kpref) == "K1" then "K1"
    else if Upper(c.kpref) == "K2" then "K2"
    else "K1"
  }

  /** The strategies after the kindergarten one, on the trimmed string:
      numeric prefix, Roman prefix, embedded `GRADE n`, section only. */
  function InferAfterKindergarten(s: string): Option<string> {
    match NumMatch(s)
    case Some(ds) => Some(DecimalString(DigitsValue(ds)))
    case None =>
      var roman := RomanMatch(s);
      if roman.Some? && ParseGradePrefix(roman.value).Some? then ParseGradePrefix(roman.value)
      else
        match GradeWordMatch(s)
        case Some(ds) => Some(DecimalString(DigitsValue(ds)))
        case None =>
          var secOnly := NormalizeSectionName(s);
          if secOnly != [] then SectionOwner(secOnly) else None
  }

  /** `inferGradeFromRaw` as a value. */
  function InferredGrade(raw: string): Option<string> {
    if raw == [] then None
    else
      var s := Trim(raw);
      if s == [] then None
      else
        match KMatch(s)
        case Some(c) => Some(KindergartenGrade(c))
        case None => InferAfterKindergarten(s)
  }

  /** `inferGradeFromRaw` (lines 239-287), with its early returns and the
      section-only search over the roster keys. */
  method InferGradeFromRaw(raw: string) returns (grade: Option<string>)
    ensures grade == InferredGrade(raw)
  {
    if raw == [] {
      return None;
    }
    var s := Trim(raw);
    if s == [] {
      return None;
    }
    var kMatch := KMatch(s);
    if kMatch.Some? {
      return Some(KindergartenGrade(kMatch.value));
    }
    var numMatch := NumMatch(s);
    if numMatch.Some? {
      return Some(DecimalString(DigitsValue(numMatch.value)));
    }
    var romanMatch := RomanMatch(s);
    if romanMatch.Some? {
      var parsed := ParseGradePrefix(romanMatch.value);
      if parsed.Some? {
        return parsed;
      }
    }
    var gradeWordMatch := GradeWordMatch(s);
    if gradeWordMatch.Some? {
      return Some(DecimalString(DigitsValue(gradeWordMatch.value)));
    }
    var secOnly := NormalizeSectionName(s);
    if secOnly != [] {
      grade := FindFirstKey(FeedingKeys, OwnsSection(secOnly));
      return;
    }
    return None;
  }

  /* ------------------------- normalizeGradeSection ------------------------- */

  /** A grade key and a section name. */
  datatype GradeSection = GradeSection(grade: string, section: string)

  /** The display string `"<grade> - <section>"`. */
  function Display(gs: GradeSection): string {
    gs.grade + " - " + gs.section
  }

  /** The separators of the hyphen split at line 296: the hyphen, the en and
      em dash, and the mis-decoded `‚ Ä ì î`. */
  predicate IsSplitDash(c: char) {
    c == '-' || c == '\U{201A}' || c == '\U{00C4}' || c == '\U{00EC}' || c == '\U{00EE}' || c == '\U{2013}' || c == '\U{2014}'
  }

  /** A token of `/^[0-9IVXLCDM]+$/i`. */
  predicate IsNumeralToken(t: string) {
    t != [] && forall k | 0 <= k < |t| :: IsDigit(t[k]) || IsRomanLetterIgnoringCase(t[k])
  }

  /** The prefix candidate and the section remainder of lines 292-308. */
  datatype Split = Split(prefix: Option<string>, sectionPart: string)

  /** With a hyphen: the first of at least two non-empty trimmed dash-separated
      parts is the prefix, the others joined by `" - "` the remainder.
      Without one: a leading numeral token before whitespace is the prefix,
      the other tokens joined by single spaces the remainder. */
  function SplitGradeSection(s: string): Split {
    if '-' in s then SplitAtDashes(s) else SplitAtSpaces(s)
  }

  /** The hyphen branch over the already split parts. */
  function SplitAtDashes(s: string): Split {
    SplitParts(NonEmpty(TrimEach(SplitBy(s, IsSplitDash))), s)
  }

  function SplitParts(parts: seq<string>, s: string): Split {
    if |parts| >= 2 then Split(Some(parts[0]), Join(parts[1..], " - ")) else Split(None, s)
  }

  /** The whitespace branch. */
  function SplitAtSpaces(s: string): Split {
    var tokens := SplitOnSpaceRuns(s);
    if |tokens| > 1 && IsNumeralToken(tokens[0]) then Split(Some(tokens[0]), Join(tokens[1..], " "))
    else Split(None, s)
  }

  /** `/^K\b/i.test(s) || /^K-/.test(s)`. */
  predicate KFallback(s: string) {
    (|s| > 0 && (s[0] == 'K' || s[0] == 'k') && (|s| == 1 || !IsWordChar(s[1])))
    || (|s| > 1 && s[0] == 'K' && s[1] == '-')
  }

  /** The grade chosen at lines 310-332: whole-string inference, then the
      prefix, then the roster owner of the section, then the K fallback. */
  function ResolveGrade(s: string, prefix: Option<string>, normalizedSection: string): string {
    match InferredGrade(s)
    case Some(g) => g
    case None =>
      var parsed := if prefix.Some? && prefix.value != [] then ParseGradePrefix(prefix.value) else None;
      if parsed.Some? then parsed.value
      else
        var owner := if normalizedSection != [] then SectionOwner(normalizedSection) else None;
        if owner.Some? then owner.value
        else if KFallback(s) then "K1"
        else "UNKNOWN"
  }

  /** `normalizeGradeSection` as a grade/section pair. */
  function ResolveGradeSection(raw: string): GradeSection {
    if raw == [] then GradeSection("UNKNOWN", "UNKNOWN")
    else
      var s := Trim(raw);
      var split := SplitGradeSection(s);
      var normalizedSection := NormalizeSectionName(split.sectionPart);
      GradeSection(ResolveGrade(s, split.prefix, normalizedSection),
                   if normalizedSection == [] then "UNKNOWN" else normalizedSection)
  }

  /** `normalizeGradeSection` (lines 289-338), reassigning `prefix`,
      `sectionPart` and `inferredGrade` as the source does. */
  method NormalizeGradeSection(raw: string) returns (display: string)
    ensures display == Display(ResolveGradeSection(raw))
  {
    if raw == [] {
      return "UNKNOWN - UNKNOWN";
    }
    var s := Trim(raw);
    var prefix: Option<string> := None;
    var sectionPart := s;
    if '-' in s {
      var parts := NonEmpty(TrimEach(SplitBy(s, IsSplitDash)));
      if |parts| >= 2 {
        prefix := Some(parts[0]);
        sectionPart := Join(parts[1..], " - ");
      }
    } else {
      var tokens := SplitOnSpaceRuns(s);
      if |tokens| > 1 && IsNumeralToken(tokens[0]) {
        prefix := Some(tokens[0]);
        sectionPart := Join(tokens[1..], " ");
      }
    }
    assert Split(prefix, sectionPart) == SplitGradeSection(s);
    var normalizedSection := NormalizeSectionName(sectionPart);
    var inferredGrade := InferGradeFromRaw(s);
    if inferredGrade.None? && prefix.Some? && prefix.value != [] {
      var parsed := ParseGradePrefix(prefix.value);
      if parsed.Some? {
        inferredGrade := parsed;
      }
    }
    if inferredGrade.None? && normalizedSection != [] {
      inferredGrade := FindFirstKey(FeedingKeys, OwnsSection(normalizedSection));
    }
    var grade := "";
    if inferredGrade.None? {
      if KFallback(s) {
        grade := "K1";
      } else {
        grade := "UNKNOWN";
      }
    } else {
      grade := inferredGrade.value;
    }
    var outSection := if normalizedSection == [] then "UNKNOWN" else normalizedSection;
    return grade + " - " + outSection;
  }

  /* ------------------------------ properties ------------------------------ */

  /** Every single-line string that starts with `k` or `K` is taken by the
      kindergarten pattern and resolves to K1 or K2. */
  lemma KInitialIsKindergarten(raw: string)
    requires var s := Trim(raw); s != [] && (s[0] == 'K' || s[0] == 'k') && SingleLine(s)
    ensures KMatch(Trim(raw)).Some?
    ensures InferredGrade(raw) == Some("K1") || InferredGrade(raw) == Some("K2")
  {
    KMatchOnK(Trim(raw));
  }

  lemma KMatchOnK(s: string)
    requires s != [] && (s[0] == 'K' || s[0] == 'k') && SingleLine(s)
    ensures KMatch(s).Some?
  {
    assert SkipSpaces(s, 0) == 0;
    var p := if 1 < |s| && (s[1] == '1' || s[1] == '2') then 2 else 1;
    var q := SkipSpaces(s, p);
    assert forall k | 0 <= k < |s[q..]| :: s[q..][k] == s[q + k];
  }

  /** The kindergarten branch: K1-roster membership beats K2-roster
      membership, which beats the `K1`/`K2` token; anything else is K1. */
  lemma KindergartenPrecedence(c: KCapture)
    ensures NormalizeSectionName(c.rest) in K1Sections ==> KindergartenGrade(c) == "K1"
    ensures NormalizeSectionName(c.rest) !in K1Sections && NormalizeSectionName(c.rest) in K2Sections ==>
      KindergartenGrade(c) == "K2"
    ensures NormalizeSectionName(c.rest) !in K1Sections && NormalizeSectionName(c.rest) !in K2Sections ==>
      KindergartenGrade(c) == if Upper(c.kpref) == "K2" then "K2" else "K1"
  {
    var sec := NormalizeSectionName(c.rest);
    RosterTest("K1", sec);
    RosterTest("K2", sec);
  }

  /** A leading token of one or two digits followed by a space or a hyphen
      gives that number as the grade, whatever its value. */
  lemma NumericPrefixWins(raw: string, d: nat)
    requires var s := Trim(raw);
      && 1 <= d <= 2 && d < |s| && SingleLine(s)
      && (forall k | 0 <= k < d :: IsDigit(s[k]))
      && (IsSpace(s[d]) || s[d] == '-')
    ensures var s := Trim(raw);
      InferredGrade(raw) == Some(DecimalString(DigitsValue(s[..d])))
  {
    var s := Trim(raw);
    NotKindergarten(s);
    NumMatchAt(s, d);
  }

  /** A trimmed string that does not start with `k` or `K` escapes the kindergarten pattern. */
  lemma NotKindergarten(s: string)
    requires s != [] && !IsSpace(s[0]) && s[0] != 'K' && s[0] != 'k'
    ensures KMatch(s).None?
  {
    assert SkipSpaces(s, 0) == 0;
  }

  lemma NumMatchAt(s: string, d: nat)
    requires 1 <= d <= 2 && d < |s| && SingleLine(s) && !IsSpace(s[0])
    requires forall k | 0 <= k < d :: IsDigit(s[k])
    requires IsSpace(s[d]) || s[d] == '-'
    ensures NumMatch(s) == Some(s[..d])
  {
    assert SkipSpaces(s, 0) == 0;
    assert LeadingDigits(s, 0) == d;
    SingleLineTails(s, d);
  }

  /** The separator-and-tail part matches after `d` on a single-line string
      whose character at `d` is a space or a hyphen. */
  lemma SingleLineTails(s: string, d: nat)
    requires d < |s| && SingleLine(s)
    requires IsSpace(s[d]) || s[d] == '-'
    ensures SeparatedTail(s, d)
  {
    var q := SkipSpaces(s, d);
    if q < |s| && s[q] == '-' {
      var r := SkipSpaces(s, q + 1);
      assert forall k | 0 <= k < |s[r..]| :: s[r..][k] == s[r + k];
    } else {
      assert forall k | 0 <= k < |s[q..]| :: s[q..][k] == s[q + k];
    }
  }

  /** A leading Roman-letter token followed by a space or a hyphen gives its
      `parseGradePrefix` value when it has one. */
  lemma RomanPrefixWins(raw: string, d: nat)
    requires var s := Trim(raw);
      && 1 <= d < |s| && SingleLine(s)
      && (forall k | 0 <= k < d :: IsRomanLetterIgnoringCase(s[k]))
      && (IsSpace(s[d]) || s[d] == '-')
      && ParseGradePrefix(s[..d]).Some?
    ensures InferredGrade(raw) == ParseGradePrefix(Trim(raw)[..d])
  {
    var s := Trim(raw);
    NotKindergarten(s);
    assert NumMatch(s).None? by {
      assert SkipSpaces(s, 0) == 0;
      assert LeadingDigits(s, 0) == 0;
    }
    RomanMatchAt(s, d);
  }

  lemma RomanMatchAt(s: string, d: nat)
    requires 1 <= d < |s| && SingleLine(s) && !IsSpace(s[0])
    requires forall k | 0 <= k < d :: IsRomanLetterIgnoringCase(s[k])
    requires IsSpace(s[d]) || s[d] == '-'
    ensures RomanMatch(s) == Some(s[..d])
  {
    assert SkipSpaces(s, 0) == 0;
    RomanRunFrom(s, 0, d);
    SingleLineTails(s, d);
  }

  lemma {:induction false} RomanRunFrom(s: string, i: nat, d: nat)
    requires i <= d <= |s|
    requires forall k | i <= k < d :: IsRomanLetterIgnoringCase(s[k])
    requires d == |s| || !IsRomanLetterIgnoringCase(s[d])
    ensures RomanRunEnd(s, i) == d
    decreases d - i
  {
    if i < d { RomanRunFrom(s, i + 1, d); }
  }

  /** The embedded `GRADE n` match is the leftmost occurrence of `GRADE`,
      whitespace and a digit, and captures the whole digit run there. */
  lemma {:induction false} GradeWordFromLeftmost(s: string, i: nat)
    requires i <= |s|
    ensures GradeWordFrom(s, i).Some? ==> exists p | i <= p <= |s| ::
      && GradeWordAt(s, p)
      && (forall k | i <= k < p :: !GradeWordAt(s, k))
      && var j := SkipSpaces(s, p + 5); GradeWordFrom(s, i).value == s[j..DigitRunEnd(s, j)]
    decreases |s| - i
  {
    if !GradeWordAt(s, i) && i < |s| {
      GradeWordFromLeftmost(s, i + 1);
      if GradeWordFrom(s, i).Some? {
        var p :| i + 1 <= p <= |s| && GradeWordAt(s, p) && (forall k | i + 1 <= k < p :: !GradeWordAt(s, k))
          && var j := SkipSpaces(s, p + 5); GradeWordFrom(s, i + 1).value == s[j..DigitRunEnd(s, j)];
        assert forall k | i <= k < p :: !GradeWordAt(s, k);
      }
    }
  }

  /** Without a kindergarten, numeric or Roman prefix, an embedded
      `GRADE n` gives `n`. */
  lemma GradeWordWins(raw: string, ds: string)
    requires var s := Trim(raw);
      && s != [] && s[0] != 'K' && s[0] != 'k' && !IsDigit(s[0]) && RomanBlocked(s)
      && GradeWordMatch(s) == Some(ds)
    ensures AllDigits(ds)
    ensures InferredGrade(raw) == Some(DecimalString(DigitsValue(ds)))
  {
    var s := Trim(raw);
    NotKindergarten(s);
    NoNumeralPrefix(s);
  }

  /** Text starting with neither white space nor a digit, whose Roman run
      is blocked, matches neither prefix pattern. */
  lemma NoNumeralPrefix(s: string)
    requires s != [] && !IsSpace(s[0]) && !IsDigit(s[0]) && RomanBlocked(s)
    ensures NumMatch(s).None? && RomanMatch(s).None?
  {
    assert SkipSpaces(s, 0) == 0;
    assert LeadingDigits(s, 0) == 0;
    var d := RomanRunEnd(s, 0);
    if 0 < d < |s| {
      assert SkipSpaces(s, d) == d;
    }
  }

  /** When no pattern applies, the whole string is looked up as a section
      name: the first roster key, in property order, that lists it. */
  lemma SectionOnlyFallback(raw: string)
    requires var s := Trim(raw);
      && s != [] && s[0] != 'K' && s[0] != 'k' && !IsDigit(s[0]) && RomanBlocked(s)
      && GradeWordMatch(s).None?
    ensures var sec := NormalizeSectionName(Trim(raw));
      InferredGrade(raw) == if sec == [] then None else SectionOwner(sec)
  {
    var s := Trim(raw);
    NotKindergarten(s);
    NoNumeralPrefix(s);
  }

  /** The grade labels `normalizeGradeSection` can produce: K1, K2, the
      sentinel, or a decimal number. */
  predicate IsGradeLabel(g: string) {
    g == "K1" || g == "K2" || g == "UNKNOWN" || (g != [] && AllDigits(g))
  }

  /** A grade label other than the sentinel. */
  predicate IsInferredLabel(g: string) {
    IsGradeLabel(g) && g != "UNKNOWN"
  }

  lemma DecimalIsLabel(n: nat)
    ensures IsInferredLabel(DecimalString(n))
  {
    assert !IsDigit('U');
  }

  lemma KeysAreLabels(g: string)
    requires g in FeedingKeys
    ensures IsInferredLabel(g)
  {
  }

  lemma OwnerIsLabel(sec: string)
    ensures SectionOwner(sec).Some? ==> IsInferredLabel(SectionOwner(sec).value)
  {
    SectionOwnerIsKey(sec);
    if SectionOwner(sec).Some? { KeysAreLabels(SectionOwner(sec).value); }
  }

  lemma ParsedIsLabel(pref: string)
    ensures ParseGradePrefix(pref).Some? ==> IsInferredLabel(ParseGradePrefix(pref).value)
  {
    ParseGradePrefixRange(pref);
    if ParseGradePrefix(pref).Some? {
      var n :| 1 <= n <= 12 && ParseGradePrefix(pref).value == DecimalString(n);
      DecimalIsLabel(n);
    }
  }

  lemma InferAfterKindergartenIsLabel(s: string)
    ensures InferAfterKindergarten(s).Some? ==> IsInferredLabel(InferAfterKindergarten(s).value)
  {
    match NumMatch(s)
    case Some(ds) => DecimalIsLabel(DigitsValue(ds));
    case None =>
      var roman := RomanMatch(s);
      if roman.Some? && ParseGradePrefix(roman.value).Some? {
        ParsedIsLabel(roman.value);
      } else {
        match GradeWordMatch(s)
        case Some(ds) => DecimalIsLabel(DigitsValue(ds));
        case None => OwnerIsLabel(NormalizeSectionName(s));
      }
  }

  /** Every grade `inferGradeFromRaw` returns is K1, K2 or a decimal number. */
  lemma InferredGradeIsLabel(raw: string)
    ensures InferredGrade(raw).Some? ==> IsInferredLabel(InferredGrade(raw).value)
  {
    if raw != [] && Trim(raw) != [] {
      InferAfterKindergartenIsLabel(Trim(raw));
    }
  }

  /** Every result is a grade label and a non-empty normalised section name. */
  lemma ResolveGradeSectionShape(raw: string)
    ensures var gs := ResolveGradeSection(raw);
      IsGradeLabel(gs.grade) && gs.section != [] && IsNormalSection(gs.section)
  {
    assert IsNormalSection("UNKNOWN");
    if raw != [] {
      var s := Trim(raw);
      var split := SplitGradeSection(s);
      var normalizedSection := NormalizeSectionName(split.sectionPart);
      NormalizeSectionNameShape(split.sectionPart);
      InferredGradeIsLabel(s);
      if split.prefix.Some? { ParsedIsLabel(split.prefix.value); }
      OwnerIsLabel(normalizedSection);
    }
  }

  /** Empty or all-whitespace input gives `UNKNOWN - UNKNOWN`. */
  lemma ResolveBlank(raw: string)
    requires forall k | 0 <= k < |raw| :: IsSpace(raw[k])
    ensures ResolveGradeSection(raw) == GradeSection("UNKNOWN", "UNKNOWN")
    ensures Display(ResolveGradeSection(raw)) == "UNKNOWN - UNKNOWN"
  {
    if raw != [] {
      assert Trim(raw) == [];
      assert SplitOnSpaceRuns([]) == [[]];
    }
  }

  /** A leading token of one or two digits decides the resolved grade too:
      whole-string inference runs before the prefix and the roster lookup. */
  lemma NumericPrefixDecides(raw: string, d: nat)
    requires var s := Trim(raw);
      && 1 <= d <= 2 && d < |s| && SingleLine(s)
      && (forall k | 0 <= k < d :: IsDigit(s[k]))
      && (IsSpace(s[d]) || s[d] == '-')
    ensures var s := Trim(raw);
      ResolveGradeSection(raw).grade == DecimalString(DigitsValue(s[..d]))
  {
    var s := Trim(raw);
    TrimIdentity(s);
    NumericPrefixWins(s, d);
  }

  /** No character of `s` separates the hyphen split. */
  predicate NoSplitDash(s: string) {
    forall k | 0 <= k < |s| :: !IsSplitDash(s[k])
  }

  /** A string with one split dash, at `i`, splits into the text around it. */
  lemma SplitByOneDash(s: string, i: nat)
    requires i < |s| && IsSplitDash(s[i])
    requires forall k | 0 <= k < |s| && k != i :: !IsSplitDash(s[k])
    ensures SplitBy(s, IsSplitDash) == [s[..i], s[i + 1..]]
  {
    SplitByAt(s, IsSplitDash, i);
    var t := s[i + 1..];
    assert forall k | 0 <= k < |t| :: t[k] == s[i + 1 + k];
    SplitByNone(t, IsSplitDash);
  }

  /** Two non-blank dash-separated parts become prefix and remainder. */
  lemma DashBranch(s: string, a: string, b: string)
    requires '-' in s && SplitBy(s, IsSplitDash) == [a, b]
    requires Trim(a) != [] && Trim(b) != []
    ensures SplitGradeSection(s) == Split(Some(Trim(a)), Trim(b))
  {
    var parts := TrimEach([a, b]);
    assert parts == [Trim(a), Trim(b)];
    assert NonEmpty(parts) == parts;
    assert parts[1..] == [Trim(b)];
    assert Join([Trim(b)], " - ") == Trim(b);
  }

  /** `p-rest` with no other dash: the trimmed `p` is the prefix and the
      trimmed `rest` the section remainder. */
  lemma DashSplit(p: string, rest: string)
    requires NoSplitDash(p) && NoSplitDash(rest)
    requires Trim(p) != [] && Trim(rest) != []
    ensures SplitGradeSection(p + "-" + rest) == Split(Some(Trim(p)), Trim(rest))
  {
    var s := p + "-" + rest;
    assert s[|p|] == '-';
    forall k | 0 <= k < |s| && k != |p|
      ensures !IsSplitDash(s[k])
    {
      if k < |p| { assert s[k] == p[k]; } else { assert s[k] == rest[k - |p| - 1]; }
    }
    SplitByOneDash(s, |p|);
    assert s[..|p|] == p && s[|p| + 1..] == rest;
    DashBranch(s, p, rest);
  }

  /** The hyphenated input `p-rest` whose prefix does not start like a
      kindergarten token or a number, is not a Roman token before the
      separator (a word such as `Level 3` is allowed), and whose whole text
      matches no pattern. */
  predicate UninferredDashed(p: string, rest: string) {
    && p != [] && rest != [] && !IsSpace(p[0]) && !IsSpace(rest[|rest| - 1])
    && NoSplitDash(p) && NoSplitDash(rest)
    && p[0] != 'K' && p[0] != 'k' && !IsDigit(p[0]) && RomanBlocked(p + "-" + rest)
    && GradeWordMatch(p + "-" + rest).None?
    && SectionOwner(NormalizeSectionName(p + "-" + rest)).None?
  }

  /** Such an input is already trimmed. */
  lemma UninferredDashedTrim(p: string, rest: string)
    requires p != [] && rest != [] && !IsSpace(p[0]) && !IsSpace(rest[|rest| - 1])
    requires p[0] != 'K' && p[0] != 'k'
    ensures Trim(p + "-" + rest) == p + "-" + rest
    ensures Trim(p) != [] && Trim(rest) != []
    ensures !KFallback(p + "-" + rest)
  {
    var s := p + "-" + rest;
    assert s[0] == p[0] && s[|s| - 1] == rest[|rest| - 1];
    TrimIdentity(s);
  }

  /** No strategy of `inferGradeFromRaw` reads such an input. */
  lemma UninferredDashedNone(p: string, rest: string)
    requires UninferredDashed(p, rest)
    ensures InferredGrade(p + "-" + rest).None?
  {
    var s := p + "-" + rest;
    UninferredDashedTrim(p, rest);
    assert s[0] == p[0];
    SectionOnlyFallback(s);
  }

  /** After inference has failed, the grade of a trimmed string that
      splits into a prefix and a remainder. */
  lemma ResolveUninferred(s: string, pre: string, sec: string)
    requires s != [] && Trim(s) == s && InferredGrade(s).None? && !KFallback(s)
    requires SplitGradeSection(s) == Split(Some(pre), sec) && pre != []
    ensures var parsed := ParseGradePrefix(pre);
      var ns := NormalizeSectionName(sec);
      var owner := if ns != [] then SectionOwner(ns) else None;
      ResolveGradeSection(s).grade ==
        if parsed.Some? then parsed.value else if owner.Some? then owner.value else "UNKNOWN"
  {
  }

  /** The grade chosen for such an input after inference has failed. */
  lemma UninferredDashedSplit(p: string, rest: string)
    requires UninferredDashed(p, rest)
    ensures var parsed := ParseGradePrefix(Trim(p));
      var sec := NormalizeSectionName(Trim(rest));
      var owner := if sec != [] then SectionOwner(sec) else None;
      ResolveGradeSection(p + "-" + rest).grade ==
        if parsed.Some? then parsed.value else if owner.Some? then owner.value else "UNKNOWN"
  {
    var s := p + "-" + rest;
    UninferredDashedTrim(p, rest);
    UninferredDashedNone(p, rest);
    DashSplit(p, rest);
    ResolveUninferred(s, Trim(p), Trim(rest));
  }

  /** When no pattern reads the whole string, a prefix that
      `parseGradePrefix` accepts decides the grade, whatever roster lists
      the section after the dash. */
  lemma PrefixBeatsSection(p: string, rest: string)
    requires UninferredDashed(p, rest)
    requires ParseGradePrefix(Trim(p)).Some?
    ensures ResolveGradeSection(p + "-" + rest).grade == ParseGradePrefix(Trim(p)).value
  {
    UninferredDashedSplit(p, rest);
  }

  /** With a prefix `parseGradePrefix` rejects, the first roster listing
      the normalised text after the dash decides the grade. */
  lemma SectionBeatsFallback(p: string, rest: string)
    requires UninferredDashed(p, rest)
    requires ParseGradePrefix(Trim(p)).None?
    requires var sec := NormalizeSectionName(Trim(rest)); sec != [] && SectionOwner(sec).Some?
    ensures ResolveGradeSection(p + "-" + rest).grade == SectionOwner(NormalizeSectionName(Trim(rest))).value
  {
    UninferredDashedSplit(p, rest);
  }

  /** On single-line input the `K` fallback never decides: a string it
      would accept is already resolved by the kindergarten pattern. */
  lemma KFallbackUnreachable(raw: string)
    requires raw != [] && SingleLine(Trim(raw)) && KFallback(Trim(raw))
    ensures InferredGrade(Trim(raw)).Some?
    ensures ResolveGradeSection(raw).grade == InferredGrade(Trim(raw)).value
    ensures ResolveGradeSection(raw).grade == "K1" || ResolveGradeSection(raw).grade == "K2"
  {
    var s := Trim(raw);
    TrimIdentity(s);
    KInitialIsKindergarten(s);
  }
}
