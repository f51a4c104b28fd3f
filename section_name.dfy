/**
 * The two leaf normalisers of the feeding page: `normalizeSectionName`,
 * which reduces a section string to upper-case, single-spaced text over
 * `[A-Z0-9_ &.-]`, and `parseGradePrefix`, which reads a grade number out
 * of a short token in Arabic or Roman numerals.
 */
module SectionName {
  import opened JsString

  /** The long-dash class of `normalizeSectionName`: U+2012 to U+2015, and
      the characters `‚ Ä ì î` that a mis-decoded en or em dash leaves behind. */
  predicate IsLongDash(c: char) {
    ('\U{2012}' <= c <= '\U{2015}') || c == '\U{201A}' || c == '\U{00C4}' || c == '\U{00EC}' || c == '\U{00EE}'
  }

  /** Characters that survive `replace(/[^\w\s&\.-]/g, " ")`. */
  predicate IsKeptChar(c: char) {
    IsWordChar(c) || IsSpace(c) || c == '&' || c == '.' || c == '-'
  }

  /** Number of copies of `q` at the start of `s`. */
  function LeadingRun(s: string, q: char): (n: nat)
    ensures n <= |s|
    ensures forall k | 0 <= k < n :: s[k] == q
    ensures n == |s| || s[n] != q
  {
    if s != [] && s[0] == q then 1 + LeadingRun(s[1..], q) else 0
  }

  /** Number of copies of `q` at the end of `s`. */
  function TrailingRun(s: string, q: char): (n: nat)
    ensures n <= |s|
    ensures forall k | |s| - n <= k < |s| :: s[k] == q
    ensures n == |s| || s[|s| - 1 - n] != q
  {
    if s != [] && s[|s| - 1] == q then 1 + TrailingRun(s[..|s| - 1], q) else 0
  }

  /** `replace(/^q+|q+$/g, "")`: drop the leading and then the trailing run of `q`. */
  function StripRuns(s: string, q: char): (r: string)
    ensures |r| <= |s|
    ensures LeadingRun(s, q) + |r| <= |s| && r == s[LeadingRun(s, q)..LeadingRun(s, q) + |r|]
    ensures q !in s ==> r == s
  {
    var t := s[LeadingRun(s, q)..];
    t[..|t| - TrailingRun(t, q)]
  }

  function DashesToHyphen(s: string): string {
    seq(|s|, k requires 0 <= k < |s| => if IsLongDash(s[k]) then '-' else s[k])
  }

  function BlankOthers(s: string): string {
    seq(|s|, k requires 0 <= k < |s| => if IsKeptChar(s[k]) then s[k] else ' ')
  }

  /** `normalizeSectionName` (string input; the source returns "" for an empty one). */
  function NormalizeSectionName(raw: string): string {
    if raw == [] then []
    else
      var s := Trim(raw);
      var s1 := StripRuns(StripRuns(s, '"'), '\'');
      var s2 := DashesToHyphen(s1);
      var s3 := BlankOthers(s2);
      var s4 := Trim(CollapseSpaces(s3));
      Upper(s4)
  }

  /** The characters a normalised section name consists of: `[A-Z0-9_ &.-]`. */
  predicate IsSectionChar(c: char) {
    IsAsciiUpper(c) || IsDigit(c) || c == '_' || c == ' ' || c == '&' || c == '.' || c == '-'
  }

  /** A normalised section name: section characters only, no space at
      either end and no two spaces in a row. */
  predicate IsNormalSection(t: string) {
    && (forall k | 0 <= k < |t| :: IsSectionChar(t[k]))
    && (t != [] ==> t[0] != ' ' && t[|t| - 1] != ' ')
    && (forall k | 0 <= k < |t| - 1 :: !(t[k] == ' ' && t[k + 1] == ' '))
  }

  /** Every result of `normalizeSectionName` is upper-case, trimmed, single-spaced text over `[A-Z0-9_ &.-]`. */
  lemma NormalizeSectionNameShape(raw: string)
    ensures IsNormalSection(NormalizeSectionName(raw))
  {
    if raw != [] {
      var s3 := BlankOthers(DashesToHyphen(StripRuns(StripRuns(Trim(raw), '"'), '\'')));
      assert forall k | 0 <= k < |s3| :: IsKeptChar(s3[k]);
      CollapsedKeptIsNormal(s3);
    }
  }

  /** Kept characters where every whitespace character is a plain space, never two in a row. */
  predicate SpacedKept(s: string) {
    && (forall k | 0 <= k < |s| :: s[k] == ' ' || (IsKeptChar(s[k]) && !IsSpace(s[k])))
    && (forall k | 0 <= k < |s| - 1 :: !(s[k] == ' ' && s[k + 1] == ' '))
  }

  lemma CollapsedKeptIsNormal(s3: string)
    requires forall k | 0 <= k < |s3| :: IsKeptChar(s3[k])
    ensures IsNormalSection(Upper(Trim(CollapseSpaces(s3))))
  {
    var c4 := CollapseSpaces(s3);
    assert SpacedKept(c4);
    TrimKeepsSpacedKept(c4);
    UpperKeepsShape(Trim(c4));
  }

  lemma TrimKeepsSpacedKept(c4: string)
    requires SpacedKept(c4)
    ensures SpacedKept(Trim(c4))
  {
    var s4 := Trim(c4);
    var off := SkipSpaces(c4, 0);
    assert forall k | 0 <= k < |s4| :: s4[k] == c4[off + k];
  }

  lemma UpperKeepsShape(s4: string)
    requires SpacedKept(s4)
    requires s4 == [] || (!IsSpace(s4[0]) && !IsSpace(s4[|s4| - 1]))
    ensures IsNormalSection(Upper(s4))
  {
    var r := Upper(s4);
    assert forall k | 0 <= k < |r| :: r[k] == UpperChar(s4[k]);
    assert forall k | 0 <= k < |r| :: IsSectionChar(r[k]);
    assert forall k | 0 <= k < |r| :: r[k] == ' ' <==> s4[k] == ' ';
  }

  /** A normalised section name is a fixed point of `normalizeSectionName`. */
  lemma NormalizeSectionNameFixes(t: string)
    requires IsNormalSection(t)
    ensures NormalizeSectionName(t) == t
  {
    if t != [] {
      NormalTrimFixes(t);
      NormalStripFixes(t);
      NormalDashesFixes(t);
      NormalBlankFixes(t);
      NormalCollapseFixes(t);
      NormalUpperFixes(t);
    }
  }

  lemma NormalTrimFixes(t: string)
    requires IsNormalSection(t)
    ensures Trim(t) == t
  {
    TrimIdentity(t);
  }

  lemma NormalStripFixes(t: string)
    requires IsNormalSection(t)
    ensures StripRuns(StripRuns(t, '"'), '\'') == t
  {
    assert '"' !in t && '\'' !in t;
  }

  lemma NormalDashesFixes(t: string)
    requires IsNormalSection(t)
    ensures DashesToHyphen(t) == t
  {
  }

  lemma NormalBlankFixes(t: string)
    requires IsNormalSection(t)
    ensures BlankOthers(t) == t
  {
  }

  lemma NormalCollapseFixes(t: string)
    requires IsNormalSection(t)
    ensures CollapseSpaces(t) == t
  {
    assert SingleSpaced(t);
    CollapseIdentity(t);
  }

  lemma NormalUpperFixes(t: string)
    requires IsNormalSection(t)
    ensures Upper(t) == t
  {
  }

  /** `normalizeSectionName` is idempotent. */
  lemma NormalizeSectionNameIdempotent(raw: string)
    ensures NormalizeSectionName(NormalizeSectionName(raw)) == NormalizeSectionName(raw)
  {
    NormalizeSectionNameShape(raw);
    NormalizeSectionNameFixes(NormalizeSectionName(raw));
  }

  /** The result is empty exactly when nothing but whitespace, quotes and
      stripped punctuation is left. */
  lemma NormalizeSectionNameEmpty(raw: string)
    ensures NormalizeSectionName(raw) == [] <==>
      raw == [] || forall c | c in BlankOthers(DashesToHyphen(StripRuns(StripRuns(Trim(raw), '"'), '\''))) :: IsSpace(c)
  {
    if raw != [] {
      var s3 := BlankOthers(DashesToHyphen(StripRuns(StripRuns(Trim(raw), '"'), '\'')));
      var c4 := CollapseSpaces(s3);
      if forall c | c in s3 :: IsSpace(c) {
        assert forall k | 0 <= k < |c4| :: c4[k] == ' ';
      } else {
        var c :| c in s3 && !IsSpace(c);
        assert c in c4 by { NonSpaceSurvivesCollapse(s3, c); }
      }
    }
  }

  lemma {:induction false} NonSpaceSurvivesCollapse(s: string, c: char)
    requires c in s && !IsSpace(c)
    ensures c in CollapseSpaces(s)
    decreases |s|
  {
    if s[0] == c {
      assert CollapseSpaces(s)[0] == c;
    } else if IsSpace(s[0]) {
      var j := SkipSpaces(s, 0);
      var k :| 0 <= k < |s| && s[k] == c;
      assert s[j..][k - j] == c;
      NonSpaceSurvivesCollapse(s[j..], c);
    } else {
      NonSpaceSurvivesCollapse(s[1..], c);
    }
  }

  /* ------------------------------ parseGradePrefix ------------------------------ */

  /** `ROMAN_TO_NUM`: the numerals I to VII. */
  function RomanToNum(numeral: string): Option<nat> {
    match numeral
    case "I" => Some(1)
    case "II" => Some(2)
    case "III" => Some(3)
    case "IV" => Some(4)
    case "V" => Some(5)
    case "VI" => Some(6)
    case "VII" => Some(7)
    case _ => None
  }

  predicate IsRomanLetter(c: char) {
    c == 'I' || c == 'V' || c == 'X' || c == 'L' || c == 'C' || c == 'D' || c == 'M'
  }

  /** `parseGradePrefix`: the digits of the token read as a number in 1..12,
      failing that the Roman letters of the token looked up in `ROMAN_TO_NUM`. */
  function ParseGradePrefix(pref: string): (r: Option<string>)
  {
    if pref == [] then None
    else
      var p := Upper(Trim(pref));
      var digits := Keep(p, IsDigit);
      if digits != [] && 1 <= DigitsValue(digits) <= 12 then
        var n := DigitsValue(digits);
        Some(DecimalString(n))
      else
        var roman := Keep(p, IsRomanLetter);
        match RomanToNum(roman)
        case Some(n) => Some(DecimalString(n))
        case None => None
  }

  /** `ROMAN_TO_NUM` holds only the values 1 to 7. */
  lemma RomanToNumRange(numeral: string)
    ensures RomanToNum(numeral).Some? ==> 1 <= RomanToNum(numeral).value <= 7
  {
  }

  /** A parsed prefix is always the decimal numeral of a grade 1..12. */
  lemma ParseGradePrefixRange(pref: string)
    ensures ParseGradePrefix(pref).Some? ==>
      exists n | 1 <= n <= 12 :: ParseGradePrefix(pref).value == DecimalString(n)
  {
    if pref != [] {
      var p := Upper(Trim(pref));
      var digits := Keep(p, IsDigit);
      if digits != [] && 1 <= DigitsValue(digits) <= 12 {
        assert ParseGradePrefix(pref).value == DecimalString(DigitsValue(digits));
      } else {
        var roman := Keep(p, IsRomanLetter);
        RomanToNumRange(roman);
        if RomanToNum(roman).Some? {
          assert ParseGradePrefix(pref).value == DecimalString(RomanToNum(roman).value);
        }
      }
    }
  }

  /** The canonical numeral of every grade 1..12 parses to itself. */
  lemma ParseGradePrefixOfNumeral(n: nat)
    requires 1 <= n <= 12
    ensures ParseGradePrefix(DecimalString(n)) == Some(DecimalString(n))
  {
    var s := DecimalString(n);
    assert forall k | 0 <= k < |s| :: !IsSpace(s[k]);
    TrimIdentity(s);
    assert Upper(s) == s;
    DecimalRoundTrip(n);
  }

  /** The Roman numerals I..VII parse to 1..7. */
  lemma ParseGradePrefixOfRoman(numeral: string)
    requires RomanToNum(numeral).Some?
    ensures ParseGradePrefix(numeral) == Some(DecimalString(RomanToNum(numeral).value))
  {
    assert forall k | 0 <= k < |numeral| :: IsRomanLetter(numeral[k]);
    TrimIdentity(numeral);
    assert Upper(numeral) == numeral;
    assert Keep(numeral, IsDigit) == [] by {
      if Keep(numeral, IsDigit) != [] {
        KeepFrom(numeral, IsDigit, Keep(numeral, IsDigit)[0]);
      }
    }
  }

  /** Only the digits of a token count: a word followed by the numeral of
      a grade 1..12, as in `Gr 3` or `Level12`, parses to that grade. */
  lemma ParseGradePrefixOfLabelledNumeral(w: string, n: nat)
    requires 1 <= n <= 12
    requires w != [] && !IsSpace(w[0])
    requires forall k | 0 <= k < |w| :: !IsDigit(w[k])
    ensures ParseGradePrefix(w + DecimalString(n)) == Some(DecimalString(n))
  {
    var ds := DecimalString(n);
    var t := w + ds;
    assert t[0] == w[0] && t[|t| - 1] == ds[|ds| - 1];
    TrimIdentity(t);
    UpperKeepsDigits(w, ds);
    KeepSkip(Upper(w), ds, IsDigit);
    DecimalRoundTrip(n);
  }

  /** Upper-casing a word without digits yields none and leaves digits alone. */
  lemma UpperKeepsDigits(w: string, ds: string)
    requires forall k | 0 <= k < |w| :: !IsDigit(w[k])
    requires AllDigits(ds)
    ensures Upper(w + ds) == Upper(w) + ds
    ensures forall k | 0 <= k < |Upper(w)| :: !IsDigit(Upper(w)[k])
  {
    assert forall k | 0 <= k < |ds| :: Upper(w + ds)[|w| + k] == ds[k];
  }

  /** A prefix with no character `p` accepts adds nothing to `Keep`. */
  lemma {:induction false} KeepSkip(a: string, b: string, p: char -> bool)
    requires forall k | 0 <= k < |a| :: !p(a[k])
    requires forall k | 0 <= k < |b| :: p(b[k])
    ensures Keep(a + b, p) == b
  {
    if a != [] {
      assert (a + b)[1..] == a[1..] + b;
      KeepSkip(a[1..], b, p);
    } else {
      assert a + b == b;
    }
  }

  lemma KeepFrom(s: string, p: char -> bool, c: char)
    requires c in Keep(s, p)
    ensures c in s
  {
  }

  /** `parseGradePrefix` does not depend on letter case. */
  lemma ParseGradePrefixIgnoresCase(pref: string)
    ensures ParseGradePrefix(Lower(pref)) == ParseGradePrefix(pref)
  {
    if pref != [] {
      assert Lower(pref) != [];
      TrimLower(pref);
      UpperOfLower(Trim(pref));
    }
  }

  lemma TrimLower(s: string)
    ensures Trim(Lower(s)) == Lower(Trim(s))
  {
    TrimSameShape(s, Lower(s));
    var a := SkipSpaces(s, 0);
    var n := |Trim(s)|;
    LowerSlice(s, a, a + n);
  }

  lemma LowerSlice(s: string, i: nat, j: nat)
    requires i <= j <= |s|
    ensures Lower(s)[i..j] == Lower(s[i..j])
  {
  }

  /** Trimming only looks at which positions hold whitespace. */
  lemma TrimSameShape(s: string, s': string)
    requires |s| == |s'|
    requires forall k | 0 <= k < |s| :: IsSpace(s[k]) <==> IsSpace(s'[k])
    ensures SkipSpaces(s, 0) == SkipSpaces(s', 0)
    ensures |Trim(s)| == |Trim(s')|
  {
    SameSkip(s, s', 0);
    var a := SkipSpaces(s, 0);
    var t, t' := s[a..], s'[a..];
    SameSkipBack(t, t', |t|);
    assert Trim(s) == t[..SkipSpacesBack(t, |t|)];
    assert Trim(s') == t'[..SkipSpacesBack(t', |t'|)];
  }

  lemma {:induction false} SameSkip(s: string, s': string, i: nat)
    requires |s| == |s'| && i <= |s|
    requires forall k | 0 <= k < |s| :: IsSpace(s[k]) <==> IsSpace(s'[k])
    ensures SkipSpaces(s, i) == SkipSpaces(s', i)
    decreases |s| - i
  {
    if i < |s| && IsSpace(s[i]) { SameSkip(s, s', i + 1); }
  }

  lemma {:induction false} SameSkipBack(s: string, s': string, j: nat)
    requires |s| == |s'| && j <= |s|
    requires forall k | 0 <= k < |s| :: IsSpace(s[k]) <==> IsSpace(s'[k])
    ensures SkipSpacesBack(s, j) == SkipSpacesBack(s', j)
  {
    if 0 < j && IsSpace(s[j - 1]) { SameSkipBack(s, s', j - 1); }
  }
}
