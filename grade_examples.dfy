/**
 * Worked inputs of `normalizeGradeSection` and `inferGradeFromRaw`,
 * including the ones that show where the code departs from what one would
 * expect of it.
 */
module GradeExamples {
  import opened JsString
  import opened SectionName
  import opened FeedingMapping
  import opened GradeInference

  /** Assembles a result from an inferred grade and a normalised remainder. */
  lemma ResolveFromParts(raw: string, grade: string, section: string)
    requires raw != [] && Trim(raw) == raw
    requires InferredGrade(raw) == Some(grade)
    requires NormalizeSectionName(SplitGradeSection(raw).sectionPart) == section && section != []
    ensures ResolveGradeSection(raw) == GradeSection(grade, section)
  {
  }

  /** A kindergarten match decides the inferred grade. */
  lemma FromKindergartenMatch(raw: string, c: KCapture)
    requires raw != [] && Trim(raw) == raw && KMatch(raw) == Some(c)
    ensures InferredGrade(raw) == Some(KindergartenGrade(c))
  {
  }

  lemma UpperK()
    ensures Upper("K") == "K"
  {
  }

  /** A `K` glued to a word that does not start with `1`, `2`, a space or
      a hyphen: the token is the `K` and the rest is everything after it. */
  lemma KMatchGlued(s: string)
    requires |s| >= 2 && s[0] == 'K' && s[1] != '1' && s[1] != '2' && s[1] != '-'
    requires !IsSpace(s[1]) && SingleLine(s[1..])
    ensures KMatch(s) == Some(KCapture(s[..1], s[1..]))
  {
    assert SkipSpaces(s, 0) == 0;
    assert SkipSpaces(s, 1) == 1;
  }

  /** A `K` and a hyphen: the section is what follows the hyphen. */
  lemma KMatchHyphen(s: string)
    requires |s| >= 2 && s[0] == 'K' && s[1] == '-' && SingleLine(s[1..])
    ensures KMatch(s) == Some(KCapture(s[..1], s[2..]))
  {
    assert SkipSpaces(s, 0) == 0;
    assert SkipSpaces(s, 1) == 1;
  }

  /** The character-level facts about `"3 - ST. JOHN"` the steps below use. */
  lemma StJohnText()
    ensures Trim("3 - ST. JOHN") == "3 - ST. JOHN"
  {
    TrimIdentity("3 - ST. JOHN");
  }

  lemma StJohnChars()
    ensures var s := "3 - ST. JOHN";
      SingleLine(s) && IsDigit(s[0]) && IsSpace(s[1]) && s[..1] == "3"
  {
  }

  lemma DigitThree()
    ensures DecimalString(DigitsValue("3")) == "3"
  {
    assert DigitsValue("3") == 3;
  }

  /** A trimmed one-line text opening with one digit and a space. */
  lemma OneDigitGrade(s: string)
    requires Trim(s) == s && |s| >= 2 && SingleLine(s) && IsDigit(s[0]) && IsSpace(s[1])
    ensures InferredGrade(s) == Some(DecimalString(DigitsValue(s[..1])))
  {
    NumericPrefixWins(s, 1);
  }

  lemma StJohnGrade()
    ensures InferredGrade("3 - ST. JOHN") == Some("3")
  {
    StJohnText();
    StJohnChars();
    OneDigitGrade("3 - ST. JOHN");
    DigitThree();
  }

  lemma StJohnOneDash()
    ensures var s := "3 - ST. JOHN";
      s[2] == '-' && forall k | 0 <= k < |s| && k != 2 :: !IsSplitDash(s[k])
  {
  }

  lemma StJohnParts()
    ensures Trim("3 ") == "3" && Trim(" ST. JOHN") == "ST. JOHN"
  {
    TrimOf("3 ", 0, 1);
    TrimOf(" ST. JOHN", 1, 9);
  }

  lemma StJohnSplit()
    ensures SplitGradeSection("3 - ST. JOHN") == Split(Some("3"), "ST. JOHN")
  {
    var s := "3 - ST. JOHN";
    StJohnSplitBy();
    StJohnHasDash();
    StJohnParts();
    DashBranch(s, "3 ", " ST. JOHN");
  }

  lemma StJohnSplitBy()
    ensures SplitBy("3 - ST. JOHN", IsSplitDash) == ["3 ", " ST. JOHN"]
  {
    var s := "3 - ST. JOHN";
    StJohnSlices();
    StJohnOneDash();
    SplitByOneDash(s, 2);
  }

  lemma StJohnSlices()
    ensures var s := "3 - ST. JOHN"; s[..2] == "3 " && s[3..] == " ST. JOHN"
  {
  }

  lemma StJohnHasDash()
    ensures '-' in "3 - ST. JOHN"
  {
    var s := "3 - ST. JOHN";
    assert s[2] == '-';
  }

  lemma StJohnSection()
    ensures NormalizeSectionName("ST. JOHN") == "ST. JOHN"
  {
    assert IsNormalSection("ST. JOHN");
    NormalizeSectionNameFixes("ST. JOHN");
  }

  /** `"3 - ST. JOHN"` is already canonical. */
  lemma StJohn()
    ensures ResolveGradeSection("3 - ST. JOHN") == GradeSection("3", "ST. JOHN")
  {
    var s := "3 - ST. JOHN";
    StJohnText();
    StJohnGrade();
    StJohnSplit();
    var sec := SplitGradeSection(s).sectionPart;
    assert sec == "ST. JOHN";
    StJohnSection();
    assert NormalizeSectionName(sec) == "ST. JOHN";
    ResolveFromParts(s, "3", "ST. JOHN");
  }

  /* ------------------------------ K-MASAYAHIN ------------------------------ */

  lemma KMasayahinTrim()
    ensures Trim("K-MASAYAHIN") == "K-MASAYAHIN"
  {
    TrimIdentity("K-MASAYAHIN");
  }

  lemma KMasayahinLine()
    ensures SingleLine("K-MASAYAHIN"[1..])
  {
    assert SingleLine("K-MASAYAHIN");
    SingleLineSuffix("K-MASAYAHIN", 1);
  }

  lemma KMasayahinSlices()
    ensures var s := "K-MASAYAHIN"; s[0] == 'K' && s[1] == '-' && s[2..] == "MASAYAHIN" && s[..1] == "K"
  {
  }

  /** The kindergarten pattern takes the `K` and the text after the hyphen. */
  lemma KMasayahinMatch()
    ensures KMatch("K-MASAYAHIN") == Some(KCapture("K", "MASAYAHIN"))
  {
    var s := "K-MASAYAHIN";
    KMasayahinLine();
    KMasayahinSlices();
    KMatchHyphen(s);
  }

  lemma MasayahinNotK1()
    ensures "MASAYAHIN" !in K1Sections
  {
  }

  lemma MasayahinNotK2()
    ensures "MASAYAHIN" !in K2Sections
  {
  }

  /** `MASAYAHIN` alone is in neither kindergarten roster. */
  lemma MasayahinNotKindergarten()
    ensures !RosterHas("K1", "MASAYAHIN") && !RosterHas("K2", "MASAYAHIN")
  {
    MasayahinNotK1();
    MasayahinNotK2();
    RosterTest("K1", "MASAYAHIN");
    RosterTest("K2", "MASAYAHIN");
  }

  lemma MasayahinSection()
    ensures NormalizeSectionName("MASAYAHIN") == "MASAYAHIN"
  {
    assert IsNormalSection("MASAYAHIN");
    NormalizeSectionNameFixes("MASAYAHIN");
  }

  /** A bare `K` before a section of no kindergarten roster defaults to K1. */
  lemma MasayahinKindergartenGrade()
    ensures KindergartenGrade(KCapture("K", "MASAYAHIN")) == "K1"
  {
    var c := KCapture("K", "MASAYAHIN");
    MasayahinSection();
    MasayahinNotKindergarten();
    UpperK();
    KindergartenPrecedence(c);
  }

  lemma KMasayahinGrade()
    ensures InferredGrade("K-MASAYAHIN") == Some("K1")
  {
    var s := "K-MASAYAHIN";
    KMasayahinTrim();
    KMasayahinMatch();
    MasayahinKindergartenGrade();
    FromKindergartenMatch(s, KCapture("K", "MASAYAHIN"));
  }

  lemma KMasayahinParts()
    ensures Trim("K") == "K" && Trim("MASAYAHIN") == "MASAYAHIN"
  {
    TrimIdentity("K");
    TrimIdentity("MASAYAHIN");
  }

  lemma KMasayahinOneDash()
    ensures var s := "K-MASAYAHIN";
      s[1] == '-' && s[..1] == "K" && s[2..] == "MASAYAHIN" &&
      forall k | 0 <= k < |s| && k != 1 :: !IsSplitDash(s[k])
  {
  }

  lemma KMasayahinSplit()
    ensures SplitGradeSection("K-MASAYAHIN") == Split(Some("K"), "MASAYAHIN")
  {
    var s := "K-MASAYAHIN";
    KMasayahinSplitBy();
    KMasayahinHasDash();
    KMasayahinParts();
    DashBranch(s, "K", "MASAYAHIN");
  }

  lemma KMasayahinSplitBy()
    ensures SplitBy("K-MASAYAHIN", IsSplitDash) == ["K", "MASAYAHIN"]
  {
    var s := "K-MASAYAHIN";
    KMasayahinOneDash();
    SplitByOneDash(s, 1);
  }

  lemma KMasayahinHasDash()
    ensures '-' in "K-MASAYAHIN"
  {
    var s := "K-MASAYAHIN";
    assert s[1] == '-';
  }

  /** `"K-MASAYAHIN"` becomes `"K1 - MASAYAHIN"`. */
  lemma KMasayahin()
    ensures ResolveGradeSection("K-MASAYAHIN") == GradeSection("K1", "MASAYAHIN")
  {
    var s := "K-MASAYAHIN";
    KMasayahinTrim();
    KMasayahinGrade();
    KMasayahinSplit();
    var sec := SplitGradeSection(s).sectionPart;
    assert sec == "MASAYAHIN";
    MasayahinSection();
    ResolveFromParts(s, "K1", "MASAYAHIN");
  }

  /* ------------- normalising twice: KAALAMAN & KARUNUNGAN ------------- */

  /** Without a hyphen, a string whose first character is neither a digit
      nor a Roman letter has no prefix. */
  lemma NoPrefixWithoutNumeral(s: string)
    requires s != [] && '-' !in s && !IsSpace(s[0])
    requires !IsDigit(s[0]) && !IsRomanLetterIgnoringCase(s[0])
    ensures SplitGradeSection(s) == Split(None, s)
  {
    SplitOnSpaceRunsHead(s);
  }

  lemma KaalamanText()
    ensures var s := "KAALAMAN & KARUNUNGAN";
      Trim(s) == s && '-' !in s && !IsSpace(s[1]) && SingleLine(s[1..]) && s[..1] == "K"
  {
    KaalamanTrim();
    KaalamanNoDash();
    KaalamanHead();
    KaalamanTailLine();
  }

  lemma KaalamanTrim()
    ensures Trim("KAALAMAN & KARUNUNGAN") == "KAALAMAN & KARUNUNGAN"
  {
    TrimIdentity("KAALAMAN & KARUNUNGAN");
  }

  lemma KaalamanNoDash()
    ensures '-' !in "KAALAMAN & KARUNUNGAN"
  {
  }

  lemma KaalamanHead()
    ensures var s := "KAALAMAN & KARUNUNGAN"; !IsSpace(s[1]) && s[..1] == "K"
  {
  }

  lemma KaalamanTailLine()
    ensures SingleLine("KAALAMAN & KARUNUNGAN"[1..])
  {
    assert SingleLine("KAALAMAN & KARUNUNGAN");
    SingleLineSuffix("KAALAMAN & KARUNUNGAN", 1);
  }

  lemma KaalamanNormal()
    ensures IsNormalSection("KAALAMAN & KARUNUNGAN")
  {
    KaalamanInK2();
    K2Normal();
  }

  lemma AalamanNormal()
    ensures IsNormalSection("AALAMAN & KARUNUNGAN")
  {
  }

  lemma KaalamanSection()
    ensures NormalizeSectionName("KAALAMAN & KARUNUNGAN") == "KAALAMAN & KARUNUNGAN"
    ensures NormalizeSectionName("AALAMAN & KARUNUNGAN") == "AALAMAN & KARUNUNGAN"
  {
    KaalamanNormal();
    NormalizeSectionNameFixes("KAALAMAN & KARUNUNGAN");
    AalamanNormal();
    NormalizeSectionNameFixes("AALAMAN & KARUNUNGAN");
  }

  lemma AalamanNotK1()
    ensures "AALAMAN & KARUNUNGAN" !in K1Sections
  {
  }

  lemma AalamanNotK2()
    ensures "AALAMAN & KARUNUNGAN" !in K2Sections
  {
  }

  lemma KaalamanNotK1()
    ensures "KAALAMAN & KARUNUNGAN" !in K1Sections
  {
  }

  lemma KaalamanInK2()
    ensures "KAALAMAN & KARUNUNGAN" in K2Sections
  {
    assert K2Sections[9] == "KAALAMAN & KARUNUNGAN";
  }

  lemma KaalamanTail()
    ensures "KAALAMAN & KARUNUNGAN"[1..] == "AALAMAN & KARUNUNGAN"
  {
  }

  /** The pattern reads the leading `K` of `KAALAMAN` as the kindergarten token. */
  lemma KaalamanMatch()
    ensures KMatch("KAALAMAN & KARUNUNGAN") == Some(KCapture("K", "AALAMAN & KARUNUNGAN"))
  {
    var s := "KAALAMAN & KARUNUNGAN";
    KaalamanText();
    KaalamanTail();
    assert s[1] == 'A';
    KMatchGlued(s);
  }

  lemma AalamanNotKindergarten()
    ensures !RosterHas("K1", "AALAMAN & KARUNUNGAN") && !RosterHas("K2", "AALAMAN & KARUNUNGAN")
  {
    AalamanNotK1();
    AalamanNotK2();
    RosterTest("K1", "AALAMAN & KARUNUNGAN");
    RosterTest("K2", "AALAMAN & KARUNUNGAN");
  }

  lemma KaalamanKindergartenGrade()
    ensures KindergartenGrade(KCapture("K", "AALAMAN & KARUNUNGAN")) == "K1"
  {
    var c := KCapture("K", "AALAMAN & KARUNUNGAN");
    KaalamanSection();
    AalamanNotKindergarten();
    UpperK();
    KindergartenPrecedence(c);
  }

  /** The first pass files a Kindergarten 2 section under K1. */
  lemma KaalamanOnce()
    ensures ResolveGradeSection("KAALAMAN & KARUNUNGAN") == GradeSection("K1", "KAALAMAN & KARUNUNGAN")
  {
    var s := "KAALAMAN & KARUNUNGAN";
    KaalamanTrim();
    KaalamanOnceGrade();
    KaalamanOnceSplit();
    KaalamanSection();
    ResolveFromParts(s, "K1", "KAALAMAN & KARUNUNGAN");
  }

  lemma KaalamanOnceGrade()
    ensures InferredGrade("KAALAMAN & KARUNUNGAN") == Some("K1")
  {
    KaalamanTrim();
    KaalamanMatch();
    KaalamanKindergartenGrade();
    FromKindergartenMatch("KAALAMAN & KARUNUNGAN", KCapture("K", "AALAMAN & KARUNUNGAN"));
  }

  /** With no hyphen and no leading numeral the whole text is the section. */
  lemma KaalamanOnceSplit()
    ensures SplitGradeSection("KAALAMAN & KARUNUNGAN").sectionPart == "KAALAMAN & KARUNUNGAN"
  {
    KaalamanNoDash();
    NoPrefixWithoutNumeral("KAALAMAN & KARUNUNGAN");
  }

  lemma KaalamanDisplay()
    ensures Display(GradeSection("K1", "KAALAMAN & KARUNUNGAN")) == "K1 - KAALAMAN & KARUNUNGAN"
  {
  }

  /** A `K1`/`K2` token, one space and a hyphen. */
  lemma KMatchTokenSpaceDash(s: string)
    requires |s| >= 4 && s[0] == 'K' && (s[1] == '1' || s[1] == '2') && s[2] == ' ' && s[3] == '-'
    requires SingleLine(s)
    ensures KMatch(s) == Some(KCapture(s[..2], s[4..]))
  {
    assert forall k | 0 <= k < |s[3..]| :: s[3..][k] == s[3 + k];
    assert SkipSpaces(s, 0) == 0;
    assert SkipSpaces(s, 3) == 3;
    assert SkipSpaces(s, 2) == 3;
  }

  /** A section text whose trimmed form is already normal normalises to it. */
  lemma NormalizeTrimmedNormal(raw: string, t: string)
    requires Trim(raw) == t && t != [] && IsNormalSection(t)
    ensures NormalizeSectionName(raw) == t
  {
    NormalTrimFixes(t);
    NormalizeSectionNameFixes(t);
  }

  lemma KaalamanAgainText()
    ensures var s := "K1 - KAALAMAN & KARUNUNGAN";
      Trim(s) == s && SingleLine(s) && s[..2] == "K1" && s[4..] == " KAALAMAN & KARUNUNGAN"
      && s[..3] == "K1 " && s[3] == '-'
  {
    KaalamanAgainTrim();
    KaalamanAgainSlices();
  }

  lemma KaalamanAgainTrim()
    ensures var s := "K1 - KAALAMAN & KARUNUNGAN"; Trim(s) == s && SingleLine(s)
  {
    TrimIdentity("K1 - KAALAMAN & KARUNUNGAN");
  }

  lemma KaalamanAgainSlices()
    ensures var s := "K1 - KAALAMAN & KARUNUNGAN";
      s[..2] == "K1" && s[4..] == " KAALAMAN & KARUNUNGAN" && s[..3] == "K1 " && s[3] == '-'
  {
  }

  lemma KaalamanAgainOneDash()
    ensures var s := "K1 - KAALAMAN & KARUNUNGAN";
      forall k | 0 <= k < |s| && k != 3 :: !IsSplitDash(s[k])
  {
  }

  lemma KaalamanAgainParts()
    ensures Trim("K1 ") == "K1" && Trim(" KAALAMAN & KARUNUNGAN") == "KAALAMAN & KARUNUNGAN"
  {
    TokenTrim();
    KaalamanRestTrim();
  }

  lemma TokenTrim()
    ensures Trim("K1 ") == "K1"
  {
    TrimOf("K1 ", 0, 2);
  }

  lemma KaalamanRestTrim()
    ensures Trim(" KAALAMAN & KARUNUNGAN") == "KAALAMAN & KARUNUNGAN"
  {
    TrimOf(" KAALAMAN & KARUNUNGAN", 1, 22);
  }

  lemma KaalamanRosters()
    ensures !RosterHas("K1", "KAALAMAN & KARUNUNGAN") && RosterHas("K2", "KAALAMAN & KARUNUNGAN")
  {
    KaalamanNotK1();
    KaalamanInK2();
    RosterTest("K1", "KAALAMAN & KARUNUNGAN");
    RosterTest("K2", "KAALAMAN & KARUNUNGAN");
  }

  lemma KaalamanAgainGrade()
    ensures InferredGrade("K1 - KAALAMAN & KARUNUNGAN") == Some("K2")
  {
    var s := "K1 - KAALAMAN & KARUNUNGAN";
    var c := KCapture("K1", " KAALAMAN & KARUNUNGAN");
    KaalamanAgainMatch();
    KaalamanAgainRest();
    KaalamanAgainTrim();
    FromKindergartenMatch(s, c);
  }

  lemma KaalamanAgainMatch()
    ensures KMatch("K1 - KAALAMAN & KARUNUNGAN") == Some(KCapture("K1", " KAALAMAN & KARUNUNGAN"))
  {
    var s := "K1 - KAALAMAN & KARUNUNGAN";
    KaalamanAgainTrim();
    KaalamanAgainSlices();
    KMatchTokenSpaceDash(s);
  }

  /** The text after the `K1 -` names a Kindergarten 2 section. */
  lemma KaalamanAgainRest()
    ensures KindergartenGrade(KCapture("K1", " KAALAMAN & KARUNUNGAN")) == "K2"
  {
    var c := KCapture("K1", " KAALAMAN & KARUNUNGAN");
    KaalamanRestTrim();
    KaalamanNormal();
    NormalizeTrimmedNormal(c.rest, "KAALAMAN & KARUNUNGAN");
    KaalamanRosters();
    KindergartenPrecedence(c);
  }

  lemma KaalamanAgainSplit()
    ensures SplitGradeSection("K1 - KAALAMAN & KARUNUNGAN") == Split(Some("K1"), "KAALAMAN & KARUNUNGAN")
  {
    var s := "K1 - KAALAMAN & KARUNUNGAN";
    KaalamanAgainText();
    KaalamanAgainOneDash();
    SplitByOneDash(s, 3);
    assert SplitBy(s, IsSplitDash) == ["K1 ", " KAALAMAN & KARUNUNGAN"];
    assert s[3] in s;
    KaalamanAgainParts();
    DashBranch(s, "K1 ", " KAALAMAN & KARUNUNGAN");
  }

  /** The second pass reads the same section as K2. */
  lemma KaalamanTwice()
    ensures ResolveGradeSection("K1 - KAALAMAN & KARUNUNGAN") == GradeSection("K2", "KAALAMAN & KARUNUNGAN")
  {
    var s := "K1 - KAALAMAN & KARUNUNGAN";
    KaalamanAgainText();
    KaalamanAgainGrade();
    KaalamanAgainSplit();
    var sec := SplitGradeSection(s).sectionPart;
    assert sec == "KAALAMAN & KARUNUNGAN";
    KaalamanSection();
    ResolveFromParts(s, "K2", "KAALAMAN & KARUNUNGAN");
  }

  /** Two displays with grades of one length that differ are different. */
  lemma DisplaysDiffer(a: GradeSection, b: GradeSection)
    requires |a.grade| == |b.grade| && a.grade != b.grade
    ensures Display(a) != Display(b)
  {
    assert Display(a)[..|a.grade|] == a.grade;
    assert Display(b)[..|b.grade|] == b.grade;
  }

  /** `normalizeGradeSection` is not idempotent: feeding its own output back
      changes the grade. */
  lemma NormalizeGradeSectionNotIdempotent()
    ensures var once := Display(ResolveGradeSection("KAALAMAN & KARUNUNGAN"));
      Display(ResolveGradeSection(once)) != once
  {
    var first := GradeSection("K1", "KAALAMAN & KARUNUNGAN");
    var second := GradeSection("K2", "KAALAMAN & KARUNUNGAN");
    KaalamanOnce();
    KaalamanDisplay();
    KaalamanTwice();
    DisplaysDiffer(second, first);
  }
}
