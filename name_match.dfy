/**
 * The tolerant name matcher of the feeding page, which pairs imported
 * feeding-programme rows with enrolled students: `tokenizeName`,
 * `canonicalNameVariants` and `namesLooseMatch`.
 *
 * A missing name (`null`, `undefined`) is the empty string here: the source
 * treats all of them as falsy and returns at once.
 */
module NameMatch {
  import opened JsString

  /** The characters `/[^\w\s'-]/g` keeps. */
  predicate IsNameChar(c: char) {
    IsWordChar(c) || IsSpace(c) || c == '\'' || c == '-'
  }

  /** The characters a token can hold: lower-case `\w`, apostrophe, hyphen. */
  predicate IsTokenChar(c: char) {
    IsDigit(c) || IsAsciiLower(c) || c == '_' || c == '\'' || c == '-'
  }

  predicate IsBlank(c: char) { c == ' ' }

  /** `replace(/,/g, " ")`. */
  function CommasToSpaces(s: string): (r: string)
    ensures |r| == |s|
    ensures forall k | 0 <= k < |s| :: r[k] == (if s[k] == ',' then ' ' else s[k])
  {
    seq(|s|, k requires 0 <= k < |s| => if s[k] == ',' then ' ' else s[k])
  }

  /** The cleaned, lower-cased name of lines 344-349, before the split. */
  function CleanName(n: string): string {
    Lower(Trim(CollapseSpaces(Keep(CommasToSpaces(n), IsNameChar))))
  }

  /** `tokenizeName` (lines 342-351). */
  function TokenizeName(n: string): (tokens: seq<string>)
    ensures forall k | 0 <= k < |tokens| :: tokens[k] != [] && forall m | 0 <= m < |tokens[k]| :: tokens[k][m] != ' '
  {
    if n == [] then [] else NonEmpty(SplitBy(CleanName(n), IsBlank))
  }

  /* ------------------------- the token alphabet ------------------------- */

  /** After cleaning, a name holds only token characters and single spaces. */
  lemma CleanNameChars(n: string)
    ensures forall k | 0 <= k < |CleanName(n)| :: CleanName(n)[k] == ' ' || IsTokenChar(CleanName(n)[k])
  {
    var kept := Keep(CommasToSpaces(n), IsNameChar);
    var collapsed := CollapseSpaces(kept);
    var trimmed := Trim(collapsed);
    assert forall k | 0 <= k < |collapsed| :: collapsed[k] == ' ' || (IsNameChar(collapsed[k]) && !IsSpace(collapsed[k]));
    var a := SkipSpaces(collapsed, 0);
    assert forall k | 0 <= k < |trimmed| :: trimmed[k] == collapsed[a + k];
    assert forall k | 0 <= k < |trimmed| :: trimmed[k] == ' ' || (IsNameChar(trimmed[k]) && !IsSpace(trimmed[k]));
  }

  /** Every token is lower-case `\w`, apostrophes and hyphens. */
  lemma TokensAreClean(n: string)
    ensures forall k | 0 <= k < |TokenizeName(n)| :: forall m | 0 <= m < |TokenizeName(n)[k]| :: IsTokenChar(TokenizeName(n)[k][m])
  {
    if n != [] {
      var c := CleanName(n);
      CleanNameChars(n);
      var parts := SplitBy(c, IsBlank);
      SplitByChars(c, parts);
      var tokens := TokenizeName(n);
      forall k, m | 0 <= k < |tokens| && 0 <= m < |tokens[k]|
        ensures IsTokenChar(tokens[k][m])
      {
        assert tokens[k] in parts;
        assert tokens[k][m] != ' ';
      }
    }
  }

  /** The pieces of a split hold only characters of the string. */
  lemma {:induction false} SplitByChars(s: string, parts: seq<string>)
    requires parts == SplitBy(s, IsBlank)
    requires forall k | 0 <= k < |s| :: s[k] == ' ' || IsTokenChar(s[k])
    ensures forall p | p in parts :: forall m | 0 <= m < |p| :: p[m] == ' ' || IsTokenChar(p[m])
    decreases |s|
  {
    if s != [] {
      var rest := SplitBy(s[1..], IsBlank);
      SplitByChars(s[1..], rest);
      if !IsBlank(s[0]) {
        var head := [s[0]] + rest[0];
        assert forall m | 0 < m < |head| :: head[m] == rest[0][m - 1];
      }
    }
  }

  /* ------------------------- split and join ------------------------- */

  /** Joining space-free tokens with single spaces and splitting on spaces
      gives the tokens back. */
  lemma {:induction false} SplitJoin(tokens: seq<string>)
    requires tokens != []
    requires forall k | 0 <= k < |tokens| :: forall m | 0 <= m < |tokens[k]| :: tokens[k][m] != ' '
    ensures SplitBy(Join(tokens, " "), IsBlank) == tokens
  {
    var t := tokens[0];
    if |tokens| == 1 {
      SplitByNone(t, IsBlank);
    } else {
      var s := Join(tokens, " ");
      var rest := Join(tokens[1..], " ");
      assert s == t + " " + rest;
      assert forall k | 0 <= k < |t| :: s[k] == t[k];
      assert s[|t|] == ' ';
      SplitByAt(s, IsBlank, |t|);
      assert s[..|t|] == t;
      assert s[|t| + 1..] == rest;
      SplitJoin(tokens[1..]);
    }
  }

  /** Joining the tokens with single spaces gives back the cleaned name. */
  lemma JoinTokens(n: string)
    requires n != []
    ensures Join(TokenizeName(n), " ") == CleanName(n)
  {
    var c := CleanName(n);
    var collapsed := CollapseSpaces(Keep(CommasToSpaces(n), IsNameChar));
    var trimmed := Trim(collapsed);
    var a := SkipSpaces(collapsed, 0);
    assert forall k | 0 <= k < |trimmed| :: trimmed[k] == collapsed[a + k];
    assert forall k | 0 <= k < |trimmed| - 1 :: !(trimmed[k] == ' ' && trimmed[k + 1] == ' ');
    assert forall k | 0 <= k < |c| :: (c[k] == ' ') == (trimmed[k] == ' ');
    JoinNonEmptySplit(c);
  }

  /** The first space at or after `i`, or the length. */
  function BlankFrom(s: string, i: nat): (f: nat)
    requires i <= |s|
    ensures i <= f <= |s|
    ensures forall k | i <= k < f :: s[k] != ' '
    ensures f < |s| ==> s[f] == ' '
    decreases |s| - i
  {
    if i == |s| || s[i] == ' ' then i else BlankFrom(s, i + 1)
  }

  /** A string with no space at either end and no two spaces in a row is
      the join of its non-empty space-separated pieces. */
  lemma {:induction false} JoinNonEmptySplit(s: string)
    requires s == [] || (s[0] != ' ' && s[|s| - 1] != ' ')
    requires forall k | 0 <= k < |s| - 1 :: !(s[k] == ' ' && s[k + 1] == ' ')
    ensures Join(NonEmpty(SplitBy(s, IsBlank)), " ") == s
    decreases |s|
  {
    if s != [] {
      var i := BlankFrom(s, 0);
      if i == |s| {
        SplitByNone(s, IsBlank);
      } else {
        SplitByAt(s, IsBlank, i);
        var rest := s[i + 1..];
        assert 0 < i < |s| - 1;
        assert forall k | 0 <= k < |rest| :: rest[k] == s[i + 1 + k];
        JoinNonEmptySplit(rest);
        var parts := SplitBy(rest, IsBlank);
        NonEmptyHead(rest, parts);
        NonEmptyCons(s[..i], parts);
        JoinCons(s[..i], NonEmpty(parts));
        SplitAround(s, i);
      }
    }
  }

  lemma SplitAround(s: string, i: nat)
    requires i < |s| && s[i] == ' '
    ensures s == s[..i] + " " + s[i + 1..]
  {
    assert s == s[..i] + [s[i]] + s[i + 1..];
  }

  lemma NonEmptyCons(head: string, parts: seq<string>)
    requires head != []
    ensures NonEmpty([head] + parts) == [head] + NonEmpty(parts)
  {
    assert ([head] + parts)[1..] == parts;
  }

  lemma JoinCons(head: string, parts: seq<string>)
    requires parts != []
    ensures Join([head] + parts, " ") == head + " " + Join(parts, " ")
  {
    assert ([head] + parts)[1..] == parts;
  }

  /** The pieces of a non-empty string with no leading space keep at least
      one non-empty piece. */
  lemma NonEmptyHead(s: string, parts: seq<string>)
    requires s != [] && s[0] != ' ' && parts == SplitBy(s, IsBlank)
    ensures NonEmpty(parts) != []
  {
    assert parts[0] != [];
  }

  /* ----------------------- the four name variants ----------------------- */

  /** `[...new Set(xs)]`: the distinct values in order of first occurrence. */
  function Dedupe(xs: seq<string>): (r: seq<string>)
    ensures forall x :: x in r <==> x in xs
    ensures forall i, j | 0 <= i < j < |r| :: r[i] != r[j]
  {
    if xs == [] then []
    else
      var r := Dedupe(xs[..|xs| - 1]);
      assert forall x | x in xs[..|xs| - 1] :: x in xs;
      assert xs == xs[..|xs| - 1] + [xs[|xs| - 1]];
      if xs[|xs| - 1] in r then r else r + [xs[|xs| - 1]]
  }

  /** The full name, "last first", "last first-two" and "first last". */
  function Variants(tokens: seq<string>): seq<string>
    requires tokens != []
  {
    var full := Join(tokens, " ");
    var last := tokens[|tokens| - 1];
    var first := tokens[0];
    var firstTwo := Join(tokens[..if |tokens| < 2 then |tokens| else 2], " ");
    [full, last + " " + first, last + " " + firstTwo, first + " " + last]
  }

  /** `canonicalNameVariants` (lines 353-364). */
  function CanonicalNameVariants(n: string): (vs: seq<string>)
    ensures vs != []
  {
    var tokens := TokenizeName(n);
    if tokens == [] then [""] else Dedupe(Variants(tokens))
  }

  /** The full name is always among the variants of a name with tokens. */
  lemma FullNameIsVariant(n: string)
    requires TokenizeName(n) != []
    ensures Join(TokenizeName(n), " ") in CanonicalNameVariants(n)
    ensures Join(TokenizeName(n), " ") != []
  {
    var tokens := TokenizeName(n);
    assert Variants(tokens)[0] == Join(tokens, " ");
    JoinNotEmpty(tokens);
  }

  lemma JoinNotEmpty(tokens: seq<string>)
    requires tokens != [] && tokens[0] != []
    ensures Join(tokens, " ") != []
  {
  }

  /** Every variant is empty exactly when the name has no tokens. */
  lemma VariantsEmptyIffNoTokens(n: string)
    ensures (forall k | 0 <= k < |CanonicalNameVariants(n)| :: CanonicalNameVariants(n)[k] == [])
            <==> TokenizeName(n) == []
  {
    if TokenizeName(n) != [] {
      FullNameIsVariant(n);
    }
  }

  /* ----------------------------- matching ----------------------------- */

  /** `atoks.filter(t => btoks.includes(t))`. */
  function CommonTokens(xs: seq<string>, ys: seq<string>): (r: seq<string>)
    ensures forall t :: t in r <==> t in xs && t in ys
  {
    if xs == [] then []
    else
      assert forall t | t in xs[1..] :: t in xs;
      assert xs == [xs[0]] + xs[1..];
      (if xs[0] in ys then [xs[0]] else []) + CommonTokens(xs[1..], ys)
  }

  /** Equal, one inside the other, or a shared word (lines 371-377). */
  predicate PairMatches(x: string, y: string) {
    || x == y
    || Contains(x, y) || Contains(y, x)
    || |CommonTokens(SplitBy(x, IsBlank), SplitBy(y, IsBlank))| >= 1
  }

  /** A pair the loop does not skip and that matches. */
  predicate Hit(x: string, y: string) {
    x != [] && y != [] && PairMatches(x, y)
  }

  /** What `namesLooseMatch` decides. */
  predicate LooselyMatch(a: string, b: string) {
    a != [] && b != [] &&
    var av := CanonicalNameVariants(a);
    var bv := CanonicalNameVariants(b);
    AnyHit(av, bv)
  }

  /** Some pair of the two variant lists is a hit. */
  predicate AnyHit(av: seq<string>, bv: seq<string>) {
    exists i, j | 0 <= i < |av| && 0 <= j < |bv| :: Hit(av[i], bv[j])
  }

  /** `namesLooseMatch` (lines 366-381). */
  method NamesLooseMatch(a: string, b: string) returns (r: bool)
    ensures r == LooselyMatch(a, b)
  {
    if a == [] || b == [] {
      return false;
    }
    var av := CanonicalNameVariants(a);
    var bv := CanonicalNameVariants(b);
    r := SearchVariantPairs(av, bv);
  }

  /** The nested loops of lines 369-379: every pair of variants, skipping
      empty ones, returning on the first that matches. */
  method SearchVariantPairs(av: seq<string>, bv: seq<string>) returns (r: bool)
    ensures r == AnyHit(av, bv)
  {
    var i := 0;
    while i < |av|
      invariant 0 <= i <= |av|
      invariant forall i', j' | 0 <= i' < i && 0 <= j' < |bv| :: !Hit(av[i'], bv[j'])
    {
      var x := av[i];
      var j := 0;
      while j < |bv|
        invariant 0 <= j <= |bv|
        invariant forall j' | 0 <= j' < j :: !Hit(x, bv[j'])
      {
        var y := bv[j];
        if x == [] || y == [] {
          j := j + 1;
          continue;
        }
        if x == y {
          assert Hit(av[i], bv[j]);
          return true;
        }
        if Contains(x, y) || Contains(y, x) {
          assert Hit(av[i], bv[j]);
          return true;
        }
        var atoks := SplitBy(x, IsBlank);
        var btoks := SplitBy(y, IsBlank);
        var common := CommonTokens(atoks, btoks);
        if |common| >= 1 {
          assert Hit(av[i], bv[j]);
          return true;
        }
        j := j + 1;
      }
      i := i + 1;
    }
    return false;
  }

  /* ----------------------------- properties ----------------------------- */

  /** An empty name, or one that tokenises to nothing, matches nothing. */
  lemma NoTokensNoMatch(a: string, b: string)
    requires TokenizeName(a) == [] || TokenizeName(b) == []
    ensures !LooselyMatch(a, b) && !LooselyMatch(b, a)
  {
    VariantsEmptyIffNoTokens(a);
    VariantsEmptyIffNoTokens(b);
  }

  lemma CommonTokensSymmetric(xs: seq<string>, ys: seq<string>)
    ensures |CommonTokens(xs, ys)| >= 1 <==> |CommonTokens(ys, xs)| >= 1
  {
    var r := CommonTokens(xs, ys);
    var r' := CommonTokens(ys, xs);
    if |r| >= 1 {
      assert r[0] in r';
    }
    if |r'| >= 1 {
      assert r'[0] in r;
    }
  }

  lemma PairMatchesSymmetric(x: string, y: string)
    ensures PairMatches(x, y) <==> PairMatches(y, x)
  {
    CommonTokensSymmetric(SplitBy(x, IsBlank), SplitBy(y, IsBlank));
  }

  lemma AnyHitSymmetric(av: seq<string>, bv: seq<string>)
    ensures AnyHit(av, bv) ==> AnyHit(bv, av)
  {
    if AnyHit(av, bv) {
      var i, j :| 0 <= i < |av| && 0 <= j < |bv| && Hit(av[i], bv[j]);
      PairMatchesSymmetric(av[i], bv[j]);
      assert Hit(bv[j], av[i]);
    }
  }

  /** The match does not depend on the order of the two names. */
  lemma LooselyMatchSymmetric(a: string, b: string)
    ensures LooselyMatch(a, b) <==> LooselyMatch(b, a)
  {
    AnyHitSymmetric(CanonicalNameVariants(a), CanonicalNameVariants(b));
    AnyHitSymmetric(CanonicalNameVariants(b), CanonicalNameVariants(a));
  }

  /** Two names that share a token match. */
  lemma SharedTokenMatches(a: string, b: string, t: string)
    requires t in TokenizeName(a) && t in TokenizeName(b)
    ensures LooselyMatch(a, b)
  {
    var ta := TokenizeName(a);
    var tb := TokenizeName(b);
    var x := Join(ta, " ");
    var y := Join(tb, " ");
    FullNameIsVariant(a);
    FullNameIsVariant(b);
    SplitJoin(ta);
    SplitJoin(tb);
    assert t in CommonTokens(SplitBy(x, IsBlank), SplitBy(y, IsBlank));
    assert Hit(x, y);
    var av := CanonicalNameVariants(a);
    var bv := CanonicalNameVariants(b);
    var i :| 0 <= i < |av| && av[i] == x;
    var j :| 0 <= j < |bv| && bv[j] == y;
    assert Hit(av[i], bv[j]);
  }

  /** A variant of one name that contains a non-empty variant of the other
      is a match. */
  lemma ContainedVariantMatches(a: string, b: string, x: string, y: string)
    requires a != [] && b != []
    requires x in CanonicalNameVariants(a) && y in CanonicalNameVariants(b)
    requires x != [] && y != [] && (Contains(x, y) || Contains(y, x))
    ensures LooselyMatch(a, b)
  {
    var av := CanonicalNameVariants(a);
    var bv := CanonicalNameVariants(b);
    var i :| 0 <= i < |av| && av[i] == x;
    var j :| 0 <= j < |bv| && bv[j] == y;
    assert Hit(av[i], bv[j]);
  }
}
