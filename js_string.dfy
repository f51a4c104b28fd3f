/**
 * The JavaScript string primitives that the NutriCare pages rely on, over
 * `seq<char>`: the regular-expression classes `\s`, `\d`, `\w` (no `u`
 * flag), `trim`, ASCII case mapping, `split`, `join`, `includes`,
 * `startsWith`, `parseInt` of a digit run and `String(n)` of a natural.
 */
module JsString {

  datatype Option<T> = None | Some(value: T)

  /** JavaScript's `\s`, the set `trim` removes: WhiteSpace and LineTerminator. */
  predicate IsSpace(c: char) {
    || c == ' ' || c == '\t' || c == '\n' || c == '\r' || c == '\U{000B}' || c == '\U{000C}'
    || c == '\U{00A0}' || c == '\U{1680}' || ('\U{2000}' <= c <= '\U{200A}')
    || c == '\U{2028}' || c == '\U{2029}' || c == '\U{202F}' || c == '\U{205F}'
    || c == '\U{3000}' || c == '\U{FEFF}'
  }

  /** The characters that `.` in a regular expression does not match. */
  predicate IsLineTerminator(c: char) {
    c == '\n' || c == '\r' || c == '\U{2028}' || c == '\U{2029}'
  }

  /** A string on which `(.*)$` (no `m` flag) can match in full. */
  predicate SingleLine(s: string) {
    forall k | 0 <= k < |s| :: !IsLineTerminator(s[k])
  }

  lemma SingleLineSuffix(s: string, i: nat)
    requires i <= |s| && SingleLine(s)
    ensures SingleLine(s[i..])
  {
    assert forall k | 0 <= k < |s[i..]| :: s[i..][k] == s[i + k];
  }

  predicate IsDigit(c: char) { '0' <= c <= '9' }
  predicate IsAsciiUpper(c: char) { 'A' <= c <= 'Z' }
  predicate IsAsciiLower(c: char) { 'a' <= c <= 'z' }

  /** `\w` without the `u` flag: `[A-Za-z0-9_]`. */
  predicate IsWordChar(c: char) { IsDigit(c) || IsAsciiUpper(c) || IsAsciiLower(c) || c == '_' }

  predicate AllDigits(s: string) { forall k | 0 <= k < |s| :: IsDigit(s[k]) }

  function UpperChar(c: char): char {
    if IsAsciiLower(c) then (c as int - 32) as char else c
  }

  function LowerChar(c: char): char {
    if IsAsciiUpper(c) then (c as int + 32) as char else c
  }

  /** `toUpperCase`, restricted to ASCII letters. */
  function Upper(s: string): string {
    seq(|s|, k requires 0 <= k < |s| => UpperChar(s[k]))
  }

  /** `toLowerCase`, restricted to ASCII letters. */
  function Lower(s: string): string {
    seq(|s|, k requires 0 <= k < |s| => LowerChar(s[k]))
  }

  /** Case-insensitive (ASCII) character equality, as a regular expression with `i` sees it. */
  predicate SameLetterIgnoringCase(c: char, d: char) { UpperChar(c) == UpperChar(d) }

  lemma UpperOfLower(s: string)
    ensures Upper(Lower(s)) == Upper(s)
  {
    assert forall k | 0 <= k < |s| :: Upper(Lower(s))[k] == Upper(s)[k];
  }

  lemma LowerOfUpper(s: string)
    ensures Lower(Upper(s)) == Lower(s)
  {
    assert forall k | 0 <= k < |s| :: Lower(Upper(s))[k] == Lower(s)[k];
  }

  /** The characters of `s` that satisfy `p`, in order (a `replace` that deletes the rest). */
  function Keep(s: string, p: char -> bool): (r: string)
    ensures |r| <= |s|
    ensures forall k | 0 <= k < |r| :: p(r[k])
    ensures (forall k | 0 <= k < |s| :: p(s[k])) ==> r == s
  {
    if s == [] then [] else if p(s[0]) then [s[0]] + Keep(s[1..], p) else Keep(s[1..], p)
  }

  /** One past the end of the run of `\s` characters that starts at `i`. */
  function SkipSpaces(s: string, i: nat): (j: nat)
    requires i <= |s|
    ensures i <= j <= |s|
    ensures forall k | i <= k < j :: IsSpace(s[k])
    ensures j == |s| || !IsSpace(s[j])
    decreases |s| - i
  {
    if i < |s| && IsSpace(s[i]) then SkipSpaces(s, i + 1) else i
  }

  /** The start of the run of `\s` characters that ends just before `j`. */
  function SkipSpacesBack(s: string, j: nat): (i: nat)
    requires j <= |s|
    ensures i <= j
    ensures forall k | i <= k < j :: IsSpace(s[k])
    ensures i == 0 || !IsSpace(s[i - 1])
  {
    if 0 < j && IsSpace(s[j - 1]) then SkipSpacesBack(s, j - 1) else j
  }

  /** `String.prototype.trim`. */
  function Trim(s: string): (r: string)
    ensures r == [] || (!IsSpace(r[0]) && !IsSpace(r[|r| - 1]))
    ensures SkipSpaces(s, 0) + |r| <= |s| && r == s[SkipSpaces(s, 0)..SkipSpaces(s, 0) + |r|]
    ensures r == [] <==> forall k | 0 <= k < |s| :: IsSpace(s[k])
  {
    var a := SkipSpaces(s, 0);
    var t := s[a..];
    var b := SkipSpacesBack(t, |t|);
    assert b == 0 ==> forall k | 0 <= k < |s| :: IsSpace(s[k]) by {
      if b == 0 {
        forall k | 0 <= k < |s| ensures IsSpace(s[k]) {
          if k >= a { assert s[k] == t[k - a]; }
        }
      }
    }
    t[..b]
  }

  lemma TrimIdentity(s: string)
    requires s == [] || (!IsSpace(s[0]) && !IsSpace(s[|s| - 1]))
    ensures Trim(s) == s
  {
  }

  lemma {:induction false} SkipSpacesTo(s: string, i: nat, j: nat)
    requires i <= j <= |s|
    requires forall k | i <= k < j :: IsSpace(s[k])
    requires j == |s| || !IsSpace(s[j])
    ensures SkipSpaces(s, i) == j
    decreases j - i
  {
    if i < j { SkipSpacesTo(s, i + 1, j); }
  }

  lemma {:induction false} SkipSpacesBackTo(s: string, i: nat, j: nat)
    requires i <= j <= |s|
    requires forall k | i <= k < j :: IsSpace(s[k])
    requires i == 0 || !IsSpace(s[i - 1])
    ensures SkipSpacesBack(s, j) == i
    decreases j - i
  {
    if i < j { SkipSpacesBackTo(s, i, j - 1); }
  }

  /** `trim` keeps exactly the part between the leading and the trailing whitespace. */
  lemma TrimOf(s: string, a: nat, b: nat)
    requires a < b <= |s|
    requires forall k | 0 <= k < a :: IsSpace(s[k])
    requires forall k | b <= k < |s| :: IsSpace(s[k])
    requires !IsSpace(s[a]) && !IsSpace(s[b - 1])
    ensures Trim(s) == s[a..b]
  {
    SkipSpacesTo(s, 0, a);
    var t := s[a..];
    SkipSpacesBackTo(t, b - a, |t|);
  }

  /** Replaces every maximal run of `\s` characters by one space (`replace(/\s+/g, " ")`). */
  function CollapseSpaces(s: string): (r: string)
    ensures forall k | 0 <= k < |r| :: r[k] == ' ' || (!IsSpace(r[k]) && r[k] in s)
    ensures forall k | 0 <= k < |r| - 1 :: !(r[k] == ' ' && r[k + 1] == ' ')
    ensures |r| > 0 <==> |s| > 0
    ensures |r| > 0 ==> (r[0] == ' ' <==> IsSpace(s[0]))
    decreases |s|
  {
    if s == [] then []
    else if IsSpace(s[0]) then
      var rest := s[SkipSpaces(s, 0)..];
      var r' := CollapseSpaces(rest);
      assert forall c | c in rest :: c in s;
      " " + r'
    else
      var r' := CollapseSpaces(s[1..]);
      assert forall c | c in s[1..] :: c in s;
      [s[0]] + r'
  }

  /** A string whose only whitespace is single, non-repeated spaces. */
  predicate SingleSpaced(s: string) {
    forall k | 0 <= k < |s| :: IsSpace(s[k]) ==> s[k] == ' ' && (k + 1 < |s| ==> s[k + 1] != ' ')
  }

  lemma {:induction false} CollapseIdentity(s: string)
    requires SingleSpaced(s)
    ensures CollapseSpaces(s) == s
    decreases |s|
  {
    if s != [] {
      if IsSpace(s[0]) {
        assert SkipSpaces(s, 0) == 1;
        CollapseIdentity(s[1..]);
      } else {
        CollapseIdentity(s[1..]);
      }
    }
  }

  /** `split(sep)` for a separator that is one character of a class. */
  function SplitBy(s: string, isSep: char -> bool): (parts: seq<string>)
    ensures |parts| >= 1
    ensures forall k | 0 <= k < |parts| :: forall m | 0 <= m < |parts[k]| :: !isSep(parts[k][m])
  {
    if s == [] then [[]]
    else
      var rest := SplitBy(s[1..], isSep);
      if isSep(s[0]) then [[]] + rest else [[s[0]] + rest[0]] + rest[1..]
  }

  /** Splitting at the first separator. */
  lemma {:induction false} SplitByAt(s: string, isSep: char -> bool, i: nat)
    requires i < |s| && isSep(s[i])
    requires forall k | 0 <= k < i :: !isSep(s[k])
    ensures SplitBy(s, isSep) == [s[..i]] + SplitBy(s[i + 1..], isSep)
  {
    if i > 0 {
      SplitByAt(s[1..], isSep, i - 1);
      assert s[1..][i..] == s[i + 1..];
      assert [s[0]] + s[1..][..i - 1] == s[..i];
    }
  }

  /** A string without separators is one part. */
  lemma {:induction false} SplitByNone(s: string, isSep: char -> bool)
    requires forall k | 0 <= k < |s| :: !isSep(s[k])
    ensures SplitBy(s, isSep) == [s]
  {
    if s != [] {
      SplitByNone(s[1..], isSep);
      assert [s[0]] + s[1..] == s;
    }
  }

  /** `split(/\s+/)`: the pieces between maximal runs of whitespace. */
  function SplitOnSpaceRuns(s: string): (parts: seq<string>)
    ensures |parts| >= 1
    ensures forall k | 0 <= k < |parts| :: forall m | 0 <= m < |parts[k]| :: !IsSpace(parts[k][m])
    decreases |s|
  {
    if s == [] then [[]]
    else if IsSpace(s[0]) then [[]] + SplitOnSpaceRuns(s[SkipSpaces(s, 0)..])
    else
      var rest := SplitOnSpaceRuns(s[1..]);
      [[s[0]] + rest[0]] + rest[1..]
  }

  /** The first piece of a string that does not start with whitespace
      begins with its first character. */
  lemma SplitOnSpaceRunsHead(s: string)
    requires s != [] && !IsSpace(s[0])
    ensures SplitOnSpaceRuns(s)[0] != [] && SplitOnSpaceRuns(s)[0][0] == s[0]
  {
  }

  /** `split(sep)` for a non-empty separator string, scanning left to right. */
  function SplitOn(s: string, sep: string): (parts: seq<string>)
    requires sep != []
    ensures |parts| >= 1
    decreases |s|
  {
    if |sep| <= |s| && s[..|sep|] == sep then [[]] + SplitOn(s[|sep|..], sep)
    else if s == [] then [[]]
    else
      var rest := SplitOn(s[1..], sep);
      [[s[0]] + rest[0]] + rest[1..]
  }

  /** `parts.map(p => p.trim())`. */
  function TrimEach(parts: seq<string>): (r: seq<string>)
    ensures |r| == |parts|
  {
    seq(|parts|, k requires 0 <= k < |parts| => Trim(parts[k]))
  }

  /** `parts.join(sep)`. */
  function Join(parts: seq<string>, sep: string): string {
    if parts == [] then []
    else if |parts| == 1 then parts[0]
    else parts[0] + sep + Join(parts[1..], sep)
  }

  /** `filter(Boolean)` on strings. */
  function NonEmpty(parts: seq<string>): (r: seq<string>)
    ensures |r| <= |parts|
    ensures forall k | 0 <= k < |r| :: r[k] != [] && r[k] in parts
    ensures forall k | 0 <= k < |parts| :: parts[k] != [] ==> parts[k] in r
  {
    if parts == [] then []
    else if parts[0] == [] then NonEmpty(parts[1..])
    else [parts[0]] + NonEmpty(parts[1..])
  }

  /** `s.startsWith(t)`. */
  predicate StartsWith(s: string, t: string) {
    |t| <= |s| && s[..|t|] == t
  }

  /** `s.includes(t)`. */
  predicate Contains(s: string, t: string) {
    exists k | 0 <= k <= |s| - |t| :: OccursAt(s, t, k)
  }

  predicate OccursAt(s: string, t: string, k: nat) {
    k + |t| <= |s| && s[k..k + |t|] == t
  }

  function DigitValue(c: char): nat
    requires IsDigit(c)
  {
    c as int - '0' as int
  }

  function DigitChar(d: nat): (c: char)
    requires d < 10
    ensures IsDigit(c) && DigitValue(c) == d
  {
    ('0' as int + d) as char
  }

  /** `parseInt(ds, 10)` of a run of decimal digits, as an exact natural. */
  function DigitsValue(ds: string): nat
    requires AllDigits(ds)
  {
    if ds == [] then 0 else 10 * DigitsValue(ds[..|ds| - 1]) + DigitValue(ds[|ds| - 1])
  }

  /** `String(n)` of a natural: decimal digits without leading zeros. */
  function DecimalString(n: nat): (s: string)
    ensures s != [] && AllDigits(s)
    ensures s[0] == '0' ==> n == 0
    ensures n < 10 <==> |s| == 1
  {
    if n < 10 then [DigitChar(n)] else DecimalString(n / 10) + [DigitChar(n % 10)]
  }

  /** `parseInt(String(n))` gives `n` back. */
  lemma {:induction false} DecimalRoundTrip(n: nat)
    ensures DigitsValue(DecimalString(n)) == n
  {
    if n >= 10 {
      DecimalRoundTrip(n / 10);
      var s := DecimalString(n);
      assert s[..|s| - 1] == DecimalString(n / 10);
    }
  }

  /** `String(parseInt(ds))` gives back a digit run that has no leading zero. */
  lemma {:induction false} DigitsRoundTrip(ds: string)
    requires ds != [] && AllDigits(ds)
    requires ds[0] != '0' || |ds| == 1
    ensures DecimalString(DigitsValue(ds)) == ds
    decreases |ds|
  {
    if |ds| > 1 {
      var init := ds[..|ds| - 1];
      assert init[0] == ds[0];
      DigitsRoundTrip(init);
      DigitsPositive(init);
      assert DigitsValue(ds) / 10 == DigitsValue(init);
      assert DigitsValue(ds) % 10 == DigitValue(ds[|ds| - 1]);
    }
  }

  lemma {:induction false} DigitsPositive(ds: string)
    requires ds != [] && AllDigits(ds) && ds[0] != '0'
    ensures DigitsValue(ds) >= 1
    decreases |ds|
  {
    if |ds| > 1 {
      var init := ds[..|ds| - 1];
      assert init[0] == ds[0];
      DigitsPositive(init);
    }
  }

  lemma {:induction false} DigitsBound(ds: string)
    requires AllDigits(ds)
    ensures DigitsValue(ds) < Pow10(|ds|)
    decreases |ds|
  {
    if ds != [] {
      DigitsBound(ds[..|ds| - 1]);
    }
  }

  function Pow10(n: nat): nat {
    if n == 0 then 1 else 10 * Pow10(n - 1)
  }

  /* ------------------------------ arrays ------------------------------ */

  /** `xs.filter(keep)`. */
  function Filter<T>(xs: seq<T>, keep: T -> bool): (r: seq<T>)
    ensures |r| <= |xs|
    ensures forall x | x in r :: x in xs && keep(x)
    ensures forall x | x in xs && keep(x) :: x in r
  {
    if xs == [] then []
    else
      var rest := Filter(xs[1..], keep);
      assert forall x | x in xs :: x == xs[0] || x in xs[1..];
      if keep(xs[0]) then [xs[0]] + rest else rest
  }

  /** The order of the kept elements is the order of the input: the filter
      of a longer array extends the filter of its prefix. */
  lemma {:induction false} FilterSnoc<T>(xs: seq<T>, x: T, keep: T -> bool)
    ensures Filter(xs + [x], keep) == Filter(xs, keep) + (if keep(x) then [x] else [])
  {
    if xs != [] {
      assert (xs + [x])[1..] == xs[1..] + [x];
      FilterSnoc(xs[1..], x, keep);
    }
  }

  /** `sub` is `xs` with some elements dropped and the rest in order. */
  predicate IsSubsequence<T(==)>(sub: seq<T>, xs: seq<T>) {
    if sub == [] then true
    else if xs == [] then false
    else if sub[0] == xs[0] then IsSubsequence(sub[1..], xs[1..])
    else IsSubsequence(sub, xs[1..])
  }

  /** A filter keeps the order of what it keeps. */
  lemma {:induction false} FilterIsSubsequence<T>(xs: seq<T>, keep: T -> bool)
    ensures IsSubsequence(Filter(xs, keep), xs)
  {
    if xs != [] {
      FilterIsSubsequence(xs[1..], keep);
      var rest := Filter(xs[1..], keep);
      if !keep(xs[0]) && rest != [] {
        // a dropped element cannot be the next one kept
        assert rest[0] in rest;
      }
    }
  }

  /** Two filters in a row keep what passes both tests. */
  lemma {:induction false} FilterFilter<T>(xs: seq<T>, p: T -> bool, q: T -> bool, both: T -> bool)
    requires forall x | x in xs :: both(x) == (p(x) && q(x))
    ensures Filter(Filter(xs, p), q) == Filter(xs, both)
  {
    if xs != [] {
      assert forall x | x in xs[1..] :: x in xs;
      FilterFilter(xs[1..], p, q, both);
    }
  }

  /** Keeping everything keeps the array as it is. */
  lemma {:induction false} FilterAll<T>(xs: seq<T>, keep: T -> bool)
    requires forall x | x in xs :: keep(x)
    ensures Filter(xs, keep) == xs
  {
    if xs != [] {
      assert forall x | x in xs[1..] :: x in xs;
      FilterAll(xs[1..], keep);
    }
  }

  /** The number of kept elements is the number of elements passing the test. */
  function Count<T>(xs: seq<T>, keep: T -> bool): nat {
    if xs == [] then 0 else (if keep(xs[0]) then 1 else 0) + Count(xs[1..], keep)
  }

  lemma {:induction false} FilterCount<T>(xs: seq<T>, keep: T -> bool)
    ensures |Filter(xs, keep)| == Count(xs, keep)
  {
    if xs != [] {
      FilterCount(xs[1..], keep);
    }
  }
}
