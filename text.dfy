// Runtime text operations the library calls: upper-casing, the string hash,
// ordinal search, string.Join, integer formatting and parsing.
module Text {
  import opened Clr

  /** char.ToUpper restricted to ASCII letters; other characters are kept. */
  function ToUpperChar(c: char): char {
    if 'a' <= c <= 'z' then (c as int - 32) as char else c
  }

  /** string.ToUpper (ASCII letters only). */
  function ToUpper(s: string): string {
    seq(|s|, i requires 0 <= i < |s| => ToUpperChar(s[i]))
  }

  lemma ToUpperIdempotent(s: string)
    ensures ToUpper(ToUpper(s)) == ToUpper(s)
  {
  }

  /** string.Equals(a, b, StringComparison.OrdinalIgnoreCase) for ASCII case. */
  predicate EqualsIgnoreCase(a: string, b: string) {
    ToUpper(a) == ToUpper(b)
  }

  /**
   * char.IsWhiteSpace: the space separators (U+0020, U+00A0, U+1680,
   * U+2000-U+200A, U+202F, U+205F, U+3000), U+0009-U+000D, U+0085 and the
   * line and paragraph separators U+2028 and U+2029.
   */
  predicate IsWhiteSpace(c: char) {
    c == ' ' || '\t' <= c <= '\r' || c == '\U{85}' || c == '\U{A0}' || c == '\U{1680}'
    || '\U{2000}' <= c <= '\U{200A}' || c == '\U{2028}' || c == '\U{2029}' || c == '\U{202F}'
    || c == '\U{205F}' || c == '\U{3000}'
  }

  /** What bool.TryParse trims from either end of its input: white space and U+0000. */
  predicate WhiteOrNul(c: char) {
    IsWhiteSpace(c) || c == '\0'
  }

  /** The text with its leading white space and U+0000 characters dropped. */
  function TrimStartWhiteOrNul(s: string): (r: string)
    ensures |r| <= |s| && r == s[|s| - |r|..]
    ensures r != [] ==> !WhiteOrNul(r[0])
    ensures forall i :: 0 <= i < |s| - |r| ==> WhiteOrNul(s[i])
  {
    if s != [] && WhiteOrNul(s[0]) then TrimStartWhiteOrNul(s[1..]) else s
  }

  /** The text with its trailing white space and U+0000 characters dropped. */
  function TrimEndWhiteOrNul(s: string): (r: string)
    ensures |r| <= |s| && r == s[..|r|]
    ensures r != [] ==> !WhiteOrNul(r[|r| - 1])
    ensures forall i :: |r| <= i < |s| ==> WhiteOrNul(s[i])
  {
    if s != [] && WhiteOrNul(s[|s| - 1]) then TrimEndWhiteOrNul(s[..|s| - 1]) else s
  }

  /** Both ends trimmed, as bool.TryParse does before its second comparison. */
  function TrimWhiteOrNul(s: string): string {
    TrimEndWhiteOrNul(TrimStartWhiteOrNul(s))
  }

  /**
   * Padding made of white space and U+0000 is exactly what trimming takes
   * off: a core that neither starts nor ends with such a character is kept.
   */
  lemma TrimPadded(pre: string, core: string, post: string)
    requires forall i :: 0 <= i < |pre| ==> WhiteOrNul(pre[i])
    requires forall i :: 0 <= i < |post| ==> WhiteOrNul(post[i])
    requires core != [] && !WhiteOrNul(core[0]) && !WhiteOrNul(core[|core| - 1])
    ensures TrimWhiteOrNul(pre + core + post) == core
  {
    var s := pre + core + post;
    var a := TrimStartWhiteOrNul(s);
    assert s[|pre|] == core[0];
    assert forall k :: 0 <= k < |pre| ==> s[k] == pre[k];
    assert a[0] == s[|s| - |a|];
    assert a == core + post;
    var b := TrimEndWhiteOrNul(a);
    assert a[|core| - 1] == core[|core| - 1];
    assert forall k :: |core| <= k < |a| ==> a[k] == post[k - |core|];
    assert b != [] ==> b[|b| - 1] == a[|b| - 1];
    assert b == core;
  }

  /**
   * string.GetHashCode. The runtime's hash is randomised per process; the
   * model fixes one deterministic hash, and nothing proved here depends on
   * which one it is beyond its being a function of the text.
   */
  function StringHash(s: string): bv32 {
    if |s| == 0 then 5381
    else StringHash(s[..|s| - 1]) * 33 + ((s[|s| - 1] as int % 0x1_0000_0000) as bv32)
  }

  predicate OccursAt<T(==)>(s: seq<T>, pat: seq<T>, k: int) {
    0 <= k && k + |pat| <= |s| && s[k..k + |pat|] == pat
  }

  /** MemoryExtensions.IndexOf: the first position where `pat` occurs in `s`, or -1. */
  function IndexOf<T(==)>(s: seq<T>, pat: seq<T>): (r: int)
    ensures -1 <= r && (r >= 0 ==> r + |pat| <= |s|)
  {
    IndexFrom(s, pat, 0)
  }

  /** The first position at or after `i` where `pat` occurs in `s`, or -1. */
  function IndexFrom<T(==)>(s: seq<T>, pat: seq<T>, i: nat): (r: int)
    ensures -1 <= r && (r >= 0 ==> i <= r && r + |pat| <= |s|)
    decreases |s| - i
  {
    if i + |pat| > |s| then -1
    else if OccursAt(s, pat, i) then i
    else IndexFrom(s, pat, i + 1)
  }

  lemma {:induction false} IndexFromFirst<T>(s: seq<T>, pat: seq<T>, i: nat)
    ensures var r := IndexFrom(s, pat, i);
      && (r == -1 <==> forall k :: i <= k <= |s| - |pat| ==> !OccursAt(s, pat, k))
      && (r >= 0 ==> OccursAt(s, pat, r) && forall k :: i <= k < r ==> !OccursAt(s, pat, k))
    decreases |s| - i
  {
    if i + |pat| <= |s| && !OccursAt(s, pat, i) {
      IndexFromFirst(s, pat, i + 1);
    }
  }

  /** IndexOf finds an occurrence exactly when there is one, and then the first. */
  lemma IndexOfFirst<T>(s: seq<T>, pat: seq<T>)
    ensures var r := IndexOf(s, pat);
      && (r == -1 <==> forall k :: 0 <= k <= |s| - |pat| ==> !OccursAt(s, pat, k))
      && (r >= 0 ==> OccursAt(s, pat, r) && forall k :: 0 <= k < r ==> !OccursAt(s, pat, k))
  {
    IndexFromFirst(s, pat, 0);
  }

  /** string.Join(sep, xs). */
  function Join(sep: string, xs: seq<string>): string {
    if |xs| == 0 then ""
    else if |xs| == 1 then xs[0]
    else xs[0] + sep + Join(sep, xs[1..])
  }

  function DigitChar(d: int): char
    requires 0 <= d < 10
  {
    "0123456789"[d]
  }

  /** The decimal digits of a natural number, most significant first. */
  function NatToString(n: nat): (s: string)
    ensures |s| > 0
    ensures forall i :: 0 <= i < |s| ==> '0' <= s[i] <= '9'
  {
    if n < 10 then [DigitChar(n)] else NatToString(n / 10) + [DigitChar(n % 10)]
  }

  /** int.ToString() with the invariant-culture minus sign. */
  function IntToString(i: int): (s: string)
    ensures |s| > 0
    ensures forall k :: 0 <= k < |s| ==> s[k] == '-' || '0' <= s[k] <= '9'
  {
    if i < 0 then "-" + NatToString(-i) else NatToString(i)
  }

  predicate IsDigit(c: char) { '0' <= c <= '9' }

  /** The value of a run of decimal digits. */
  function DigitsValue(s: string): (n: nat)
    requires forall k :: 0 <= k < |s| ==> IsDigit(s[k])
    decreases |s|
  {
    if |s| == 0 then 0
    else
      assert IsDigit(s[|s| - 1]);
      DigitsValue(s[..|s| - 1]) * 10 + (s[|s| - 1] as int - '0' as int)
  }

  /**
   * The integer an int.TryParse accepts: an optional leading sign and at
   * least one decimal digit; None when the text is not of that form.
   */
  function ParseInteger(s: string): (r: Option<int>)
    ensures r.Some? ==> |s| > 0
  {
    var sign := if |s| > 0 && (s[0] == '-' || s[0] == '+') then 1 else 0;
    var digits := s[sign..];
    if |digits| == 0 || exists k :: 0 <= k < |digits| && !IsDigit(digits[k]) then None
    else
      var magnitude: int := DigitsValue(digits);
      if sign == 1 && s[0] == '-' then Some(-magnitude) else Some(magnitude)
  }

  lemma {:induction false} DigitsOfNat(n: nat)
    ensures DigitsValue(NatToString(n)) == n
    decreases n
  {
    var s := NatToString(n);
    if n >= 10 {
      DigitsOfNat(n / 10);
      assert s[..|s| - 1] == NatToString(n / 10);
    }
    var d := if n < 10 then n else n % 10;
    assert s[|s| - 1] == DigitChar(d);
    assert DigitChar(d) as int - '0' as int == d by {
      assert d in {0, 1, 2, 3, 4, 5, 6, 7, 8, 9};
    }
  }

  /** Parsing the text of an integer gives the integer back. */
  lemma ParseIntegerOfText(i: int)
    ensures ParseInteger(IntToString(i)) == Some(i)
  {
    if i < 0 {
      DigitsOfNat(-i);
      SignedDigitsParse(NatToString(-i));
    } else {
      DigitsOfNat(i);
      DigitsParse(NatToString(i));
    }
  }

  lemma DigitsParse(d: string)
    requires |d| > 0 && forall k :: 0 <= k < |d| ==> IsDigit(d[k])
    ensures ParseInteger(d) == Some(DigitsValue(d))
  {
    assert IsDigit(d[0]);
    assert d[0..] == d;
  }

  lemma SignedDigitsParse(d: string)
    requires |d| > 0 && forall k :: 0 <= k < |d| ==> IsDigit(d[k])
    ensures ParseInteger("-" + d) == Some(-(DigitsValue(d) as int))
  {
    assert ("-" + d)[1..] == d;
  }
}
