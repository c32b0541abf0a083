// SpanExtensions: the token, prefix, suffix and filtering helpers that the
// connection-string readers build on. Spans are sequences; a slice of a
// span is a subsequence of consecutive elements.
module SpanExtensions {
  import opened Clr
  import opened Text

  // ----- GetToken -----

  /**
   * What remains of `t` once `n` separators have been skipped, each search
   * starting where the previous separator ended; None when one is missing.
   */
  function SkipSeparators(t: string, sep: string, n: nat): Option<string>
    decreases n
  {
    if n == 0 then Some(t)
    else
      var pos := IndexOf(t, sep);
      if pos < 0 then None else SkipSeparators(t[pos + |sep|..], sep, n - 1)
  }

  /** The token at the head of `t`: up to a separator found at a positive distance, otherwise all of `t`. */
  function HeadToken(t: string, sep: string): string {
    var finish := IndexOf(t, sep);
    if finish > 0 then t[..finish] else t
  }

  /** The token GetToken(str, index, separator) returns; a negative index skips nothing. */
  function Token(str: string, index: int, sep: string): string {
    match SkipSeparators(str, sep, if index < 0 then 0 else index)
    case None => []
    case Some(rest) => HeadToken(rest, sep)
  }

  /** GetToken: skips `index` separators, then takes the text up to the next one. */
  method GetToken(str: string, index: int, separator: string) returns (token: string)
    ensures token == Token(str, index, separator)
  {
    var found, start := SkipToken(str, index, separator);
    if !found {
      return [];
    }
    var finish := IndexOf(str[start..], separator);
    if finish > 0 {
      assert str[start..][..finish] == str[start..start + finish];
      token := str[start..start + finish];
    } else {
      token := str[start..];
    }
  }

  /** GetToken's loop: the offset after `index` separators, or false when one is missing. */
  method SkipToken(str: string, index: int, separator: string) returns (found: bool, start: nat)
    ensures start <= |str|
    ensures SkipSeparators(str, separator, if index < 0 then 0 else index)
      == if found then Some(str[start..]) else None
  {
    start := 0;
    var len := |separator|;
    ghost var n: nat := if index < 0 then 0 else index;
    ghost var target := SkipSeparators(str, separator, n);
    var i := 0;
    assert str[start..] == str;
    while i < index
      invariant start <= |str|
      invariant 0 <= i <= n
      invariant target == SkipSeparators(str[start..], separator, n - i)
    {
      var pos := IndexOf(str[start..], separator);
      if pos < 0 {
        return false, start;
      }
      var next := start + (len + pos);
      SkipStep(str, separator, start, next, n - (i + 1));
      start := next;
      i := i + 1;
    }
    found := true;
  }

  lemma SkipStep(str: string, sep: string, start: nat, next: nat, m: nat)
    requires start <= |str| && IndexOf(str[start..], sep) >= 0
    requires next == start + |sep| + IndexOf(str[start..], sep)
    ensures next <= |str|
    ensures SkipSeparators(str[start..], sep, m + 1) == SkipSeparators(str[next..], sep, m)
  {
    var pos := IndexOf(str[start..], sep);
    assert str[start..][pos + |sep|..] == str[next..];
  }

  /** What is left after skipping separators is a suffix of the text. */
  lemma {:induction false} SkipIsSuffix(t: string, sep: string, n: nat)
    ensures SkipSeparators(t, sep, n).Some? ==>
      |SkipSeparators(t, sep, n).value| <= |t|
      && SkipSeparators(t, sep, n).value == t[|t| - |SkipSeparators(t, sep, n).value|..]
    decreases n
  {
    if n > 0 {
      var pos := IndexOf(t, sep);
      if pos >= 0 {
        var u := t[pos + |sep|..];
        SkipIsSuffix(u, sep, n - 1);
        if SkipSeparators(u, sep, n - 1).Some? {
          var v := SkipSeparators(u, sep, n - 1).value;
          assert u[|u| - |v|..] == t[|t| - |v|..];
        }
      }
    }
  }

  /** The token is always a run of consecutive characters of the input. */
  lemma TokenIsSlice(str: string, index: int, sep: string)
    ensures exists i, j :: 0 <= i <= j <= |str| && Token(str, index, sep) == str[i..j]
  {
    var n := if index < 0 then 0 else index;
    SkipIsSuffix(str, sep, n);
    match SkipSeparators(str, sep, n)
    case None =>
      assert Token(str, index, sep) == str[0..0];
    case Some(rest) =>
      var i := |str| - |rest|;
      var finish := IndexOf(rest, sep);
      if finish > 0 {
        assert rest[..finish] == str[i..i + finish];
      } else {
        assert rest == str[i..|str|];
      }
  }

  /** With fewer separators in the text than `index`, the token is empty. */
  lemma NoSeparatorEmptyToken(str: string, index: int, sep: string)
    requires index > 0
    requires IndexOf(str, sep) < 0
    ensures Token(str, index, sep) == []
  {
  }

  /** Where a single-character separator first occurs after a separator-free prefix. */
  lemma IndexOfAfterPrefix(p: string, c: char, rest: string)
    requires c !in p
    ensures IndexOf(p + [c] + rest, [c]) == |p|
  {
    var t := p + [c] + rest;
    IndexOfFirst(t, [c]);
    assert OccursAt(t, [c], |p|) by {
      assert t[|p|..|p| + 1] == [c];
    }
    forall k | 0 <= k < |p|
      ensures !OccursAt(t, [c], k)
    {
      assert t[k] == p[k];
    }
  }

  lemma IndexOfAbsent(p: string, c: char)
    requires c !in p
    ensures IndexOf(p, [c]) == -1
  {
    IndexOfFirst(p, [c]);
    forall k | 0 <= k < |p|
      ensures !OccursAt(p, [c], k)
    {
      assert p[k] in p;
    }
  }

  /**
   * Splitting a joined list: with a one-character separator that no part
   * contains, the token at position i of the joined text is part i,
   * provided that part is not empty.
   */
  lemma {:induction false} TokenOfJoin(c: char, parts: seq<string>, i: nat)
    requires forall k :: 0 <= k < |parts| ==> c !in parts[k]
    requires i < |parts| && parts[i] != []
    ensures Token(Join([c], parts), i, [c]) == parts[i]
  {
    SkipJoin(c, parts, i);
    var rest := Join([c], parts[i..]);
    if |parts[i..]| == 1 {
      assert rest == parts[i];
      IndexOfAbsent(parts[i], c);
    } else {
      assert parts[i..][1..] == parts[i + 1..];
      IndexOfAfterPrefix(parts[i], c, Join([c], parts[i + 1..]));
      assert rest == parts[i] + [c] + Join([c], parts[i + 1..]);
    }
  }

  lemma {:induction false} SkipJoin(c: char, parts: seq<string>, n: nat)
    requires forall k :: 0 <= k < |parts| ==> c !in parts[k]
    requires n < |parts|
    ensures SkipSeparators(Join([c], parts), [c], n) == Some(Join([c], parts[n..]))
    decreases n
  {
    if n > 0 {
      var t := Join([c], parts);
      var tail := Join([c], parts[1..]);
      assert t == parts[0] + [c] + tail;
      IndexOfAfterPrefix(parts[0], c, tail);
      assert t[|parts[0]| + 1..] == tail;
      SkipJoin(c, parts[1..], n - 1);
      assert parts[1..][n - 1..] == parts[n..];
    } else {
      assert parts[0..] == parts;
    }
  }

  // ----- Left and Right -----

  function Min(a: int, b: int): int { if a < b then a else b }

  /** Left: the first min(n, |s|) elements; a negative n is out of range unless the span is empty (the slice throws, naming no parameter). */
  function Left<T>(source: seq<T>, n: int): (r: Result<seq<T>>)
    ensures r.Err? <==> |source| > 0 && n < 0
    ensures r.Err? ==> r.error == ArgumentOutOfRange("")
    ensures r.Ok? ==> |r.value| == Min(n, |source|) || (|source| == 0 && r.value == [])
    ensures r.Ok? ==> r.value == source[..|r.value|]
  {
    if |source| == 0 then Ok([])
    else if n < 0 then Err(ArgumentOutOfRange(""))
    else Ok(source[..Min(n, |source|)])
  }

  /** Right: the last min(n, |s|) elements; a negative n is out of range unless the span is empty (the slice throws, naming no parameter). */
  function Right<T>(source: seq<T>, n: int): (r: Result<seq<T>>)
    ensures r.Err? <==> |source| > 0 && n < 0
    ensures r.Err? ==> r.error == ArgumentOutOfRange("")
    ensures r.Ok? ==> |r.value| == Min(n, |source|) || (|source| == 0 && r.value == [])
    ensures r.Ok? ==> r.value == source[|source| - |r.value|..]
  {
    if |source| == 0 then Ok([])
    else if n < 0 then Err(ArgumentOutOfRange(""))
    else Ok(source[|source| - Min(n, |source|)..])
  }

  /** A prefix and the complementary suffix put the span back together. */
  lemma LeftRightSplit<T>(source: seq<T>, k: nat)
    requires k <= |source|
    ensures Left(source, k).Ok? && Right(source, |source| - k).Ok?
    ensures Left(source, k).value + Right(source, |source| - k).value == source
  {
    if |source| > 0 {
      assert source[..k] + source[k..] == source;
    }
  }

  // ----- ToString(filter) -----

  /** The characters of `s` that satisfy `filter`, in their original order. */
  function Filter(s: string, filter: char -> bool): string
    decreases |s|
  {
    if |s| == 0 then ""
    else Filter(s[..|s| - 1], filter) + (if filter(s[|s| - 1]) then [s[|s| - 1]] else [])
  }

  /** ToString(filter): copies the accepted characters into a buffer as long as the span. */
  method FilterToString(chars: string, filter: char -> bool) returns (r: string)
    ensures r == Filter(chars, filter)
  {
    if chars == [] {
      return "";
    }
    var target := new char[|chars|];
    var j := 0;
    for i := 0 to |chars|
      invariant 0 <= j <= i
      invariant target[..j] == Filter(chars[..i], filter)
    {
      assert chars[..i + 1][..i] == chars[..i];
      var c := chars[i];
      if filter(c) {
        target[j] := c;
        j := j + 1;
      }
    }
    assert chars[..|chars|] == chars;
    r := target[..j];
  }

  lemma {:induction false} FilterAppend(s: string, t: string, filter: char -> bool)
    ensures Filter(s + t, filter) == Filter(s, filter) + Filter(t, filter)
    decreases |t|
  {
    if |t| > 0 {
      assert (s + t)[..|s + t| - 1] == s + t[..|t| - 1];
      FilterAppend(s, t[..|t| - 1], filter);
    } else {
      assert s + t == s;
    }
  }

  /** Every kept character passes the filter, and no character is invented. */
  lemma {:induction false} FilterSound(s: string, filter: char -> bool)
    ensures |Filter(s, filter)| <= |s|
    ensures forall k :: 0 <= k < |Filter(s, filter)| ==> filter(Filter(s, filter)[k])
    ensures forall c :: c in Filter(s, filter) ==> c in s
    decreases |s|
  {
    if |s| > 0 {
      FilterSound(s[..|s| - 1], filter);
      assert forall c :: c in s[..|s| - 1] ==> c in s;
    }
  }

  /** Every character of `s` that passes the filter is kept. */
  lemma {:induction false} FilterComplete(s: string, filter: char -> bool)
    ensures forall c :: c in s && filter(c) ==> c in Filter(s, filter)
    decreases |s|
  {
    if |s| > 0 {
      FilterComplete(s[..|s| - 1], filter);
      forall c | c in s && filter(c)
        ensures c in Filter(s, filter)
      {
        if c != s[|s| - 1] {
          var k :| 0 <= k < |s| && s[k] == c;
          assert s[..|s| - 1][k] == c;
        }
      }
    }
  }

  /** A filter that accepts every character of the text keeps the text as it is. */
  lemma {:induction false} FilterKeepsAll(s: string, filter: char -> bool)
    requires forall k :: 0 <= k < |s| ==> filter(s[k])
    ensures Filter(s, filter) == s
    decreases |s|
  {
    if |s| > 0 {
      FilterKeepsAll(s[..|s| - 1], filter);
      assert s[..|s| - 1] + [s[|s| - 1]] == s;
    }
  }
}
