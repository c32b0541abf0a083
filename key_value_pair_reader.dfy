// The filtered KeyValuePairReader: walks a "key=value;key=value" text one
// item per Read, passing each key and value through a character filter.
module KeyValuePairReader {
  import opened Clr
  import opened Text
  import opened SpanExtensions

  /** KeyValuePair<string, string>; the default pair has null key and value. */
  datatype Pair = Pair(key: Option<string>, value: Option<string>)

  const DefaultPair: Pair := Pair(None, None)

  /** The filter used when none is given: it keeps every character. */
  const AcceptAll: char -> bool := c => true

  /** What one Read yields: whether an item was read, the pair, and the offset after it. */
  datatype Outcome = Outcome(more: bool, pair: Pair, next: nat)

  /**
   * The item that starts at `offset`: the text up to the next item separator,
   * or up to the end of the buffer when there is none.
   */
  function TokenAt(buffer: string, sep: string, offset: nat): string
    requires offset <= |buffer|
  {
    var pos := IndexOf(buffer[offset..], sep);
    var len := if pos == -1 then |buffer| - offset else pos;
    buffer[offset..offset + len]
  }

  /** The item is a slice of the buffer that holds no separator and ends at the first one, or at the end. */
  lemma TokenAtBounds(buffer: string, sep: string, offset: nat)
    requires offset <= |buffer|
    ensures var t := TokenAt(buffer, sep, offset);
      && offset + |t| <= |buffer| && t == buffer[offset..offset + |t|]
      && (forall k :: 0 <= k < |t| ==> !OccursAt(buffer[offset..], sep, k))
      && (OccursAt(buffer[offset..], sep, |t|)
          || (offset + |t| == |buffer| && forall k :: 0 <= k <= |buffer| - offset - |sep| ==> !OccursAt(buffer[offset..], sep, k)))
  {
    IndexOfFirst(buffer[offset..], sep);
  }

  /** The outcome of Read at `offset`, or the exception it throws. */
  function ReadAt(buffer: string, itemSep: string, keyValueSep: string,
                  keyFilter: char -> bool, valueFilter: char -> bool, offset: nat): Result<Outcome>
  {
    if offset >= |buffer| then Ok(Outcome(false, DefaultPair, offset))
    else
      var token := TokenAt(buffer, itemSep, offset);
      if |token| > 0 then
        var pos := IndexOf(token, keyValueSep);
        if pos == -1 then Err(InvalidOperation("Wrong string format"))
        else
          var key := Filter(token[..pos], keyFilter);
          var value := Filter(token[pos + |keyValueSep|..], valueFilter);
          Ok(Outcome(true, Pair(Some(key), Some(value)), offset + |token| + |itemSep|))
      else Ok(Outcome(true, DefaultPair, offset + |token| + |itemSep|))
  }

  /** Read returns false, and leaves the offset, exactly at or past the end of the buffer. */
  lemma ReadAtEnd(buffer: string, itemSep: string, keyValueSep: string,
                  keyFilter: char -> bool, valueFilter: char -> bool, offset: nat)
    ensures var r := ReadAt(buffer, itemSep, keyValueSep, keyFilter, valueFilter, offset);
      ((r.Ok? && !r.value.more) <==> offset >= |buffer|)
      && (r.Ok? && !r.value.more ==> r.value == Outcome(false, DefaultPair, offset))
  {
  }

  /**
   * A successful Read moves past the item and its separator; an empty item
   * yields the default pair; an item without the key/value separator throws.
   */
  lemma ReadAtItem(buffer: string, itemSep: string, keyValueSep: string,
                   keyFilter: char -> bool, valueFilter: char -> bool, offset: nat)
    requires offset < |buffer|
    ensures var r := ReadAt(buffer, itemSep, keyValueSep, keyFilter, valueFilter, offset);
      var t := TokenAt(buffer, itemSep, offset);
      && (r.Err? <==> t != [] && IndexOf(t, keyValueSep) == -1)
      && (r.Err? ==> r.error == InvalidOperation("Wrong string format"))
      && (r.Ok? ==> r.value.more && r.value.next == offset + |t| + |itemSep|)
      && (t == [] ==> r == Ok(Outcome(true, DefaultPair, offset + |itemSep|)))
  {
  }

  /** The key is the filtered text before the first key/value separator, the value the filtered text after it. */
  lemma ReadAtPair(buffer: string, itemSep: string, keyValueSep: string,
                   keyFilter: char -> bool, valueFilter: char -> bool, offset: nat)
    requires offset < |buffer|
    requires ReadAt(buffer, itemSep, keyValueSep, keyFilter, valueFilter, offset).Ok?
    requires TokenAt(buffer, itemSep, offset) != []
    ensures var t := TokenAt(buffer, itemSep, offset);
      var p := IndexOf(t, keyValueSep);
      && 0 <= p && p + |keyValueSep| <= |t|
      && ReadAt(buffer, itemSep, keyValueSep, keyFilter, valueFilter, offset).value.pair
         == Pair(Some(Filter(t[..p], keyFilter)), Some(Filter(t[p + |keyValueSep|..], valueFilter)))
  {
    var t := TokenAt(buffer, itemSep, offset);
    var p := IndexOf(t, keyValueSep);
    var key := Filter(t[..p], keyFilter);
    var value := Filter(t[p + |keyValueSep|..], valueFilter);
    assert ReadAt(buffer, itemSep, keyValueSep, keyFilter, valueFilter, offset)
      == Ok(Outcome(true, Pair(Some(key), Some(value)), offset + |t| + |itemSep|));
  }

  /** The reader; it owns its offset into the text. */
  class Reader {
    const buffer: string
    const itemSep: string
    const keyValueSep: string
    const keyFilter: char -> bool
    const valueFilter: char -> bool
    var offset: nat

    /** A missing filter is replaced by the one that keeps every character. */
    constructor (text: string, itemSeparator: string, keyValueSeparator: string,
                 keyCharFilter: Option<char -> bool>, valueCharFilter: Option<char -> bool>)
      ensures buffer == text && itemSep == itemSeparator && keyValueSep == keyValueSeparator
      ensures keyFilter == (if keyCharFilter.Some? then keyCharFilter.value else AcceptAll)
      ensures valueFilter == (if valueCharFilter.Some? then valueCharFilter.value else AcceptAll)
      ensures offset == 0
    {
      buffer := text;
      itemSep := itemSeparator;
      keyValueSep := keyValueSeparator;
      var kf: char -> bool := if keyCharFilter.Some? then keyCharFilter.value else AcceptAll;
      var vf: char -> bool := if valueCharFilter.Some? then valueCharFilter.value else AcceptAll;
      keyFilter := kf;
      valueFilter := vf;
      offset := 0;
    }

    /** Read: the next pair, advancing past it and its separator; the offset stays put on false or on a throw. */
    method Read() returns (r: Result<(bool, Pair)>)
      modifies this`offset
      ensures var o := ReadAt(buffer, itemSep, keyValueSep, keyFilter, valueFilter, old(offset));
        && (o.Err? ==> r == Err(o.error) && offset == old(offset))
        && (o.Ok? ==> r == Ok((o.value.more, o.value.pair)) && offset == o.value.next)
    {
      var pair := DefaultPair;
      var len := |buffer|;
      if offset >= len {
        return Ok((false, pair));
      }
      var pos := IndexOf(buffer[offset..], itemSep);
      if pos == -1 {
        pos := len - offset;
      }
      var token := buffer[offset..offset + pos];
      if |token| > 0 {
        pos := IndexOf(token, keyValueSep);
        if pos == -1 {
          return Err(InvalidOperation("Wrong string format"));
        }
        var key := FilterToString(token[..pos], keyFilter);
        var value := FilterToString(token[pos + |keyValueSep|..], valueFilter);
        pair := Pair(Some(key), Some(value));
      }
      offset := offset + |token| + |itemSep|;
      return Ok((true, pair));
    }
  }

  /** With a non-empty item separator every successful Read moves forward, so reading to the end terminates. */
  lemma ReadAdvances(buffer: string, itemSep: string, keyValueSep: string,
                     keyFilter: char -> bool, valueFilter: char -> bool, offset: nat)
    requires |itemSep| > 0
    requires ReadAt(buffer, itemSep, keyValueSep, keyFilter, valueFilter, offset).Ok?
    requires ReadAt(buffer, itemSep, keyValueSep, keyFilter, valueFilter, offset).value.more
    ensures ReadAt(buffer, itemSep, keyValueSep, keyFilter, valueFilter, offset).value.next > offset
  {
  }

  /**
   * One item "k=v;" is read as the pair of the filtered key and the
   * filtered value: the key stops at the first '=', so the value may
   * itself contain '='.
   */
  lemma ReadItemFiltered(pre: string, k: string, v: string, rest: string, keyFilter: char -> bool, valueFilter: char -> bool)
    requires '=' !in k && ';' !in k && ';' !in v
    ensures var buffer := pre + (k + "=" + v) + ";" + rest;
      ReadAt(buffer, ";", "=", keyFilter, valueFilter, |pre|)
        == Ok(Outcome(true, Pair(Some(Filter(k, keyFilter)), Some(Filter(v, valueFilter))), |pre| + |k| + |v| + 2))
  {
    var item := k + "=" + v;
    var buffer := pre + item + ";" + rest;
    SemicolonFree(k, v);
    ItemToken(pre, item, rest);
    assert TokenAt(buffer, ";", |pre|) == item;
    IndexOfAfterPrefix(k, '=', v);
    assert item == k + ['='] + v;
    assert IndexOf(item, "=") == |k|;
    assert item[..|k|] == k && item[|k| + 1..] == v;
    ReadAtItem(buffer, ";", "=", keyFilter, valueFilter, |pre|);
    ReadAtPair(buffer, ";", "=", keyFilter, valueFilter, |pre|);
    var r := ReadAt(buffer, ";", "=", keyFilter, valueFilter, |pre|);
    assert r.value.pair == Pair(Some(Filter(item[..|k|], keyFilter)), Some(Filter(item[|k| + 1..], valueFilter)));
    assert r.value.next == |pre| + |item| + 1;
    assert r.Ok? && r.value.more;
    assert r.value == Outcome(true, Pair(Some(Filter(k, keyFilter)), Some(Filter(v, valueFilter))), |pre| + |k| + |v| + 2);
  }

  /** When the filters keep every character of k and v, the item "k=v;" is read back as the pair (k, v). */
  lemma ReadItem(pre: string, k: string, v: string, rest: string, keyFilter: char -> bool, valueFilter: char -> bool)
    requires '=' !in k && ';' !in k && ';' !in v
    requires forall i :: 0 <= i < |k| ==> keyFilter(k[i])
    requires forall i :: 0 <= i < |v| ==> valueFilter(v[i])
    ensures var buffer := pre + (k + "=" + v) + ";" + rest;
      ReadAt(buffer, ";", "=", keyFilter, valueFilter, |pre|)
        == Ok(Outcome(true, Pair(Some(k), Some(v)), |pre| + |k| + |v| + 2))
  {
    ReadItemFiltered(pre, k, v, rest, keyFilter, valueFilter);
    FilterKeepsAll(k, keyFilter);
    FilterKeepsAll(v, valueFilter);
  }

  /** The item between a prefix and the next ';' is the token read there. */
  lemma ItemToken(pre: string, item: string, rest: string)
    requires ';' !in item
    ensures TokenAt(pre + item + ";" + rest, ";", |pre|) == item
  {
    var buffer := pre + item + ";" + rest;
    assert buffer[|pre|..] == item + [';'] + rest;
    IndexOfAfterPrefix(item, ';', rest);
  }

  lemma SemicolonFree(k: string, v: string)
    requires ';' !in k && ';' !in v
    ensures ';' !in k + "=" + v
  {
  }
}
