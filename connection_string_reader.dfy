// The unfiltered KeyValuePairReader of the connection-string code, and its
// static GetToken. Keys and values are taken as they stand.
module ConnectionStringReader {
  import opened Clr
  import opened Text
  import opened SpanExtensions
  import Filtered = KeyValuePairReader

  type Pair = Filtered.Pair

  /** The outcome of Read at `offset`, or the exception it throws. */
  function ReadAt(buffer: string, itemSep: string, keyValueSep: string, offset: nat): Result<Filtered.Outcome> {
    if offset >= |buffer| then Ok(Filtered.Outcome(false, Filtered.DefaultPair, offset))
    else
      var token := Filtered.TokenAt(buffer, itemSep, offset);
      if |token| > 0 then
        var pos := IndexOf(token, keyValueSep);
        if pos == -1 then Err(InvalidOperation("Wrong string format"))
        else Ok(Filtered.Outcome(true, Filtered.Pair(Some(token[..pos]), Some(token[pos + |keyValueSep|..])),
                                 offset + |token| + |itemSep|))
      else Ok(Filtered.Outcome(true, Filtered.DefaultPair, offset + |token| + |itemSep|))
  }

  class Reader {
    const buffer: string
    const itemSep: string
    const keyValueSep: string
    var offset: nat

    constructor (text: string, itemSeparator: string, keyValueSeparator: string)
      ensures buffer == text && itemSep == itemSeparator && keyValueSep == keyValueSeparator && offset == 0
    {
      buffer := text;
      itemSep := itemSeparator;
      keyValueSep := keyValueSeparator;
      offset := 0;
    }

    /** Read: the next pair, advancing past it and its separator; the offset stays put on false or on a throw. */
    method Read() returns (r: Result<(bool, Pair)>)
      modifies this`offset
      ensures var o := ReadAt(buffer, itemSep, keyValueSep, old(offset));
        && (o.Err? ==> r == Err(o.error) && offset == old(offset))
        && (o.Ok? ==> r == Ok((o.value.more, o.value.pair)) && offset == o.value.next)
    {
      var pair := Filtered.DefaultPair;
      var len := |buffer|;
      if offset >= len {
        return Ok((false, pair));
      }
      var pos := IndexOf(buffer[offset..], itemSep);
      if pos == -1 {
        pos := len - offset;
      }
      var token := buffer[offset..offset + pos];
      if |token| > 0 {
        pos := IndexOf(token, keyValueSep);
        if pos == -1 {
          return Err(InvalidOperation("Wrong string format"));
        }
        pair := Filtered.Pair(Some(token[..pos]), Some(token[pos + |keyValueSep|..]));
      }
      offset := offset + |token| + |itemSep|;
      return Ok((true, pair));
    }
  }

  /** This reader reads what the filtered reader reads with its default, accept-everything filters. */
  lemma SameAsUnfiltered(buffer: string, itemSep: string, keyValueSep: string, offset: nat)
    ensures ReadAt(buffer, itemSep, keyValueSep, offset)
      == Filtered.ReadAt(buffer, itemSep, keyValueSep, Filtered.AcceptAll, Filtered.AcceptAll, offset)
  {
    if offset < |buffer| {
      var token := Filtered.TokenAt(buffer, itemSep, offset);
      var pos := IndexOf(token, keyValueSep);
      if |token| > 0 && pos != -1 {
        FilterKeepsAll(token[..pos], Filtered.AcceptAll);
        FilterKeepsAll(token[pos + |keyValueSep|..], Filtered.AcceptAll);
      }
    }
  }

  /**
   * GetToken(source, separator, offset): empty from the end of the source on;
   * otherwise the text up to a separator at a positive distance, else the
   * whole remainder. A negative offset is out of range for the slice.
   */
  function GetToken(source: string, separator: string, offset: int): (r: Result<string>)
    ensures offset >= |source| ==> r == Ok([])
    ensures r.Err? <==> offset < 0
    ensures 0 <= offset < |source| ==> r == Ok(HeadToken(source[offset..], separator))
  {
    var start := offset;
    var totalLen := |source|;
    if start >= totalLen then Ok([])
    else if start < 0 then Err(ArgumentOutOfRange(""))
    else
      var finish := IndexOf(source[start..], separator);
      if finish > 0 then
        assert source[start..][..finish] == source[start..start + finish];
        Ok(source[start..start + finish])
      else Ok(source[start..])
  }

  /**
   * The token is a slice that starts at the offset and ends at the end of the
   * source or right before a separator; unless a separator sits at the offset
   * itself, the token holds none.
   */
  lemma GetTokenStopsAtSeparator(source: string, separator: string, offset: nat)
    requires offset < |source|
    ensures GetToken(source, separator, offset).Ok?
    ensures var t := GetToken(source, separator, offset).value;
      && t == source[offset..offset + |t|]
      && (offset + |t| == |source| || OccursAt(source[offset..], separator, |t|))
      && (!OccursAt(source[offset..], separator, 0) ==>
            forall k :: 0 <= k < |t| ==> !OccursAt(source[offset..], separator, k))
  {
    var rest := source[offset..];
    IndexOfFirst(rest, separator);
    var finish := IndexOf(rest, separator);
    if finish > 0 {
      assert rest[..finish] == source[offset..offset + finish];
    } else {
      assert rest == source[offset..offset + |rest|];
    }
  }

  /** A separator right at the offset does not end the token: the whole remainder is returned. */
  lemma GetTokenSeparatorAtOffset(source: string, separator: string, offset: nat)
    requires offset < |source|
    requires OccursAt(source[offset..], separator, 0)
    ensures GetToken(source, separator, offset) == Ok(source[offset..])
  {
    IndexOfFirst(source[offset..], separator);
  }
}
