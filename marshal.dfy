// The value conversions both command revisions share: which typed Bind
// overload a boxed object reaches, and what each typed overload hands to the
// engine (lists become bracketed literal text, times become ticks or text).
module Marshal {
  import opened Clr
  import opened Native
  import Text
  import Utf8z

  /** The typed Bind overloads, each with the value it receives. */
  datatype Param =
    | NullParam
    | IntParam(i: int32)
    | BoolParam(b: bool)
    | LongParam(l: int64)
    | DoubleParam(d: Float64)
    | BytesParam(bytes: seq<uint8>)
    | IntListParam(ints: seq<int32>)
    | LongListParam(longs: seq<int64>)
    | DoubleListParam(doubles: seq<Float64>)
    | StringListParam(strings: seq<string>)
    | StringParam(s: string)
    | GuidParam(guid: GuidBits)
    | DateTimeParam(dateTicks: int64)
    | TimeSpanParam(spanTicks: int64)

  /** The connection settings a bind consults: StoreDateTimeAsTicks and DateTimeSqliteDefaultFormat. */
  datatype TimeSettings = TimeSettings(storeTicks: bool, format: string)

  // ---------------------------------------------------------------------
  // List literals
  // ---------------------------------------------------------------------

  function IntTexts(xs: seq<int>): (r: seq<string>)
    ensures |r| == |xs|
  {
    seq(|xs|, i requires 0 <= i < |xs| => Text.IntToString(xs[i]))
  }

  /** '[' + string.Join(',', list) + ']' for a list of int or long. */
  function IntListText(xs: seq<int>): string {
    "[" + Text.Join(",", IntTexts(xs)) + "]"
  }

  /** The double list: each element in its invariant-culture text. */
  function DoubleListText(xs: seq<Float64>, conv: Conversions): string {
    "[" + Text.Join(",", seq(|xs|, i requires 0 <= i < |xs| => conv.doubleText(xs[i]))) + "]"
  }

  /** The string list: "[]" when empty, else each element quoted, without escaping. */
  function StringListText(xs: seq<string>): string {
    if |xs| == 0 then "[]" else "[\"" + Text.Join("\",\"", xs) + "\"]"
  }

  function Quoted(xs: seq<string>): (r: seq<string>)
    ensures |r| == |xs|
  {
    seq(|xs|, i requires 0 <= i < |xs| => "\"" + xs[i] + "\"")
  }

  /** The fields of a text separated by `sep`; a text without `sep` is one field. */
  function SplitOn(s: string, sep: char): (r: seq<string>)
    ensures |r| >= 1
    decreases |s|
  {
    if |s| == 0 then [""]
    else if s[0] == sep then [""] + SplitOn(s[1..], sep)
    else
      var rest := SplitOn(s[1..], sep);
      [[s[0]] + rest[0]] + rest[1..]
  }

  /** Integer texts in order, or None when one of them is not an integer. */
  function ParseAll(fields: seq<string>): (r: Option<seq<int>>)
    ensures r.Some? ==> |r.value| == |fields|
  {
    if |fields| == 0 then Some([])
    else
      match Text.ParseInteger(fields[0])
      case None => None
      case Some(x) =>
        match ParseAll(fields[1..])
        case None => None
        case Some(rest) => Some([x] + rest)
  }

  /** Reads back an integer list literal: brackets around comma-separated integers. */
  function ParseIntList(t: string): Option<seq<int>> {
    if |t| < 2 || t[0] != '[' || t[|t| - 1] != ']' then None
    else
      var inner := t[1..|t| - 1];
      if inner == "" then Some([]) else ParseAll(SplitOn(inner, ','))
  }

  lemma {:induction false} SplitNoSep(a: string, sep: char)
    requires sep !in a
    ensures SplitOn(a, sep) == [a]
    decreases |a|
  {
    if |a| > 0 {
      SplitNoSep(a[1..], sep);
      assert [a[0]] + a[1..] == a;
    }
  }

  lemma {:induction false} SplitAfter(a: string, b: string, sep: char)
    requires sep !in a
    ensures SplitOn(a + [sep] + b, sep) == [a] + SplitOn(b, sep)
    decreases |a|
  {
    var s := a + [sep] + b;
    if |a| == 0 {
      assert s[0] == sep && s[1..] == b;
    } else {
      assert s[0] == a[0] && s[1..] == a[1..] + [sep] + b;
      SplitAfter(a[1..], b, sep);
      assert [a[0]] + a[1..] == a;
    }
  }

  /** Splitting a join on a separator no element contains gives the elements back. */
  lemma {:induction false} SplitJoin(xs: seq<string>, sep: char)
    requires |xs| > 0
    requires forall i :: 0 <= i < |xs| ==> sep !in xs[i]
    ensures SplitOn(Text.Join([sep], xs), sep) == xs
    decreases |xs|
  {
    if |xs| == 1 {
      SplitNoSep(xs[0], sep);
    } else {
      var rest := xs[1..];
      assert forall i :: 0 <= i < |rest| ==> sep !in rest[i] by {
        forall i | 0 <= i < |rest| ensures sep !in rest[i] {
          assert rest[i] == xs[i + 1];
        }
      }
      SplitJoin(rest, sep);
      assert Text.Join([sep], xs) == xs[0] + [sep] + Text.Join([sep], rest);
      SplitAfter(xs[0], Text.Join([sep], rest), sep);
      assert [xs[0]] + rest == xs;
    }
  }

  lemma ParseAllTexts(xs: seq<int>)
    ensures ParseAll(IntTexts(xs)) == Some(xs)
  {
    var texts := IntTexts(xs);
    forall k | 0 <= k < |texts| ensures Text.ParseInteger(texts[k]) == Some(xs[k]) {
      Text.ParseIntegerOfText(xs[k]);
    }
    ParseAllParsed(texts, xs);
  }

  /** Texts that each parse to the integer at the same place parse together to the list. */
  lemma {:induction false} ParseAllParsed(texts: seq<string>, xs: seq<int>)
    requires |texts| == |xs|
    requires forall k :: 0 <= k < |texts| ==> Text.ParseInteger(texts[k]) == Some(xs[k])
    ensures ParseAll(texts) == Some(xs)
    decreases |texts|
  {
    if |texts| > 0 {
      ParseAllParsed(texts[1..], xs[1..]);
      assert [xs[0]] + xs[1..] == xs;
    }
  }

  /** An int or long list literal reads back as the list it was made from. */
  lemma IntListRoundTrip(xs: seq<int>)
    ensures ParseIntList(IntListText(xs)) == Some(xs)
  {
    var texts := IntTexts(xs);
    var t := IntListText(xs);
    assert t[1..|t| - 1] == Text.Join(",", texts);
    if |xs| == 0 {
      assert xs == [];
    } else {
      assert |texts[0]| > 0;
      assert |Text.Join(",", texts)| > 0;
      forall i | 0 <= i < |texts|
        ensures ',' !in texts[i]
      {
        assert texts[i] == Text.IntToString(xs[i]);
      }
      SplitJoin(texts, ',');
      ParseAllTexts(xs);
    }
  }

  lemma {:induction false} QuotedJoin(xs: seq<string>)
    requires |xs| > 0
    ensures "\"" + Text.Join("\",\"", xs) + "\"" == Text.Join(",", Quoted(xs))
    decreases |xs|
  {
    if |xs| > 1 {
      QuotedJoin(xs[1..]);
      assert Quoted(xs)[1..] == Quoted(xs[1..]);
      assert Quoted(xs)[0] == "\"" + xs[0] + "\"";
    }
  }

  /**
   * The string list literal is the comma-joined quoted elements in
   * brackets; the empty list's "[]" is the same rule at zero elements.
   */
  lemma StringListIsQuotedJoin(xs: seq<string>)
    ensures StringListText(xs) == "[" + Text.Join(",", Quoted(xs)) + "]"
  {
    if |xs| > 0 {
      QuotedJoin(xs);
      assert StringListText(xs) == "[" + ("\"" + Text.Join("\",\"", xs) + "\"") + "]";
    }
  }

  /** Elements are not escaped: one element holding a quote, comma and quote reads like two elements. */
  lemma StringListUnescaped()
    ensures StringListText(["a\",\"b"]) == StringListText(["a", "b"])
  {
    assert Text.Join("\",\"", ["a", "b"]) == "a" + "\",\"" + "b";
  }

  // ---------------------------------------------------------------------
  // Typed overloads
  // ---------------------------------------------------------------------

  /**
   * sqlite3_bind_text: the text is handed over as its zero-terminated UTF-8
   * encoding with the length -1, so SQLite stores the text before its first
   * U+0000 (Utf8z.ReadUpToZero).
   */
  function TextBind(s: string): BoundValue {
    BoundText(Utf8z.BeforeNul(s))
  }

  /**
   * The text bound is the longest start of the text free of U+0000: all of
   * a text without one, and otherwise everything before the first.
   */
  lemma TextBindCutsAtNul(s: string)
    ensures var b := TextBind(s); b.BoundText? && b.t <= s && '\0' !in b.t
    ensures '\0' !in s ==> TextBind(s) == BoundText(s)
    ensures '\0' in s ==> |TextBind(s).t| < |s| && s[|TextBind(s).t|] == '\0'
    ensures var mem := Utf8z.Encoded(Some(s));
      Utf8z.Terminated(mem) && TextBind(s).t == Utf8z.Decode(mem[..Utf8z.ZeroIndex(mem)])
  {
    Utf8z.BeforeNulIsPrefix(s);
    Utf8z.ReadUpToZero(s);
  }

  /** What each typed overload passes to sqlite3_bind_*. */
  function ToBound(p: Param, conv: Conversions, settings: TimeSettings): (r: BoundValue)
    ensures r.BoundNull? <==> p.NullParam?
    ensures r.BoundInt? <==> p.IntParam? || p.BoolParam?
    ensures r.BoundDouble? <==> p.DoubleParam?
    ensures r.BoundBlob? <==> p.BytesParam?
    ensures !r.BoundZeroBlob?
  {
    match p
    case NullParam => BoundNull
    case IntParam(i) => BoundInt(i)
    case BoolParam(b) => BoundInt(if b then 1 else 0)
    case LongParam(l) => BoundInt64(l)
    case DoubleParam(d) => BoundDouble(d)
    case BytesParam(bytes) => BoundBlob(bytes)
    case IntListParam(ints) => TextBind(IntListText(ints))
    case LongListParam(longs) => TextBind(IntListText(longs))
    case DoubleListParam(doubles) => TextBind(DoubleListText(doubles, conv))
    case StringListParam(strings) => TextBind(StringListText(strings))
    case StringParam(s) => TextBind(s)
    case GuidParam(g) => TextBind(conv.guidText(g))
    case DateTimeParam(t) =>
      if settings.storeTicks then BoundInt64(t) else TextBind(conv.dateTimeText(t, settings.format))
    case TimeSpanParam(t) =>
      if settings.storeTicks then BoundInt64(t) else TextBind(conv.timeSpanText(t))
  }

  /** Ticks are stored as int64 for both DateTime and TimeSpan exactly when the setting is on. */
  lemma TimesFollowSetting(t: int64, conv: Conversions, settings: TimeSettings)
    ensures ToBound(DateTimeParam(t), conv, settings).BoundInt64? <==> settings.storeTicks
    ensures ToBound(TimeSpanParam(t), conv, settings).BoundInt64? <==> settings.storeTicks
    ensures settings.storeTicks ==>
      ToBound(DateTimeParam(t), conv, settings) == ToBound(TimeSpanParam(t), conv, settings) == BoundInt64(t)
    ensures !settings.storeTicks ==>
      ToBound(DateTimeParam(t), conv, settings) == TextBind(conv.dateTimeText(t, settings.format))
  {
  }

  /** A bool binds the int 1 or 0, and reads as true exactly when that int is nonzero. */
  lemma BoolBindsOneOrZero(b: bool, conv: Conversions, settings: TimeSettings)
    ensures ToBound(BoolParam(b), conv, settings) == BoundInt(if b then 1 else 0)
    ensures (ToBound(BoolParam(b), conv, settings).i != 0) == b
  {
  }

  /** A list of ints and the same list as longs bind the same text. */
  lemma IntAndLongListsAgree(xs: seq<int32>, conv: Conversions, settings: TimeSettings)
    ensures ToBound(IntListParam(xs), conv, settings) == ToBound(LongListParam(xs), conv, settings)
  {
  }

  // ---------------------------------------------------------------------
  // Object dispatch
  // ---------------------------------------------------------------------

  /** The number an integral, char or enum value holds; 0 for any other value. */
  function Unboxed(v: Value): int {
    match v
    case ByteValue(x) => x
    case SByteValue(x) => x
    case Int16Value(x) => x
    case UInt16Value(x) => x
    case CharValue(x) => x
    case Int32Value(x) => x
    case UInt32Value(x) => x
    case Int64Value(x) => x
    case UInt64Value(x) => x
    case EnumValue(_, n) => n
    case _ => 0
  }

  /** The message of the ArgumentException for an unsupported type. */
  function NotSupportedMessage(typeName: string): string {
    "Parameter of type " + typeName + " not supported"
  }

  /**
   * Bind(int, object?): the switch on Type.GetTypeCode. Each case reaches
   * the typed overload C# overload resolution picks for its cast: the small
   * integral types and char reach the int overload, uint the long one,
   * ulong, float and decimal the double one. An enum reports the code of its
   * underlying type, so it is bound by that type's case. Object-coded values
   * are TimeSpan, Guid, byte[] or unsupported.
   */
  function Dispatch(v: Value, conv: Conversions): (r: Result<Param>)
    requires WellFormed(v)
    ensures r.Err? <==> v.OtherValue?
    ensures r.Err? ==> r.error == Argument(NotSupportedMessage(v.typeName))
    ensures r == Ok(NullParam) <==> v.NullRef? || v.DbNullValue?
  {
    match TypeCodeOf(v)
    case Boolean => Ok(BoolParam(v.b))
    case Byte => Ok(IntParam(Unboxed(v)))
    case SByte => Ok(IntParam(Unboxed(v)))
    case Int16 => Ok(IntParam(Unboxed(v)))
    case UInt16 => Ok(IntParam(Unboxed(v)))
    case Char => Ok(IntParam(Unboxed(v)))
    case Int32 => Ok(IntParam(Unboxed(v)))
    case UInt32 => Ok(LongParam(Unboxed(v)))
    case Int64 => Ok(LongParam(Unboxed(v)))
    case UInt64 => Ok(DoubleParam(conv.uint64ToDouble(Unboxed(v))))
    case Single => Ok(DoubleParam(conv.singleToDouble(v.f32)))
    case Double => Ok(DoubleParam(v.f64))
    case Decimal => Ok(DoubleParam(conv.decimalToDouble(v.dec)))
    case String => Ok(StringParam(v.s))
    case DBNull => Ok(NullParam)
    case Empty => Ok(NullParam)
    case DateTime => Ok(DateTimeParam(v.dateTicks))
    case Object =>
      match v
      case TimeSpanValue(t) => Ok(TimeSpanParam(t))
      case GuidValue(g) => Ok(GuidParam(g))
      case ByteArrayValue(bytes) => Ok(BytesParam(bytes))
      case OtherValue(name) => Err(Argument(NotSupportedMessage(name)))
      case _ => Err(Argument(NotSupportedMessage("")))
  }

  /** null, DBNull and nothing else bind NULL. */
  lemma NullsBindNull(v: Value, conv: Conversions, settings: TimeSettings)
    requires WellFormed(v)
    ensures Dispatch(v, conv).Ok? && ToBound(Dispatch(v, conv).value, conv, settings) == BoundNull
      <==> v.NullRef? || v.DbNullValue?
  {
  }

  /** Exactly the values of an unsupported type are refused, with ArgumentException. */
  lemma UnsupportedRefused(v: Value, conv: Conversions)
    requires WellFormed(v)
    ensures Dispatch(v, conv).Err? <==> v.OtherValue?
    ensures v.OtherValue? ==> Dispatch(v, conv) == Err(Argument(NotSupportedMessage(v.typeName)))
  {
  }

  /** An enum binds exactly as its underlying integral value does. */
  lemma EnumBindsAsUnderlying(c: TypeCode, n: int, conv: Conversions)
    requires IsIntegralCode(c) && InRange(c, n)
    ensures Dispatch(EnumValue(c, n), conv) == Dispatch(Box(c, n), conv)
  {
  }

  /**
   * Every integral value up to 64 bits except ulong keeps its number: it
   * binds as an int or an int64 holding that number.
   */
  lemma IntegralKeepsNumber(v: Value, conv: Conversions, settings: TimeSettings)
    requires WellFormed(v) && (IsIntegralCode(TypeCodeOf(v)) || v.CharValue?) && TypeCodeOf(v) != TypeCode.UInt64
    ensures Dispatch(v, conv).Ok?
    ensures var b := ToBound(Dispatch(v, conv).value, conv, settings);
      (b.BoundInt? && b.i == Unboxed(v)) || (b.BoundInt64? && b.l == Unboxed(v))
  {
  }

  /** A decimal, a float and a ulong go through the double overload. */
  lemma WideValuesBindDouble(v: Value, conv: Conversions, settings: TimeSettings)
    requires WellFormed(v) && (v.DecimalValue? || v.SingleValue? || v.UInt64Value?)
    ensures Dispatch(v, conv).Ok? && ToBound(Dispatch(v, conv).value, conv, settings).BoundDouble?
  {
  }
}
