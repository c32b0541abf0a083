// SQLiteReader: a forward cursor over the rows of one prepared statement.
// The column table is built at the first row and kept; the boxed values of
// a row are cached by Values; every accessor is refused while there is no
// table.
module Reader {
  import opened Clr
  import opened Native
  import Utf8z
  import Column
  import ColumnsCollection
  import SQLiteException
  import Marshal

  /** The message of an InvalidCastException made without one. */
  const InvalidCastText: string := "Specified cast is not valid."
  /** The Message of an InvalidCastException constructed with a null message. */
  const NullMessageCastText: string := "Exception of type 'System.InvalidCastException' was thrown."

  /** DateTime.MaxValue.Ticks. */
  const MaxTicks: int := 3155378975999999999

  /** OperationImpossible(name). */
  function OperationImpossible(name: string): Exception {
    InvalidOperation("Operation " + name + " is not possible for current reader state")
  }

  /**
   * The string behind a zero-terminated pointer, through Utf8z: null for a
   * null pointer, otherwise the text before the first 0 (memory without a 0
   * is read to its end).
   */
  function PointerText(p: Option<seq<uint8>>): (r: Option<string>)
    ensures r.None? <==> p.None?
  {
    if p.None? then None
    else if Utf8z.Terminated(p.value) then Utf8z.ToString(Utf8z.FromPointer(p))
    else Some(Utf8z.Decode(p.value))
  }

  /** ReadCol: the column at a position of the current row; a null name throws. */
  function ReadCol(s: Statement?, i: int): (r: Result<Column.Column>)
    reads s
    ensures r.Err? <==> ColumnNameOf(s, i).None?
    ensures r.Err? ==> r.error == ArgumentOutOfRange("index")
    ensures r.Ok? ==> r.value.name == PointerText(ColumnNameOf(s, i)) && r.value.columnType == ColumnOf(s, i).columnType
    ensures r.Ok? ==> r.value.hashCode == Column.NameHash(PointerText(ColumnNameOf(s, i)).value)
  {
    var name := PointerText(ColumnNameOf(s, i));
    if name.None? then Err(ArgumentOutOfRange("index"))
    else Column.New(name, ColumnOf(s, i).columnType)
  }

  /**
   * sqlite3_column_text read as a span of column_bytes bytes, then as a
   * string by the implicit conversion: an empty span is null, and every
   * byte is decoded, a final 0 byte included, since a TEXT value may end in one.
   */
  function ColumnText(c: Cell): (r: Option<string>)
    ensures r.None? <==> |c.text| == 0
    ensures r.Some? ==> r.value == Utf8z.Decode(c.text)
  {
    Utf8z.ToStringAsWritten(Utf8z.FromPtrLen(c.text))
  }

  /** sqlite3_column_blob(...).ToArray(): a null pointer gives an empty array. */
  function ColumnBlob(c: Cell): seq<uint8> {
    if c.blob.None? then [] else c.blob.value
  }

  /** ReadColValue: a cell boxed according to the column type recorded for it. */
  function ReadColValue(c: Cell, t: int): (r: Result<Value>)
    ensures r.Err? <==> !Column.IsColumnType(t)
    ensures r.Err? ==> r.error == InvalidCast(InvalidCastText)
    ensures t == SQLITE_INTEGER ==> r == Ok(Int64Value(c.int64))
    ensures t == SQLITE_FLOAT ==> r == Ok(DoubleValue(c.double))
    ensures t == SQLITE_TEXT ==> r == Ok(if |c.text| == 0 then NullRef else StringValue(ColumnText(c).value))
    ensures t == SQLITE_BLOB ==> r == Ok(ByteArrayValue(ColumnBlob(c)))
    ensures t == SQLITE_NULL ==> r == Ok(NullRef)
  {
    if t == SQLITE_INTEGER then Ok(Int64Value(c.int64))
    else if t == SQLITE_FLOAT then Ok(DoubleValue(c.double))
    else if t == SQLITE_TEXT then
      match ColumnText(c)
      case None => Ok(NullRef)
      case Some(s) => Ok(StringValue(s))
    else if t == SQLITE_BLOB then Ok(ByteArrayValue(ColumnBlob(c)))
    else if t == SQLITE_NULL then Ok(NullRef)
    else Err(InvalidCast(InvalidCastText))
  }

  /** Text the engine stores as its UTF-8 bytes reads back as the same string. */
  lemma TextCellRoundTrip(s: string, c: Cell)
    requires s != "" && forall i :: 0 <= i < |s| ==> s[i] != '\0'
    requires c.text == Utf8z.Encode(s)
    ensures ReadColValue(c, SQLITE_TEXT) == Ok(StringValue(s))
  {
    SpanOfEncoding(s);
  }

  lemma SpanOfEncoding(s: string)
    requires s != "" && forall i :: 0 <= i < |s| ==> s[i] != '\0'
    ensures Utf8z.ToStringAsWritten(Utf8z.FromPtrLen(Utf8z.Encode(s))) == Some(s)
  {
    var e := Utf8z.Encode(s);
    assert |e| > 0 by {
      assert e == Utf8z.EncodeChar(s[0]) + Utf8z.Encode(s[1..]);
    }
    Utf8z.DecodeEncode(s);
  }

  /** A TEXT value whose last byte is 0 keeps it: the bytes of "ab" and a 0 read as "ab" followed by U+0000. */
  lemma TextCellKeepsFinalZero(c: Cell)
    requires c.text == [0x61, 0x62, 0]
    ensures ReadColValue(c, SQLITE_TEXT) == Ok(StringValue(['a', 'b', '\0']))
  {
    Utf8z.DecodeEncode(['a', 'b', '\0']);
    assert Utf8z.Encode(['a', 'b', '\0']) == [0x61, 0x62, 0] by {
      Utf8z.EncodeAppend(['a'], ['b', '\0']);
      Utf8z.EncodeAppend(['b'], ['\0']);
    }
  }

  /** An empty TEXT value has an empty span and so reads as null, like a NULL. */
  lemma EmptyTextReadsNull(c: Cell)
    requires c.text == []
    ensures ReadColValue(c, SQLITE_TEXT) == ReadColValue(c, SQLITE_NULL) == Ok(NullRef)
  {
  }

  // ---------------------------------------------------------------------
  // The Values cache across rows
  // ---------------------------------------------------------------------

  /**
   * The cached values after Read lands on a row: building the table drops
   * the cache; on later rows Read as written keeps it, and the corrected
   * Read (`refresh`) drops it as well.
   */
  function CacheAfterRow(hadTable: bool, cached: Option<seq<Value>>, refresh: bool): Option<seq<Value>> {
    if hadTable && !refresh then cached else None
  }

  /** What Values reports: the cache when there is one, else the current row. */
  function Reported(cached: Option<seq<Value>>, current: seq<Value>): seq<Value> {
    if cached.Some? then cached.value else current
  }

  /**
   * As written, once Values has been read at one row, the next row reports
   * the first row's values again.
   */
  lemma ReadAsWrittenReportsStaleRow(first: seq<Value>, second: seq<Value>)
    requires first != second
    ensures var atFirst := CacheAfterRow(false, None, false);
      var seen := Reported(atFirst, first);
      var atSecond := CacheAfterRow(true, Some(seen), false);
      seen == first && Reported(atSecond, second) == first && Reported(atSecond, second) != second
  {
  }

  /** With the cache dropped at every row, Values reports the current row whatever was cached. */
  lemma ReadReportsCurrentRow(hadTable: bool, cached: Option<seq<Value>>, current: seq<Value>)
    ensures Reported(CacheAfterRow(hadTable, cached, true), current) == current
  {
  }

  // ---------------------------------------------------------------------
  // Typed getters
  // ---------------------------------------------------------------------

  /** The typed getters that read one column of the current row. */
  datatype Getter =
    | GetBoolean | GetByte | GetSByte | GetChar | GetInt16 | GetUInt16 | GetInt32 | GetUInt32
    | GetInt64 | GetUInt64 | GetSingle | GetDouble | GetDecimal | GetString | GetByteArray | GetBytes

  function GetterName(g: Getter): string {
    match g
    case GetBoolean => "GetBoolean"
    case GetByte => "GetByte"
    case GetSByte => "GetSByte"
    case GetChar => "GetChar"
    case GetInt16 => "GetInt16"
    case GetUInt16 => "GetUInt16"
    case GetInt32 => "GetInt32"
    case GetUInt32 => "GetUInt32"
    case GetInt64 => "GetInt64"
    case GetUInt64 => "GetUInt64"
    case GetSingle => "GetSingle"
    case GetDouble => "GetDouble"
    case GetDecimal => "GetDecimal"
    case GetString => "GetString"
    case GetByteArray => "GetByteArray"
    case GetBytes => "GetBytes"
  }

  /** Convert.ToXxx from a wider integer: OverflowException outside the target's range. */
  function Narrow(target: TypeCode, n: int): (r: Result<Value>)
    requires IsIntegralCode(target)
    ensures r.Ok? <==> InRange(target, n)
    ensures r.Ok? ==> r.value == Box(target, n) && Marshal.Unboxed(r.value) == n
    ensures r.Err? ==> r.error == Overflow
  {
    if InRange(target, n) then Ok(Box(target, n)) else Err(Overflow)
  }

  /** What a getter makes of a cell, once the guard has passed. */
  function Convert(g: Getter, c: Cell, conv: Conversions): (r: Result<Value>)
    ensures r.Err? ==> r.error == Overflow
    ensures g.GetString? ==> r == Ok(if |c.text| == 0 then NullRef else StringValue(Utf8z.Decode(c.text)))
    ensures r.Err? ==>
      g.GetByte? || g.GetSByte? || g.GetChar? || g.GetInt16? || g.GetUInt16?
      || g.GetUInt32? || g.GetUInt64? || g.GetDecimal?
  {
    match g
    case GetBoolean => Ok(BoolValue(ColumnInt(c) != 0))
    case GetByte => Narrow(TypeCode.Byte, ColumnInt(c))
    case GetSByte => Narrow(TypeCode.SByte, ColumnInt(c))
    case GetChar => if 0 <= ColumnInt(c) < 0x1_0000 then Ok(CharValue(ColumnInt(c))) else Err(Overflow)
    case GetInt16 => Narrow(TypeCode.Int16, ColumnInt(c))
    case GetUInt16 => Narrow(TypeCode.UInt16, ColumnInt(c))
    case GetInt32 => Ok(Int32Value(ColumnInt(c)))
    case GetUInt32 => Narrow(TypeCode.UInt32, c.int64)
    case GetInt64 => Ok(Int64Value(c.int64))
    case GetUInt64 => Narrow(TypeCode.UInt64, c.int64)
    case GetSingle => Ok(SingleValue(conv.doubleToSingle(c.double)))
    case GetDouble => Ok(DoubleValue(c.double))
    case GetDecimal =>
      (match conv.doubleToDecimal(c.double)
       case None => Err(Overflow)
       case Some(d) => Ok(DecimalValue(d)))
    case GetString => if ColumnText(c).None? then Ok(NullRef) else Ok(StringValue(ColumnText(c).value))
    case GetByteArray => Ok(ByteArrayValue(ColumnBlob(c)))
    case GetBytes => Ok(ByteArrayValue(ColumnBlob(c)))
  }

  /** A narrowing getter succeeds exactly when the column's number fits its type, and then keeps the number. */
  lemma NarrowingGettersKeepNumber(g: Getter, c: Cell, conv: Conversions)
    requires g in {GetByte, GetSByte, GetInt16, GetUInt16, GetUInt32, GetUInt64}
    ensures var n := if g in {GetUInt32, GetUInt64} then c.int64 else ColumnInt(c);
      Convert(g, c, conv).Ok? ==> Marshal.Unboxed(Convert(g, c, conv).value) == n
    ensures g == GetByte ==> (Convert(g, c, conv).Ok? <==> 0 <= ColumnInt(c) < 0x100)
    ensures g == GetSByte ==> (Convert(g, c, conv).Ok? <==> -0x80 <= ColumnInt(c) < 0x80)
    ensures g == GetUInt32 ==> (Convert(g, c, conv).Ok? <==> 0 <= c.int64 < 0x1_0000_0000)
    ensures g == GetUInt64 ==> (Convert(g, c, conv).Ok? <==> 0 <= c.int64)
    ensures Convert(g, c, conv).Err? ==> Convert(g, c, conv).error == Overflow
  {
  }

  /**
   * GetDateTime's reading of text: the exact format, then a general parse,
   * else InvalidCastException(value); for a NULL cell the value is null and
   * the exception carries the runtime's default message.
   */
  function DateTimeOf(text: Option<string>, format: string, style: DateTimeStyles, conv: Conversions): (r: Result<int64>)
    ensures r.Err? <==> conv.parseExact(text, format, style).None? && conv.parse(text).None?
    ensures conv.parseExact(text, format, style).Some? ==> r == Ok(conv.parseExact(text, format, style).value)
    ensures r.Err? ==> r.error == InvalidCast(if text.None? then NullMessageCastText else text.value)
  {
    match conv.parseExact(text, format, style)
    case Some(t) => Ok(t)
    case None =>
      match conv.parse(text)
      case Some(t) => Ok(t)
      case None => Err(InvalidCast(if text.None? then NullMessageCastText else text.value))
  }

  /** new DateTime(ticks): ArgumentOutOfRangeException outside 0..MaxValue.Ticks. */
  function TicksToDateTime(ticks: int64): (r: Result<int64>)
    ensures r.Ok? <==> 0 <= ticks <= MaxTicks
    ensures r.Ok? ==> r.value == ticks
  {
    if 0 <= ticks <= MaxTicks then Ok(ticks) else Err(ArgumentOutOfRange("ticks"))
  }

  class Reader {
    const stmt: Statement?
    const storeTicks: bool
    const format: string
    const style: DateTimeStyles
    const conv: Conversions
    var columns: ColumnsCollection.Collection?
    var values: array?<Value>

    /** new SQLiteReader(context, command): the statement and the connection's date settings. */
    constructor (stmt: Statement?, storeTicks: bool, format: string, style: DateTimeStyles, conv: Conversions)
      ensures this.stmt == stmt && this.storeTicks == storeTicks && this.format == format
      ensures this.style == style && this.conv == conv
      ensures columns == null && values == null
    {
      this.stmt := stmt;
      this.storeTicks := storeTicks;
      this.format := format;
      this.style := style;
      this.conv := conv;
      columns := null;
      values := null;
    }

    /** The cache as a value: None while _values is null. */
    function Cached(): Option<seq<Value>>
      reads this, values
    {
      if values == null then None else Some(values[..])
    }

    /** The code the next sqlite3_step returns. */
    function StepCode(): int
      reads this, stmt
    {
      if stmt == null then SQLITE_MISUSE else stmt.NextStep().code
    }

    /** Every column of the current row has a name. */
    predicate NamesPresent()
      reads this
    {
      forall i :: 0 <= i < ColumnCountOf(stmt) ==> ColumnNameOf(stmt, i).Some?
    }

    /**
     * The loop that fills a new table from the current row; a nameless
     * column throws and leaves the table filled up to it.
     */
    method BuildTable() returns (r: Result<()>)
      modifies this`columns
      ensures columns != null && fresh(columns) && fresh(columns.cols)
      ensures columns.cols.Length == ColumnCountOf(stmt)
      ensures r.Ok? <==> NamesPresent()
      ensures r.Err? ==> r.error == ArgumentOutOfRange("index")
      ensures r.Ok? ==> forall i :: 0 <= i < columns.cols.Length ==> Ok(columns.cols[i]) == ReadCol(stmt, i)
      ensures r.Err? ==> exists k :: (0 <= k < columns.cols.Length && ColumnNameOf(stmt, k).None?
        && (forall i :: 0 <= i < k ==> Ok(columns.cols[i]) == ReadCol(stmt, i))
        && (forall i :: k <= i < columns.cols.Length ==> columns.cols[i] == Column.DefaultColumn))
    {
      var count := ColumnCountOf(stmt);
      var table := new ColumnsCollection.Collection(count);
      columns := table;
      var i := 0;
      while i < count
        invariant 0 <= i <= count && columns == table && table.cols.Length == count
        invariant fresh(table) && fresh(table.cols)
        invariant forall j :: 0 <= j < i ==> Ok(table.cols[j]) == ReadCol(stmt, j)
        invariant forall j :: 0 <= j < i ==> ColumnNameOf(stmt, j).Some?
        invariant forall j :: i <= j < count ==> table.cols[j] == Column.DefaultColumn
      {
        var col := ReadCol(stmt, i);
        if col.Err? {
          return Err(col.error);
        }
        var stored := table.Set(i, col.value);
        i := i + 1;
      }
      r := Ok(());
    }

    /**
     * Read: one step. A row builds the table when there is none (dropping
     * the cache) and returns true; any other code drops table and cache and
     * returns false. On a row with a table in place the cache follows
     * CacheAfterRow with `refresh`.
     */
    method Advance(refresh: bool) returns (r: Result<bool>)
      modifies this`columns, this`values, stmt, columns
      ensures stmt != null ==>
        (stmt.cursor == old(stmt.cursor) + 1 && stmt.current == Some(old(stmt.NextStep()))
         && stmt.bound == old(stmt.bound) && stmt.finalized == old(stmt.finalized))
      ensures old(StepCode()) != SQLITE_ROW ==> r == Ok(false) && columns == null && values == null
      ensures old(StepCode()) == SQLITE_ROW && old(columns) != null ==>
        r == Ok(true) && columns == old(columns) && columns.cols == old(columns.cols)
        && Cached() == CacheAfterRow(true, old(Cached()), refresh)
        && (!refresh ==> values == old(values))
      ensures old(StepCode()) == SQLITE_ROW && old(columns) == null ==>
        values == null && columns != null && fresh(columns) && fresh(columns.cols)
        && columns.cols.Length == ColumnCountOf(stmt)
        && (r.Ok? <==> NamesPresent()) && (r.Ok? ==> r.value)
        && (r.Err? ==> r.error == ArgumentOutOfRange("index"))
        && (r.Ok? ==> forall i :: 0 <= i < columns.cols.Length ==> Ok(columns.cols[i]) == ReadCol(stmt, i))
    {
      var rc := StepStatement(stmt);
      if rc == SQLITE_ROW {
        if columns == null {
          values := null;
          var built := BuildTable();
          if built.Err? {
            return Err(built.error);
          }
        } else if refresh {
          values := null;
        }
        return Ok(true);
      }
      if columns != null {
        columns.Clear();
      }
      columns := null;
      values := null;
      r := Ok(false);
    }

    /** Read as written: on a row after the first the cached values are kept. */
    method ReadAsWritten() returns (r: Result<bool>)
      modifies this`columns, this`values, stmt, columns
      ensures old(StepCode()) != SQLITE_ROW ==> r == Ok(false) && columns == null && values == null
      ensures old(StepCode()) == SQLITE_ROW && old(columns) != null ==>
        r == Ok(true) && columns == old(columns) && values == old(values) && Cached() == old(Cached())
      ensures old(StepCode()) == SQLITE_ROW && old(columns) == null ==>
        values == null && columns != null && fresh(columns) && (r.Ok? <==> NamesPresent())
    {
      r := Advance(false);
    }

    /** Read, with the cache dropped at every row so Values reports the current one. */
    method Read() returns (r: Result<bool>)
      modifies this`columns, this`values, stmt, columns
      ensures stmt != null ==>
        (stmt.cursor == old(stmt.cursor) + 1 && stmt.current == Some(old(stmt.NextStep()))
         && stmt.bound == old(stmt.bound) && stmt.finalized == old(stmt.finalized))
      ensures r == Ok(true) <==> old(StepCode()) == SQLITE_ROW && (old(columns) != null || NamesPresent())
      ensures old(StepCode()) != SQLITE_ROW ==> r == Ok(false) && columns == null && values == null
      ensures old(StepCode()) == SQLITE_ROW ==> values == null && columns != null
      ensures old(StepCode()) == SQLITE_ROW && old(columns) != null ==>
        columns == old(columns) && columns.cols == old(columns.cols)
      ensures old(StepCode()) == SQLITE_ROW && old(columns) == null ==>
        fresh(columns) && fresh(columns.cols) && columns.cols.Length == ColumnCountOf(stmt)
        && (r.Ok? <==> NamesPresent())
        && (r.Err? ==> r.error == ArgumentOutOfRange("index"))
        && (r.Ok? ==> forall i :: 0 <= i < columns.cols.Length ==> Ok(columns.cols[i]) == ReadCol(stmt, i))
    {
      r := Advance(true);
    }

    /** Each column of the current row read as its recorded type. */
    function RowValue(i: int): Result<Value>
      requires columns != null && 0 <= i < columns.cols.Length
      reads this, stmt, columns, columns.cols
    {
      ReadColValue(ColumnOf(stmt, i), columns.cols[i].columnType)
    }

    /** Every recorded column type is one of the five. */
    predicate TypesKnown()
      requires columns != null
      reads this, columns, columns.cols
    {
      forall i :: 0 <= i < columns.cols.Length ==> Column.IsColumnType(columns.cols[i].columnType)
    }

    /**
     * Values: the cached array when there is one; otherwise, with a table,
     * a new array of the table's length filled with the current row (an
     * InvalidCastException leaves it cached, filled up to the failing
     * column); without a table, InvalidOperationException.
     */
    method Values() returns (r: Result<array<Value>>)
      modifies this`values
      ensures old(values) != null ==> r.Ok? && r.value == old(values) && values == old(values)
      ensures old(values) == null && columns == null ==> r == Err(OperationImpossible("Values")) && values == null
      ensures old(values) == null && columns != null ==>
        values != null && fresh(values) && values.Length == columns.cols.Length
        && (r.Ok? <==> TypesKnown())
        && (r.Ok? ==> r.value == values && forall i :: 0 <= i < values.Length ==> Ok(values[i]) == RowValue(i))
        && (r.Err? ==> r.error == InvalidCast(InvalidCastText))
    {
      if values == null {
        if columns == null {
          return Err(OperationImpossible("Values"));
        }
        var count := columns.cols.Length;
        var filled := new Value[count](_ => NullRef);
        values := filled;
        var i := 0;
        while i < count
          invariant 0 <= i <= count && values == filled
          invariant forall j :: 0 <= j < i ==> Ok(filled[j]) == RowValue(j)
          invariant forall j :: 0 <= j < i ==> Column.IsColumnType(columns.cols[j].columnType)
        {
          var v := ReadColValue(ColumnOf(stmt, i), columns.cols[i].columnType);
          if v.Err? {
            return Err(v.error);
          }
          filled[i] := v.value;
          i := i + 1;
        }
        return Ok(filled);
      }
      r := Ok(values);
    }

    /** this[int index]: Values[index], refused without a table. */
    method ItemAt(index: int) returns (r: Result<Value>)
      modifies this`values
      ensures columns == null ==> r == Err(OperationImpossible("this[int index]")) && values == old(values)
      ensures columns != null && old(values) != null ==>
        (values == old(values) && r == (if 0 <= index < values.Length then Ok(values[index]) else Err(IndexOutOfRange)))
      ensures columns != null && old(values) == null ==>
        (!TypesKnown() ==> r == Err(InvalidCast(InvalidCastText)))
        && (TypesKnown() ==> r == (if 0 <= index < columns.cols.Length then RowValue(index) else Err(IndexOutOfRange)))
      ensures columns != null && old(values) == null ==>
        values != null && fresh(values) && values.Length == columns.cols.Length
        && (TypesKnown() ==> forall i :: 0 <= i < values.Length ==> Ok(values[i]) == RowValue(i))
    {
      if columns == null {
        return Err(OperationImpossible("this[int index]"));
      }
      var all := Values();
      if all.Err? {
        return Err(all.error);
      }
      if 0 <= index < all.value.Length {
        r := Ok(all.value[index]);
      } else {
        r := Err(IndexOutOfRange);
      }
    }

    /** this[string index]: Values at ColumnIndex(name); an unknown name is index -1. */
    method ItemNamed(name: string) returns (r: Result<Value>)
      modifies this`values
      ensures columns == null ==> r == Err(OperationImpossible("this[string index]")) && values == old(values)
      ensures columns != null && old(values) != null ==>
        (values == old(values)
         && var k := ColumnsCollection.FirstWithHash(columns.cols[..], Column.NameHash(name));
         r == (if 0 <= k < values.Length then Ok(values[k]) else Err(IndexOutOfRange)))
      ensures columns != null && old(values) == null && TypesKnown() ==>
        var k := ColumnsCollection.FirstWithHash(columns.cols[..], Column.NameHash(name));
        r == (if k >= 0 then RowValue(k) else Err(IndexOutOfRange))
      ensures columns != null && old(values) == null && !TypesKnown() ==> r == Err(InvalidCast(InvalidCastText))
      ensures columns != null && old(values) == null ==>
        values != null && fresh(values) && values.Length == columns.cols.Length
        && (TypesKnown() ==> forall i :: 0 <= i < values.Length ==> Ok(values[i]) == RowValue(i))
    {
      if columns == null {
        return Err(OperationImpossible("this[string index]"));
      }
      var all := Values();
      if all.Err? {
        return Err(all.error);
      }
      var k := columns.ColumnIndex(name);
      if 0 <= k < all.value.Length {
        r := Ok(all.value[k]);
      } else {
        r := Err(IndexOutOfRange);
      }
    }

    /** GetValue: the column read as its recorded type, without the cache. */
    function GetValue(index: int): (r: Result<Value>)
      reads this, stmt, columns, if columns != null then {columns.cols} else {}
      ensures columns == null <==> r == Err(OperationImpossible("GetValue"))
      ensures columns != null && !(0 <= index < columns.cols.Length) ==> r == Err(IndexOutOfRange)
      ensures columns != null && 0 <= index < columns.cols.Length ==> r == RowValue(index)
    {
      if columns == null then Err(OperationImpossible("GetValue"))
      else if !(0 <= index < columns.cols.Length) then Err(IndexOutOfRange)
      else ReadColValue(ColumnOf(stmt, index), columns.cols[index].columnType)
    }

    /** The typed getters: refused without a table, otherwise the column converted. */
    function Get(g: Getter, index: int): (r: Result<Value>)
      reads this, stmt
      ensures columns == null <==> r == Err(OperationImpossible(GetterName(g)))
      ensures columns != null ==> r == Convert(g, ColumnOf(stmt, index), conv)
    {
      if columns == null then Err(OperationImpossible(GetterName(g)))
      else Convert(g, ColumnOf(stmt, index), conv)
    }

    /** GetUtf8String: the text span itself. */
    function GetUtf8String(index: int): (r: Result<Utf8z.Utf8z>)
      reads this, stmt
      ensures columns == null <==> r.Err?
      ensures r.Err? ==> r.error == OperationImpossible("GetUtf8String")
      ensures r.Ok? ==> Utf8z.ToStringAsWritten(r.value) == ColumnText(ColumnOf(stmt, index))
    {
      if columns == null then Err(OperationImpossible("GetUtf8String"))
      else Ok(Utf8z.FromPtrLen(ColumnOf(stmt, index).text))
    }

    /** GetDateTime after the guard: int64 ticks, or the text parsed. */
    function DateTimeAt(index: int): Result<int64>
      reads this, stmt
    {
      var c := ColumnOf(stmt, index);
      if storeTicks then TicksToDateTime(c.int64) else DateTimeOf(ColumnText(c), format, style, conv)
    }

    /** GetDateTime as written: the guard names GetString. */
    function GetDateTimeAsWritten(index: int): (r: Result<int64>)
      reads this, stmt
      ensures columns == null ==> r == Err(OperationImpossible("GetString"))
      ensures columns != null ==> r == DateTimeAt(index)
    {
      if columns == null then Err(OperationImpossible("GetString")) else DateTimeAt(index)
    }

    /** GetDateTime, with the guard naming GetDateTime. */
    function GetDateTime(index: int): (r: Result<int64>)
      reads this, stmt
      ensures columns == null <==> r == Err(OperationImpossible("GetDateTime"))
      ensures columns != null && storeTicks ==> r == TicksToDateTime(ColumnOf(stmt, index).int64)
      ensures columns != null && !storeTicks ==> r == DateTimeOf(ColumnText(ColumnOf(stmt, index)), format, style, conv)
    {
      if columns == null then Err(OperationImpossible("GetDateTime")) else DateTimeAt(index)
    }

    /** IsNull: the recorded column type is Null. */
    function IsNull(index: int): (r: Result<bool>)
      reads this, columns, if columns != null then {columns.cols} else {}
      ensures columns == null <==> r == Err(OperationImpossible("IsNull"))
      ensures columns != null && !(0 <= index < columns.cols.Length) ==> r == Err(IndexOutOfRange)
      ensures columns != null && 0 <= index < columns.cols.Length ==>
        r == Ok(columns.cols[index].columnType == SQLITE_NULL)
    {
      if columns == null then Err(OperationImpossible("IsNull"))
      else if !(0 <= index < columns.cols.Length) then Err(IndexOutOfRange)
      else Ok(columns.cols[index].columnType == SQLITE_NULL)
    }

    /**
     * Dispose: resets the statement and checks the code (the code of a
     * failed last step); only when that passes is the table dropped.
     */
    method Dispose(engine: Engine) returns (r: Result<()>)
      modifies stmt, this`columns, columns
      ensures r == SQLiteException.CheckCode(old(if stmt == null then SQLITE_OK else stmt.LastErrorCode()), engine.errstr)
      ensures stmt != null ==>
        (stmt.cursor == 0 && stmt.current == None
         && stmt.bound == old(stmt.bound) && stmt.finalized == old(stmt.finalized))
      ensures r.Ok? ==> columns == null
      ensures r.Err? ==> columns == old(columns)
    {
      var rc := ResetStatement(stmt);
      r := SQLiteException.CheckCode(rc, engine.errstr);
      if r.Err? {
        return;
      }
      if columns != null {
        columns.Clear();
        columns := null;
      }
    }
  }

  /** GetDateTime as written names the wrong getter in its message. */
  lemma GetDateTimeAsWrittenMisnamed(r: Reader, index: int)
    requires r.columns == null
    ensures r.GetDateTimeAsWritten(index) != r.GetDateTime(index)
    ensures r.GetDateTimeAsWritten(index).error == r.Get(GetString, index).error
  {
    assert OperationImpossible("GetString").message[13] != OperationImpossible("GetDateTime").message[13];
  }

  /** A bool bound as its int reads back as that bool. */
  lemma BoolReadsBack(b: bool, c: Cell, conv: Conversions, settings: Marshal.TimeSettings)
    requires c.int64 == Marshal.ToBound(Marshal.BoolParam(b), conv, settings).i
    ensures Convert(GetBoolean, c, conv) == Ok(BoolValue(b))
  {
  }

  /** With ticks stored, a DateTime bound as its ticks reads back as the same ticks. */
  lemma DateTimeTicksReadBack(t: int64, c: Cell, conv: Conversions, settings: Marshal.TimeSettings)
    requires settings.storeTicks && 0 <= t <= MaxTicks
    requires Marshal.ToBound(Marshal.DateTimeParam(t), conv, settings) == BoundInt64(c.int64)
    ensures TicksToDateTime(c.int64) == Ok(t)
  {
  }

  /** A failed step is not reported by Read, which returns false; the reset in Dispose reports it. */
  lemma StepErrorSurfacesAtDispose(s: Statement, errstr: int -> string)
    requires s.current.Some? && !IsSuccess(s.current.value.code)
    ensures SQLiteException.CheckCode(s.LastErrorCode(), errstr).Err?
    ensures SQLiteException.CheckCode(s.LastErrorCode(), errstr).error.errorCode == s.current.value.code
  {
  }
}
