// The slice of the .NET runtime that the library leans on: integer widths,
// boxed values and their System.TypeCode, the exceptions the library throws,
// and the floating-point, Guid and DateTime conversions it delegates to the
// runtime (kept uninterpreted, as fields of a Conversions record).
module Clr {

  type uint8 = x: int | 0 <= x < 0x100
  type int8 = x: int | -0x80 <= x < 0x80
  type uint16 = x: int | 0 <= x < 0x1_0000
  type int16 = x: int | -0x8000 <= x < 0x8000
  type uint32 = x: int | 0 <= x < 0x1_0000_0000
  type int32 = x: int | -0x8000_0000 <= x < 0x8000_0000
  type uint64 = x: int | 0 <= x < 0x1_0000_0000_0000_0000
  type int64 = x: int | -0x8000_0000_0000_0000 <= x < 0x8000_0000_0000_0000

  predicate IsInt32(x: int) { -0x8000_0000 <= x < 0x8000_0000 }

  /** Two's-complement truncation of an integer to 32 bits, as an unchecked C# cast does. */
  function WrapInt32(x: int): (r: int32)
    ensures (r - x) % 0x1_0000_0000 == 0
    ensures IsInt32(x) ==> r == x
  {
    var m := x % 0x1_0000_0000;
    if m < 0x8000_0000 then m else m - 0x1_0000_0000
  }

  predicate IsInt64(x: int) { -0x8000_0000_0000_0000 <= x < 0x8000_0000_0000_0000 }

  /** Two's-complement truncation to 64 bits: unchecked long arithmetic. */
  function WrapInt64(x: int): (r: int64)
    ensures (r - x) % 0x1_0000_0000_0000_0000 == 0
    ensures IsInt64(x) ==> r == x
  {
    var m := x % 0x1_0000_0000_0000_0000;
    if m < 0x8000_0000_0000_0000 then m else m - 0x1_0000_0000_0000_0000
  }

  datatype Option<T> = None | Some(value: T)

  /** The exceptions the library raises, with the data a caller can observe. */
  datatype Exception =
    | InvalidOperation(message: string)
    | ArgumentNull(paramName: string)
    | ArgumentOutOfRange(paramName: string)
    | Argument(message: string)
    | NotSupported(message: string)
    | ObjectDisposed(objectName: string)
    | IO(message: string)
    | InvalidCast(message: string)
    | Overflow
    | IndexOutOfRange
    | NullReference
    | SQLite(message: string, errorCode: int, extendedErrorCode: int)

  datatype Result<T> = Ok(value: T) | Err(error: Exception)
  {
    predicate IsFailure() { Err? }
    function PropagateFailure<U>(): Result<U> requires Err? { Err(error) }
    function Extract(): T requires Ok? { value }
  }

  /** IEEE-754 values are carried as their bits and never interpreted. */
  datatype Float64 = Float64(bits: bv64)
  datatype Float32 = Float32(bits: bv32)
  datatype DecimalBits = DecimalBits(lo: bv32, mid: bv32, hi: bv32, flags: bv32)
  datatype GuidBits = GuidBits(bytes: seq<uint8>)

  /** System.TypeCode. */
  datatype TypeCode =
    | Empty | Object | DBNull | Boolean | Char | SByte | Byte | Int16 | UInt16
    | Int32 | UInt32 | Int64 | UInt64 | Single | Double | Decimal | DateTime | String

  predicate IsIntegralCode(c: TypeCode) {
    c.SByte? || c.Byte? || c.Int16? || c.UInt16? || c.Int32? || c.UInt32? || c.Int64? || c.UInt64?
  }

  /**
   * A boxed .NET object as it reaches an `object?` parameter. Times are
   * carried as their Ticks. An enum value carries the TypeCode of its
   * underlying integral type and its numeric value.
   */
  datatype Value =
    | NullRef
    | DbNullValue
    | BoolValue(b: bool)
    | ByteValue(u8: uint8)
    | SByteValue(i8: int8)
    | Int16Value(i16: int16)
    | UInt16Value(u16: uint16)
    | CharValue(ch: uint16)
    | Int32Value(i32: int32)
    | UInt32Value(u32: uint32)
    | Int64Value(i64: int64)
    | UInt64Value(u64: uint64)
    | SingleValue(f32: Float32)
    | DoubleValue(f64: Float64)
    | DecimalValue(dec: DecimalBits)
    | StringValue(s: string)
    | DateTimeValue(dateTicks: int64)
    | TimeSpanValue(spanTicks: int64)
    | GuidValue(guid: GuidBits)
    | ByteArrayValue(bytes: seq<uint8>)
    | EnumValue(underlying: TypeCode, number: int)
    | OtherValue(typeName: string)

  /**
   * Type.GetTypeCode(value.GetType()): enums report the code of their
   * underlying integral type; TimeSpan, Guid, arrays and other classes
   * report Object.
   */
  function TypeCodeOf(v: Value): (c: TypeCode)
    ensures c == TypeCode.Empty <==> v.NullRef?
    ensures v.EnumValue? && IsIntegralCode(v.underlying) ==> c == v.underlying
  {
    match v
    case NullRef => TypeCode.Empty
    case DbNullValue => TypeCode.DBNull
    case BoolValue(_) => TypeCode.Boolean
    case ByteValue(_) => TypeCode.Byte
    case SByteValue(_) => TypeCode.SByte
    case Int16Value(_) => TypeCode.Int16
    case UInt16Value(_) => TypeCode.UInt16
    case CharValue(_) => TypeCode.Char
    case Int32Value(_) => TypeCode.Int32
    case UInt32Value(_) => TypeCode.UInt32
    case Int64Value(_) => TypeCode.Int64
    case UInt64Value(_) => TypeCode.UInt64
    case SingleValue(_) => TypeCode.Single
    case DoubleValue(_) => TypeCode.Double
    case DecimalValue(_) => TypeCode.Decimal
    case StringValue(_) => TypeCode.String
    case DateTimeValue(_) => TypeCode.DateTime
    case TimeSpanValue(_) => TypeCode.Object
    case GuidValue(_) => TypeCode.Object
    case ByteArrayValue(_) => TypeCode.Object
    case EnumValue(u, _) => if IsIntegralCode(u) then u else TypeCode.Int32
    case OtherValue(_) => TypeCode.Object
  }

  /** The values an integral TypeCode admits. */
  predicate InRange(c: TypeCode, n: int) {
    match c
    case SByte => -0x80 <= n < 0x80
    case Byte => 0 <= n < 0x100
    case Int16 => -0x8000 <= n < 0x8000
    case UInt16 => 0 <= n < 0x1_0000
    case Int32 => -0x8000_0000 <= n < 0x8000_0000
    case UInt32 => 0 <= n < 0x1_0000_0000
    case Int64 => -0x8000_0000_0000_0000 <= n < 0x8000_0000_0000_0000
    case UInt64 => 0 <= n < 0x1_0000_0000_0000_0000
    case _ => false
  }

  /** A value the runtime can box: an enum's underlying type is integral and holds its number. */
  predicate WellFormed(v: Value) {
    v.EnumValue? ==> IsIntegralCode(v.underlying) && InRange(v.underlying, v.number)
  }

  /** The boxed value of an integral type holding `n`: what an enum unboxes to. */
  function Box(c: TypeCode, n: int): (v: Value)
    requires IsIntegralCode(c) && InRange(c, n)
    ensures TypeCodeOf(v) == c && WellFormed(v)
  {
    match c
    case SByte => SByteValue(n)
    case Byte => ByteValue(n)
    case Int16 => Int16Value(n)
    case UInt16 => UInt16Value(n)
    case Int32 => Int32Value(n)
    case UInt32 => UInt32Value(n)
    case Int64 => Int64Value(n)
    case UInt64 => UInt64Value(n)
  }

  /** System.Globalization.DateTimeStyles, as far as the library uses it. */
  datatype DateTimeStyles = NoStyle | RoundtripKind

  /**
   * Runtime conversions the model does not interpret: floating-point
   * arithmetic, culture formatting and date parsing. A parse yields the
   * Ticks of the parsed DateTime, or None when it fails; a conversion to
   * decimal yields None where Convert.ToDecimal overflows.
   */
  datatype Conversions = Conversions(
    singleToDouble: Float32 -> Float64,
    uint64ToDouble: uint64 -> Float64,
    decimalToDouble: DecimalBits -> Float64,
    doubleText: Float64 -> string,
    guidText: GuidBits -> string,
    dateTimeText: (int64, string) -> string,
    timeSpanText: int64 -> string,
    doubleToSingle: Float64 -> Float32,
    doubleToDecimal: Float64 -> Option<DecimalBits>,
    parseExact: (Option<string>, string, DateTimeStyles) -> Option<int64>,
    parse: Option<string> -> Option<int64>)
}
