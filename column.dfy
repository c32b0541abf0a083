// SQLiteColumn: a column's name and storage type, compared through the hash
// of the upper-cased name; and SQLiteColumnType, whose values are the
// engine's fundamental type codes.
module Column {
  import opened Clr
  import Text
  import Native

  /** SQLiteColumnType: Integer, Float, Text, Blob and Null carry the engine's codes 1 to 5. */
  predicate IsColumnType(t: int) {
    t == Native.SQLITE_INTEGER || t == Native.SQLITE_FLOAT || t == Native.SQLITE_TEXT
    || t == Native.SQLITE_BLOB || t == Native.SQLITE_NULL
  }

  /**
   * The struct. `name` is None only in the default value that a freshly
   * allocated array holds; the constructor never produces it. The column
   * type is the code as read, which need not be one of the five.
   */
  datatype Column = Column(name: Option<string>, columnType: int, hashCode: bv32)

  /** default(SQLiteColumn): null name, type 0, hash 0. */
  const DefaultColumn: Column := Column(None, 0, 0)

  /** The hash a name is looked up by: that of its upper-case form. */
  function NameHash(name: string): bv32 {
    Text.StringHash(Text.ToUpper(name))
  }

  /** new SQLiteColumn(name, columnType): a null name throws. */
  function New(name: Option<string>, columnType: int): (r: Result<Column>)
    ensures name.None? <==> r == Err(ArgumentNull("name"))
    ensures r.Ok? ==> r.value.name == name && r.value.columnType == columnType
    ensures r.Ok? ==> r.value.hashCode == NameHash(name.value)
  {
    if name.None? then Err(ArgumentNull("name"))
    else Ok(Column(name, columnType, NameHash(name.value)))
  }

  /** GetHashCode returns the stored hash. */
  function GetHashCode(c: Column): bv32 {
    c.hashCode
  }

  /** What Equals(object?) may be handed. */
  datatype Boxed = NullObject | ColumnObject(column: Column) | OtherObject

  /** Equals(object?): a column whose hash equals this one's. */
  predicate Equals(c: Column, obj: Boxed) {
    obj.ColumnObject? && GetHashCode(obj.column) == GetHashCode(c)
  }

  /** operator ==. */
  predicate Eq(left: Column, right: Column) {
    Equals(left, ColumnObject(right))
  }

  /** operator !=. */
  predicate Neq(left: Column, right: Column) {
    !Eq(left, right)
  }

  /** Equality is hash equality: names and column types are not compared. */
  lemma EqualsIsHashEquality(a: Column, b: Column)
    ensures Eq(a, b) <==> a.hashCode == b.hashCode
    ensures Eq(a, b) == Eq(a.(columnType := b.columnType), b)
    ensures Neq(a, b) <==> !Eq(a, b)
    ensures !Equals(a, NullObject) && !Equals(a, OtherObject)
  {
  }

  lemma EqIsEquivalence(a: Column, b: Column, c: Column)
    ensures Eq(a, a)
    ensures Eq(a, b) ==> Eq(b, a)
    ensures Eq(a, b) && Eq(b, c) ==> Eq(a, c)
  {
  }

  /** Names that differ only in letter case make equal columns, whatever their types. */
  lemma NamesIgnoreCase(a: string, b: string, s: int, t: int)
    requires Text.EqualsIgnoreCase(a, b)
    ensures New(Some(a), s).Ok? && New(Some(b), t).Ok?
    ensures Eq(New(Some(a), s).value, New(Some(b), t).value)
  {
  }

  /** A name already in upper case hashes as itself. */
  lemma UpperNameHash(name: string)
    ensures NameHash(Text.ToUpper(name)) == NameHash(name)
  {
    Text.ToUpperIdempotent(name);
  }
}
