// SQLiteColumnCollection: the reader's column table, a fixed-size array of
// columns with lookup by name through the hash of the upper-cased name.
module ColumnsCollection {
  import opened Clr
  import opened Column
  import Text

  /** The first position whose stored hash is `hash`, or -1 when there is none. */
  function FirstWithHash(cols: seq<Column>, hash: bv32): (r: int)
    ensures -1 <= r < |cols|
    ensures r >= 0 ==> cols[r].hashCode == hash && forall j :: 0 <= j < r ==> cols[j].hashCode != hash
    ensures r == -1 ==> forall j :: 0 <= j < |cols| ==> cols[j].hashCode != hash
    decreases |cols|
  {
    if |cols| == 0 then -1
    else if cols[0].hashCode == hash then 0
    else
      var r := FirstWithHash(cols[1..], hash);
      if r < 0 then -1 else r + 1
  }

  class Collection {
    var cols: array<Column>

    /** new SQLiteColumnCollection(colCount): colCount default columns. */
    constructor (colCount: nat)
      ensures fresh(cols) && cols.Length == colCount
      ensures forall i :: 0 <= i < cols.Length ==> cols[i] == DefaultColumn
    {
      cols := new Column[colCount](_ => DefaultColumn);
    }

    function Count(): nat
      reads this
    {
      cols.Length
    }

    /** this[int] get: the column at the index; outside the array, IndexOutOfRangeException. */
    method Get(index: int) returns (r: Result<Column>)
      ensures 0 <= index < cols.Length ==> r == Ok(cols[index])
      ensures !(0 <= index < cols.Length) ==> r == Err(IndexOutOfRange)
    {
      if 0 <= index < cols.Length {
        r := Ok(cols[index]);
      } else {
        r := Err(IndexOutOfRange);
      }
    }

    /** this[int] set: replaces that one slot. */
    method Set(index: int, c: Column) returns (r: Result<()>)
      modifies cols
      ensures 0 <= index < cols.Length ==> r == Ok(()) && cols[..] == old(cols[..])[index := c]
      ensures 0 <= index < cols.Length ==>
        cols[index] == c && forall j :: 0 <= j < cols.Length && j != index ==> cols[j] == old(cols[j])
      ensures !(0 <= index < cols.Length) ==> r == Err(IndexOutOfRange) && cols[..] == old(cols[..])
    {
      if 0 <= index < cols.Length {
        cols[index] := c;
        r := Ok(());
      } else {
        r := Err(IndexOutOfRange);
      }
    }

    /** ColumnIndex: the first column whose hash is that of the upper-cased name, or -1. */
    method ColumnIndex(colName: string) returns (index: int)
      ensures index == FirstWithHash(cols[..], NameHash(colName))
      ensures -1 <= index < cols.Length
    {
      var hash := NameHash(colName);
      index := 0;
      while index < cols.Length
        invariant 0 <= index <= cols.Length
        invariant forall j :: 0 <= j < index ==> cols[j].hashCode != hash
      {
        if cols[index].hashCode == hash {
          return;
        }
        index := index + 1;
      }
      index := -1;
    }

    /** this[string] get: the column at ColumnIndex(name), which throws for an unknown name. */
    method GetByName(colName: string) returns (r: Result<Column>)
      ensures var i := FirstWithHash(cols[..], NameHash(colName));
        (i >= 0 ==> r == Ok(cols[i])) && (i < 0 ==> r == Err(IndexOutOfRange))
    {
      var index := ColumnIndex(colName);
      r := Get(index);
    }

    /** this[string] set. */
    method SetByName(colName: string, c: Column) returns (r: Result<()>)
      modifies cols
      ensures var i := FirstWithHash(old(cols[..]), NameHash(colName));
        && (i >= 0 ==> r == Ok(()) && cols[..] == old(cols[..])[i := c])
        && (i < 0 ==> r == Err(IndexOutOfRange) && cols[..] == old(cols[..]))
    {
      var index := ColumnIndex(colName);
      r := Set(index, c);
    }

    /** Clear: the array is replaced by an empty one. */
    method Clear()
      modifies this`cols
      ensures fresh(cols) && cols.Length == 0
    {
      cols := new Column[0];
    }
  }

  /** Lookup ignores letter case. */
  lemma LookupIgnoresCase(cols: seq<Column>, a: string, b: string)
    requires Text.EqualsIgnoreCase(a, b)
    ensures FirstWithHash(cols, NameHash(a)) == FirstWithHash(cols, NameHash(b))
  {
  }

  /** A column built from a name is found by that name, at its position or at an earlier one with the same hash. */
  lemma {:induction false} LookupFindsColumn(cols: seq<Column>, i: nat, name: string, t: int)
    requires i < |cols| && New(Some(name), t).Ok? && cols[i] == New(Some(name), t).value
    ensures 0 <= FirstWithHash(cols, NameHash(name)) <= i
    ensures Eq(cols[FirstWithHash(cols, NameHash(name))], cols[i])
    decreases i
  {
    if i > 0 && cols[0].hashCode != NameHash(name) {
      LookupFindsColumn(cols[1..], i - 1, name, t);
    }
  }

  /** An empty table finds nothing. */
  lemma EmptyFindsNothing(name: string)
    ensures FirstWithHash([], NameHash(name)) == -1
  {
  }
}
