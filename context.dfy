// SQLiteContext and SQLiteCommand. A context lends a connection to a unit of
// work and keeps a registry of the commands it created (weak references in
// the library; here the list of their targets, with the set of targets still
// reachable given by the caller wherever the library asks the collector). A
// command owns one prepared statement; a process-wide counter tracks the
// commands not yet disposed. The two classes refer to each other, so they
// share a module.
module Context {
  import opened Clr
  import opened Native
  import SQLiteException
  import Execution
  import Connection
  import Marshal
  import Reader

  /** The text of the InvalidCastException a non-string parameter name raises. */
  const CastText: string := "Unable to cast object to type 'System.String'."

  // ---------------------------------------------------------------------
  // The live-command counter
  // ---------------------------------------------------------------------

  /** RefCounter: a 32-bit counter whose increment and decrement wrap around. */
  class RefCounter {
    var count: int32

    constructor ()
      ensures count == 0
    {
      count := 0;
    }

    method Add() returns (n: int32)
      modifies this
      ensures count == WrapInt32(old(count) + 1) && n == count
    {
      count := WrapInt32(count + 1);
      n := count;
    }

    method Remove() returns (n: int32)
      modifies this
      ensures count == WrapInt32(old(count) - 1) && n == count
    {
      count := WrapInt32(count - 1);
      n := count;
    }
  }

  /** An increment followed by a decrement restores the counter, also across the wrap-around. */
  lemma AddRemoveCancel(c: int32)
    ensures WrapInt32(WrapInt32(c + 1) - 1) == c
  {
    if c == 0x7fff_ffff {
      assert WrapInt32(c + 1) == -0x8000_0000;
    } else {
      assert WrapInt32(c + 1) == c + 1;
    }
  }

  // ---------------------------------------------------------------------
  // The registry as a value
  // ---------------------------------------------------------------------

  predicate Distinct<T(==)>(s: seq<T>) {
    forall i, j :: 0 <= i < j < |s| ==> s[i] != s[j]
  }

  /** The registry with every entry for `x` removed and the others kept in order. */
  function Without<T(==)>(s: seq<T>, x: T): (r: seq<T>)
    ensures |r| <= |s|
  {
    if |s| == 0 then []
    else (if s[0] == x then [] else [s[0]]) + Without(s[1..], x)
  }

  /** Without keeps exactly the entries other than `x`. */
  lemma {:induction false} WithoutMembers<T>(s: seq<T>, x: T)
    ensures forall e :: e in Without(s, x) <==> e in s && e != x
  {
    if |s| > 0 {
      WithoutMembers(s[1..], x);
      assert s == [s[0]] + s[1..];
    }
  }

  /** Without keeps a registry free of duplicates. */
  lemma {:induction false} WithoutDistinct<T>(s: seq<T>, x: T)
    requires Distinct(s)
    ensures Distinct(Without(s, x))
  {
    if |s| > 0 {
      WithoutDistinct(s[1..], x);
      WithoutMembers(s[1..], x);
      var rest := Without(s[1..], x);
      if s[0] != x {
        assert s[0] !in s[1..] by {
          forall k | 0 <= k < |s[1..]|
            ensures s[1..][k] != s[0]
          {
            assert s[1..][k] == s[k + 1];
          }
        }
        var r := [s[0]] + rest;
        forall i, j | 0 <= i < j < |r|
          ensures r[i] != r[j]
        {
          if i == 0 {
            assert r[j] == rest[j - 1];
          }
        }
      }
    }
  }

  /** The tail of a registry without duplicates has none either. */
  lemma DistinctTail<T>(s: seq<T>)
    requires Distinct(s) && |s| > 0
    ensures Distinct(s[1..])
  {
    forall a, b | 0 <= a < b < |s[1..]|
      ensures s[1..][a] != s[1..][b]
    {
      assert s[1..][a] == s[a + 1] && s[1..][b] == s[b + 1];
    }
  }

  /** In a registry without duplicates, removing the entry at `i` is removing its target. */
  lemma {:induction false} WithoutAt<T>(s: seq<T>, i: nat)
    requires Distinct(s) && i < |s|
    ensures Without(s, s[i]) == s[..i] + s[i + 1..]
  {
    if i == 0 {
      WithoutAbsent(s[1..], s[0]);
      assert s[1..] == s[i + 1..];
    } else {
      DistinctTail(s);
      WithoutAt(s[1..], i - 1);
      assert s[1..][i - 1] == s[i];
      assert s[0] != s[i];
      assert s[..i] == [s[0]] + s[1..][..i - 1];
      assert s[i + 1..] == s[1..][i..];
    }
  }

  /** One step of the backward walk: the entry at k is dropped when it is `x`, kept otherwise. */
  lemma WithoutUnfold<T>(s: seq<T>, k: nat, x: T)
    requires k < |s|
    ensures s[..k + 1] + Without(s[k + 1..], x) == s[..k] + [s[k]] + Without(s[k + 1..], x)
    ensures s[..k] + Without(s[k..], x) == s[..k] + (if s[k] == x then [] else [s[k]]) + Without(s[k + 1..], x)
  {
    assert s[k..][1..] == s[k + 1..];
    assert s[..k + 1] == s[..k] + [s[k]];
  }

  /** Removing a target that is not registered changes nothing. */
  lemma {:induction false} WithoutAbsent<T>(s: seq<T>, x: T)
    requires x !in s
    ensures Without(s, x) == s
  {
    if |s| > 0 {
      assert s[0] != x;
      WithoutAbsent(s[1..], x);
      assert s == [s[0]] + s[1..];
    }
  }

  /** Registering a new target and removing it again restores the registry. */
  lemma {:induction false} WithoutAppended<T>(s: seq<T>, x: T)
    requires x !in s
    ensures Without(s + [x], x) == s
  {
    if |s| == 0 {
      assert Without([x], x) == [] + Without([x][1..], x);
      assert [x][1..] == [];
    } else {
      assert (s + [x])[1..] == s[1..] + [x];
      WithoutAppended(s[1..], x);
      assert s == [s[0]] + s[1..];
    }
  }

  // ---------------------------------------------------------------------
  // Parameter pairing
  // ---------------------------------------------------------------------

  /** sqlite3_bind_parameter_index on the statement a prepare produced, if any. */
  function IndexIn(first: Option<StatementSpec>, name: string): int {
    if first.None? then 0
    else if name in first.value.parameters then first.value.parameters[name]
    else 0
  }

  /**
   * The outcome of Bind(name, object?) on a single statement: an unknown
   * name is refused before the value is looked at, then the value's type.
   */
  function BindOutcome(first: Option<StatementSpec>, name: string, v: Value, conv: Conversions): Result<()>
    requires WellFormed(v)
  {
    if IndexIn(first, name) <= 0 then Err(ArgumentOutOfRange("paramName"))
    else
      match Marshal.Dispatch(v, conv)
      case Err(e) => Err(e)
      case Ok(_) => Ok(())
  }

  predicate AllWellFormed(params: seq<Value>) {
    forall j :: 0 <= j < |params| ==> WellFormed(params[j])
  }

  /**
   * The parameter loop of Execute, ExecuteScalar and ExecuteReader from
   * position i, with `name` the name read at the previous even position:
   * an even position must hold a string name; an odd one is bound under the
   * name before it. The first failure ends the walk.
   */
  function Walk(first: Option<StatementSpec>, params: seq<Value>, i: nat, name: string, conv: Conversions): Result<()>
    requires AllWellFormed(params)
    decreases |params| - i
  {
    if i >= |params| then Ok(())
    else if i % 2 == 0 then
      match params[i]
      case NullRef => Err(ArgumentNull("parameters"))
      case StringValue(n) => Walk(first, params, i + 1, n, conv)
      case _ => Err(InvalidCast(CastText))
    else
      match BindOutcome(first, name, params[i], conv)
      case Err(e) => Err(e)
      case Ok(_) => Walk(first, params, i + 1, name, conv)
  }

  predicate NamesAreStrings(params: seq<Value>) {
    forall j :: 0 <= j < |params| && j % 2 == 0 ==> params[j].StringValue?
  }

  /** The (name, value) pairs a list of names and values stands for; a trailing name forms no pair. */
  function Bindings(params: seq<Value>): (r: seq<(string, Value)>)
    requires NamesAreStrings(params)
    ensures |r| == |params| / 2
    decreases |params|
  {
    if |params| < 2 then []
    else if |params| % 2 == 1 then Bindings(params[..|params| - 1])
    else Bindings(params[..|params| - 2]) + [(params[|params| - 2].s, params[|params| - 1])]
  }

  /** Pair j is the name at position 2j with the value after it. */
  lemma {:induction false} BindingsPairs(params: seq<Value>)
    requires NamesAreStrings(params)
    ensures forall j :: 0 <= j < |Bindings(params)| ==>
      Bindings(params)[j] == (params[2 * j].s, params[2 * j + 1])
    decreases |params|
  {
    if |params| >= 2 {
      var n := |params|;
      if n % 2 == 1 {
        BindingsPairs(params[..n - 1]);
      } else {
        BindingsPairs(params[..n - 2]);
        var before := Bindings(params[..n - 2]);
        forall j | 0 <= j < |Bindings(params)|
          ensures Bindings(params)[j] == (params[2 * j].s, params[2 * j + 1])
        {
          if j < |before| {
            assert Bindings(params)[j] == before[j];
          }
        }
      }
    }
  }

  /** A bind that stores `v` at `index` if the native call accepts it. */
  function Applied(bound: map<int, BoundValue>, spec: StatementSpec, open: bool, index: int, v: BoundValue): map<int, BoundValue> {
    if BindCodeFor(spec, open, index) == SQLITE_OK then bound[index := v] else bound
  }

  /**
   * The parameter map after Bind(name, object?) on a statement; a value the
   * dispatch refuses (or that no runtime object could be) leaves it as it was.
   */
  function BindStep(bound: map<int, BoundValue>, spec: StatementSpec, open: bool, name: string, v: Value,
                    conv: Conversions, times: Marshal.TimeSettings): map<int, BoundValue>
  {
    if !WellFormed(v) then bound
    else
      match Marshal.Dispatch(v, conv)
      case Ok(p) => Applied(bound, spec, open, IndexIn(Some(spec), name), Marshal.ToBound(p, conv, times))
      case Err(_) => bound
  }

  /** The parameter map after binding the pairs in order. */
  function BindAll(bound: map<int, BoundValue>, pairs: seq<(string, Value)>, spec: StatementSpec, open: bool,
                   conv: Conversions, times: Marshal.TimeSettings): map<int, BoundValue>
    decreases |pairs|
  {
    if |pairs| == 0 then bound
    else
      var last := pairs[|pairs| - 1];
      BindStep(BindAll(bound, pairs[..|pairs| - 1], spec, open, conv, times), spec, open, last.0, last.1, conv, times)
  }

  /**
   * Up to an even position the walk depends only on the prefix: once the
   * prefix passes, the outcome is that of the walk from there.
   */
  lemma {:induction false} WalkPrefix(first: Option<StatementSpec>, params: seq<Value>, k: nat, i: nat, name: string, conv: Conversions)
    requires AllWellFormed(params) && i <= k <= |params| && k % 2 == 0
    requires Walk(first, params[..k], i, name, conv).Ok?
    ensures Walk(first, params, i, name, conv) == Walk(first, params, k, "", conv)
    decreases k - i
  {
    if i < k {
      assert params[..k][i] == params[i];
      if i % 2 == 0 {
        match params[i]
        case StringValue(n) => WalkPrefix(first, params, k, i + 1, n, conv);
      } else {
        WalkPrefix(first, params, k, i + 1, name, conv);
      }
    }
  }

  /** A null at an even position is refused with ArgumentNullException once the pairs before it pass. */
  lemma NullNameRefused(first: Option<StatementSpec>, params: seq<Value>, k: nat, conv: Conversions)
    requires AllWellFormed(params) && k < |params| && k % 2 == 0 && params[k] == NullRef
    requires Walk(first, params[..k], 0, "", conv).Ok?
    ensures Walk(first, params, 0, "", conv) == Err(ArgumentNull("parameters"))
  {
    WalkPrefix(first, params, k, 0, "", conv);
  }

  /** A name that is not a string is refused with InvalidCastException once the pairs before it pass. */
  lemma NonStringNameRefused(first: Option<StatementSpec>, params: seq<Value>, k: nat, conv: Conversions)
    requires AllWellFormed(params) && k < |params| && k % 2 == 0
    requires params[k] != NullRef && !params[k].StringValue?
    requires Walk(first, params[..k], 0, "", conv).Ok?
    ensures Walk(first, params, 0, "", conv) == Err(InvalidCast(CastText))
  {
    WalkPrefix(first, params, k, 0, "", conv);
  }

  lemma {:induction false} WalkTrailingName(first: Option<StatementSpec>, params: seq<Value>, i: nat, name: string, n: string, conv: Conversions)
    requires AllWellFormed(params) && |params| % 2 == 0 && i <= |params|
    ensures AllWellFormed(params + [StringValue(n)])
    ensures Walk(first, params + [StringValue(n)], i, name, conv) == Walk(first, params, i, name, conv)
    decreases |params| - i
  {
    var ext := params + [StringValue(n)];
    assert AllWellFormed(ext) by {
      forall j | 0 <= j < |ext|
        ensures WellFormed(ext[j])
      {
        if j < |params| {
          assert ext[j] == params[j];
        }
      }
    }
    if i < |params| {
      assert ext[i] == params[i];
      if i % 2 == 0 {
        match params[i]
        case NullRef =>
        case StringValue(m) => WalkTrailingName(first, params, i + 1, m, n, conv);
        case _ =>
      } else {
        WalkTrailingName(first, params, i + 1, name, n, conv);
      }
    }
  }

  /** A trailing name with no value after it changes neither the outcome nor the pairs bound. */
  lemma TrailingNameUnbound(first: Option<StatementSpec>, params: seq<Value>, n: string, conv: Conversions)
    requires AllWellFormed(params) && |params| % 2 == 0
    ensures AllWellFormed(params + [StringValue(n)])
    ensures Walk(first, params + [StringValue(n)], 0, "", conv) == Walk(first, params, 0, "", conv)
    ensures NamesAreStrings(params) ==>
      NamesAreStrings(params + [StringValue(n)]) && Bindings(params + [StringValue(n)]) == Bindings(params)
  {
    WalkTrailingName(first, params, 0, "", n, conv);
    var ext := params + [StringValue(n)];
    if NamesAreStrings(params) {
      assert NamesAreStrings(ext) by {
        forall j | 0 <= j < |ext| && j % 2 == 0
          ensures ext[j].StringValue?
        {
          if j < |params| {
            assert ext[j] == params[j];
          }
        }
      }
      BindingsExtend(params, StringValue(n));
    }
  }

  /** Extending the list by one element completes a pair exactly when the element sits at an odd position. */
  lemma BindingsExtend(params: seq<Value>, x: Value)
    requires NamesAreStrings(params + [x])
    ensures NamesAreStrings(params)
    ensures |params| % 2 == 0 ==> Bindings(params + [x]) == Bindings(params)
    ensures |params| % 2 == 1 ==> Bindings(params + [x]) == Bindings(params) + [(params[|params| - 1].s, x)]
  {
    var ext := params + [x];
    assert NamesAreStrings(params) by {
      forall j | 0 <= j < |params| && j % 2 == 0
        ensures params[j].StringValue?
      {
        assert ext[j] == params[j];
      }
    }
    var n := |params|;
    if n % 2 == 0 {
      assert ext[..n] == params;
    } else {
      assert ext[..n - 1] == params[..n - 1];
      assert ext[n - 1] == params[n - 1];
    }
  }

  /** The names among the first i elements are strings. */
  predicate NamesUpTo(params: seq<Value>, i: nat) {
    forall j :: 0 <= j < i && j < |params| && j % 2 == 0 ==> params[j].StringValue?
  }

  /** The text of a name element; a non-string stands for nothing. */
  function NameText(v: Value): string {
    if v.StringValue? then v.s else ""
  }

  /** The parameter map once the loop has passed the first i elements: each completed pair adds a step. */
  function BoundAfter(bound: map<int, BoundValue>, params: seq<Value>, i: nat, spec: StatementSpec, open: bool,
                      conv: Conversions, times: Marshal.TimeSettings): map<int, BoundValue>
    requires i <= |params|
    decreases i
  {
    if i < 2 then bound
    else if i % 2 == 1 then BoundAfter(bound, params, i - 1, spec, open, conv, times)
    else BindStep(BoundAfter(bound, params, i - 2, spec, open, conv, times), spec, open,
                  NameText(params[i - 2]), params[i - 1], conv, times)
  }

  /** One more element: a value completes a pair and adds its step; a name adds nothing. */
  lemma BoundAfterStep(bound: map<int, BoundValue>, params: seq<Value>, i: nat, spec: StatementSpec, open: bool,
                       conv: Conversions, times: Marshal.TimeSettings)
    requires i < |params|
    ensures i % 2 == 0 ==>
      BoundAfter(bound, params, i + 1, spec, open, conv, times) == BoundAfter(bound, params, i, spec, open, conv, times)
    ensures i % 2 == 1 ==>
      BoundAfter(bound, params, i + 1, spec, open, conv, times)
      == BindStep(BoundAfter(bound, params, i, spec, open, conv, times), spec, open, NameText(params[i - 1]), params[i], conv, times)
  {
    if i % 2 == 1 {
      BoundAfterValue(bound, params, i, spec, open, conv, times);
    } else {
      BoundAfterName(bound, params, i, spec, open, conv, times);
    }
  }

  /** The name at an even position binds nothing yet. */
  lemma BoundAfterName(bound: map<int, BoundValue>, params: seq<Value>, i: nat, spec: StatementSpec, open: bool,
                       conv: Conversions, times: Marshal.TimeSettings)
    requires i < |params| && i % 2 == 0
    ensures BoundAfter(bound, params, i + 1, spec, open, conv, times) == BoundAfter(bound, params, i, spec, open, conv, times)
  {
  }

  /** The value at an odd position completes the pair before it. */
  lemma BoundAfterValue(bound: map<int, BoundValue>, params: seq<Value>, i: nat, spec: StatementSpec, open: bool,
                        conv: Conversions, times: Marshal.TimeSettings)
    requires i < |params| && i % 2 == 1
    ensures BoundAfter(bound, params, i + 1, spec, open, conv, times)
      == BindStep(BoundAfter(bound, params, i, spec, open, conv, times), spec, open, NameText(params[i - 1]), params[i], conv, times)
  {
    var before := BoundAfter(bound, params, i - 1, spec, open, conv, times);
    assert BoundAfter(bound, params, i, spec, open, conv, times) == before;
  }

  /** The loop's running map is the fold of the pairs of the prefix it has passed. */
  lemma {:induction false} BoundAfterIsBindAll(bound: map<int, BoundValue>, params: seq<Value>, i: nat, spec: StatementSpec,
                                               open: bool, conv: Conversions, times: Marshal.TimeSettings)
    requires i <= |params| && NamesUpTo(params, i)
    ensures NamesAreStrings(params[..i])
    ensures BoundAfter(bound, params, i, spec, open, conv, times) == BindAll(bound, Bindings(params[..i]), spec, open, conv, times)
    decreases i
  {
    var prefix := params[..i];
    assert NamesAreStrings(prefix) by {
      forall j | 0 <= j < |prefix| && j % 2 == 0
        ensures prefix[j].StringValue?
      {
        assert prefix[j] == params[j];
      }
    }
    if i < 2 {
    } else if i % 2 == 1 {
      BoundAfterIsBindAll(bound, params, i - 1, spec, open, conv, times);
      assert prefix[..i - 1] == params[..i - 1];
    } else {
      BoundAfterIsBindAll(bound, params, i - 2, spec, open, conv, times);
      assert prefix[..i - 2] == params[..i - 2];
      assert prefix[i - 2] == params[i - 2] && prefix[i - 1] == params[i - 1];
      BindAllSnoc(bound, Bindings(params[..i - 2]), (params[i - 2].s, params[i - 1]), spec, open, conv, times);
    }
  }

  /** Binding one more pair is one more step. */
  lemma BindAllSnoc(bound: map<int, BoundValue>, pairs: seq<(string, Value)>, p: (string, Value), spec: StatementSpec,
                    open: bool, conv: Conversions, times: Marshal.TimeSettings)
    ensures BindAll(bound, pairs + [p], spec, open, conv, times)
         == BindStep(BindAll(bound, pairs, spec, open, conv, times), spec, open, p.0, p.1, conv, times)
  {
    assert (pairs + [p])[..|pairs|] == pairs;
  }

  // ---------------------------------------------------------------------
  // Steps and their outcomes
  // ---------------------------------------------------------------------

  /** sqlite3_step's result on a possibly null statement. */
  function NextStepOf(s: Statement?): StepResult
    reads s
  {
    if s == null then StepResult(SQLITE_MISUSE, [], 0) else s.NextStep()
  }

  /** The first step of a statement straight from prepare. */
  function FirstStep(first: Option<StatementSpec>): StepResult {
    if first.None? then StepResult(SQLITE_MISUSE, [], 0)
    else if |first.value.script| > 0 then first.value.script[0]
    else DoneStep
  }

  /** What sqlite3_finalize returns for a possibly null statement. */
  function FinalizeCode(s: Statement?): int
    reads s
  {
    if s == null then SQLITE_OK else if s.finalized then SQLITE_MISUSE else s.LastErrorCode()
  }

  /** Command.Execute: the step is checked against the connection; the changes are reported on success. */
  function StepOutcome(db: SQLiteException.HandleState, step: StepResult, errstr: int -> string): (r: Result<int>)
    ensures r.Ok? <==> IsSuccess(step.code)
    ensures r.Ok? ==> r.value == step.changes
    ensures r.Err? ==> r.error == SQLiteException.CheckOK(db, step.code, errstr).error
  {
    match SQLiteException.CheckOK(db, step.code, errstr)
    case Ok(_) => Ok(step.changes)
    case Err(e) => Err(e)
  }

  /** ExecuteScalar when the reader yields no row: the default value, unless the step failed. */
  function NoRowOutcome(step: StepResult, errstr: int -> string): (r: Result<Value>)
    ensures IsSuccess(step.code) <==> r == Ok(NullRef)
    ensures r.Err? ==> r.error == SQLiteException.CheckCode(step.code, errstr).error
  {
    match SQLiteException.CheckCode(step.code, errstr)
    case Ok(_) => Ok(NullRef)
    case Err(e) => Err(e)
  }

  /**
   * ExecuteScalar when the reader yields a row: building the column table
   * throws for a nameless column, GetValue(0) throws when there is no
   * column, and otherwise column 0 of the row is boxed as its own type.
   */
  function RowOutcome(spec: StatementSpec, step: StepResult): (r: Result<Value>)
    ensures (exists i :: 0 <= i < |spec.columnNames| && spec.columnNames[i].None?) ==> r == Err(ArgumentOutOfRange("index"))
    ensures (forall i :: 0 <= i < |spec.columnNames| ==> spec.columnNames[i].Some?) && |spec.columnNames| == 0 ==>
      r == Err(IndexOutOfRange)
  {
    if !(forall i :: 0 <= i < |spec.columnNames| ==> spec.columnNames[i].Some?) then Err(ArgumentOutOfRange("index"))
    else if |spec.columnNames| == 0 then Err(IndexOutOfRange)
    else
      var c := if |step.row| > 0 then step.row[0] else NullCell;
      Reader.ReadColValue(c, c.columnType)
  }

  /** The reader's column names are all present exactly when the statement's are. */
  lemma NamesPresentOfSpec(reader: Reader.Reader)
    requires reader.stmt != null
    ensures reader.NamesPresent() <==>
      forall i :: 0 <= i < |reader.stmt.spec.columnNames| ==> reader.stmt.spec.columnNames[i].Some?
  {
    forall i | 0 <= i < |reader.stmt.spec.columnNames|
      ensures ColumnNameOf(reader.stmt, i) == reader.stmt.spec.columnNames[i]
    {
    }
  }

  /** A named column whose first cell is an INTEGER makes ExecuteScalar return that number, boxed as a long. */
  lemma ScalarOfInteger(spec: StatementSpec, step: StepResult)
    requires |spec.columnNames| > 0 && forall i :: 0 <= i < |spec.columnNames| ==> spec.columnNames[i].Some?
    requires |step.row| > 0 && step.row[0].columnType == SQLITE_INTEGER
    ensures RowOutcome(spec, step) == Ok(Int64Value(step.row[0].int64))
  {
  }

  // ---------------------------------------------------------------------
  // SQLiteCommand
  // ---------------------------------------------------------------------

  class Command {
    const context: Context
    const stmt: Statement?

    constructor (context: Context, stmt: Statement?)
      ensures this.context == context && this.stmt == stmt
    {
      this.context := context;
      this.stmt := stmt;
    }

    /** The statement prepare produced, as a value. */
    function Spec(): Option<StatementSpec> {
      if stmt == null then None else Some(stmt.spec)
    }

    /** The connection's date and time settings that the typed binds consult. */
    function Times(): Marshal.TimeSettings {
      var s := context.connection.options.settings;
      Marshal.TimeSettings(s.storeDateTimeAsTicks, s.dateTimeStringFormat)
    }

    /** The typed Bind(int, T) overloads: the native code is ignored and the command returned. */
    method BindIndex(index: int, p: Marshal.Param) returns (self: Command)
      modifies stmt
      ensures self == this
      ensures stmt != null ==>
        (stmt.bound == Applied(old(stmt.bound), stmt.spec, old(Bindable(stmt)), index, Marshal.ToBound(p, context.conv, Times()))
         && stmt.cursor == old(stmt.cursor) && stmt.current == old(stmt.current) && stmt.finalized == old(stmt.finalized))
    {
      var _ := BindStatement(stmt, index, Marshal.ToBound(p, context.conv, Times()));
      self := this;
    }

    /** The typed Bind(string, T) overloads: a name that is not a parameter is refused before anything is bound. */
    method BindName(name: string, p: Marshal.Param) returns (r: Result<Command>)
      modifies stmt
      ensures IndexIn(Spec(), name) <= 0 <==> r.Err?
      ensures r.Err? ==> r.error == ArgumentOutOfRange("paramName") && (stmt != null ==> stmt.bound == old(stmt.bound))
      ensures r.Ok? ==> r.value == this
      ensures r.Ok? ==>
        stmt.bound == Applied(old(stmt.bound), stmt.spec, old(Bindable(stmt)), IndexIn(Spec(), name),
                              Marshal.ToBound(p, context.conv, Times()))
      ensures stmt != null ==>
        stmt.cursor == old(stmt.cursor) && stmt.current == old(stmt.current) && stmt.finalized == old(stmt.finalized)
    {
      var index := ParameterIndexOf(stmt, name);
      if index <= 0 {
        return Err(ArgumentOutOfRange("paramName"));
      }
      var self := BindIndex(index, p);
      r := Ok(self);
    }

    /** Bind(int, object?): the value's type picks the overload; an unsupported type binds nothing. */
    method BindObject(index: int, v: Value) returns (r: Result<Command>)
      requires WellFormed(v)
      modifies stmt
      ensures r.Ok? <==> Marshal.Dispatch(v, context.conv).Ok?
      ensures r.Ok? ==> r.value == this
      ensures r.Err? ==> r.error == Marshal.Dispatch(v, context.conv).error && (stmt != null ==> stmt.bound == old(stmt.bound))
      ensures r.Ok? && stmt != null ==>
        stmt.bound == Applied(old(stmt.bound), stmt.spec, old(Bindable(stmt)), index,
                              Marshal.ToBound(Marshal.Dispatch(v, context.conv).value, context.conv, Times()))
      ensures stmt != null ==>
        stmt.cursor == old(stmt.cursor) && stmt.current == old(stmt.current) && stmt.finalized == old(stmt.finalized)
    {
      match Marshal.Dispatch(v, context.conv) {
        case Err(e) =>
          r := Err(e);
        case Ok(p) =>
          var self := BindIndex(index, p);
          r := Ok(self);
      }
    }

    /** Bind(string, object?): the name is checked first, then the value's type. */
    method BindNameObject(name: string, v: Value) returns (r: Result<Command>)
      requires WellFormed(v)
      modifies stmt
      ensures r.Ok? <==> BindOutcome(Spec(), name, v, context.conv).Ok?
      ensures r.Ok? ==> r.value == this
      ensures r.Err? ==> r.error == BindOutcome(Spec(), name, v, context.conv).error && (stmt != null ==> stmt.bound == old(stmt.bound))
      ensures r.Ok? ==>
        stmt.bound == BindStep(old(stmt.bound), stmt.spec, old(Bindable(stmt)), name, v, context.conv, Times())
      ensures stmt != null ==>
        stmt.cursor == old(stmt.cursor) && stmt.current == old(stmt.current) && stmt.finalized == old(stmt.finalized)
    {
      var index := ParameterIndexOf(stmt, name);
      if index <= 0 {
        return Err(ArgumentOutOfRange("paramName"));
      }
      r := BindObject(index, v);
    }

    /** ExecuteReader: a reader over this command's statement with the connection's date settings. */
    method ExecuteReader() returns (reader: Reader.Reader)
      ensures fresh(reader) && reader.stmt == stmt && reader.conv == context.conv
      ensures reader.storeTicks == context.connection.options.settings.storeDateTimeAsTicks
      ensures reader.format == context.connection.options.settings.dateTimeStringFormat
      ensures reader.style == context.connection.options.settings.dateTimeStyle
      ensures reader.columns == null && reader.values == null
    {
      var s := context.connection.options.settings;
      reader := new Reader.Reader(stmt, s.storeDateTimeAsTicks, s.dateTimeStringFormat, s.dateTimeStyle, context.conv);
    }

    /**
     * Execute: one step, checked against the connection's error state, gives
     * the number of changed rows; the statement is reset whatever happens.
     */
    method Execute(engine: Engine) returns (r: Result<int>)
      modifies stmt
      ensures r == StepOutcome(SQLiteException.StateOf(engine, context.connection.handle), old(NextStepOf(stmt)), engine.errstr)
      ensures stmt != null ==>
        (stmt.cursor == 0 && stmt.current == None && stmt.bound == old(stmt.bound) && stmt.finalized == old(stmt.finalized))
    {
      var rc := StepStatement(stmt);
      var checked := SQLiteException.CheckOK(SQLiteException.StateOf(engine, context.connection.handle), rc, engine.errstr);
      match checked {
        case Ok(_) =>
          r := Ok(if stmt == null then 0 else stmt.Changes());
        case Err(e) =>
          r := Err(e);
      }
      var _ := ResetStatement(stmt);
    }

    /**
     * ExecuteScalar: the first column of the first row, or the default value
     * when there is no row; the reader is disposed in any case and an error
     * it reports replaces the result.
     */
    method ExecuteScalar(engine: Engine) returns (r: Result<Value>)
      modifies stmt
      ensures stmt == null ==> r == Ok(NullRef)
      ensures stmt != null && old(stmt.NextStep()).code != SQLITE_ROW ==> r == NoRowOutcome(old(stmt.NextStep()), engine.errstr)
      ensures stmt != null && old(stmt.NextStep()).code == SQLITE_ROW ==> r == RowOutcome(stmt.spec, old(stmt.NextStep()))
      ensures stmt != null ==>
        (stmt.cursor == 0 && stmt.current == None && stmt.bound == old(stmt.bound) && stmt.finalized == old(stmt.finalized))
    {
      var reader := ExecuteReader();
      var read := reader.Read();
      var value: Result<Value>;
      match read {
        case Err(e) =>
          value := Err(e);
        case Ok(row) =>
          value := if row then reader.GetValue(0) else Ok(NullRef);
      }
      if stmt != null && old(stmt.NextStep()).code == SQLITE_ROW {
        assert stmt.current == Some(old(stmt.NextStep())) && stmt.LastErrorCode() == SQLITE_OK;
        NamesPresentOfSpec(reader);
        assert ColumnOf(stmt, 0) == (if |old(stmt.NextStep()).row| > 0 then old(stmt.NextStep()).row[0] else NullCell);
        assert read.Ok? ==> read == Ok(true);
        if read.Ok? && |stmt.spec.columnNames| > 0 {
          assert Ok(reader.columns.cols[0]) == Reader.ReadCol(stmt, 0);
        }
        assert value == RowOutcome(stmt.spec, old(stmt.NextStep()));
      }
      var disposed := reader.Dispose(engine);
      match disposed {
        case Err(e) =>
          r := Err(e);
        case Ok(_) =>
          r := value;
      }
    }

    /**
     * Dispose: finalizes the statement; only when that succeeds is the
     * command removed from its context and the counter decremented.
     */
    method Dispose(engine: Engine) returns (r: Result<()>)
      requires context.Valid()
      modifies stmt, context`commands, context.counter
      ensures context.Valid()
      ensures r == SQLiteException.CheckCode(old(FinalizeCode(stmt)), engine.errstr)
      ensures stmt != null ==>
        (stmt.finalized && stmt.bound == old(stmt.bound) && stmt.cursor == old(stmt.cursor) && stmt.current == old(stmt.current))
      ensures r.Ok? ==>
        context.commands == Without(old(context.commands), this)
        && context.counter.count == WrapInt32(old(context.counter.count) - 1)
      ensures r.Err? ==>
        context.commands == old(context.commands) && context.counter.count == old(context.counter.count)
    {
      var rc := FinalizeStatement(stmt);
      r := SQLiteException.CheckCode(rc, engine.errstr);
      if r.Err? {
        return;
      }
      context.RemoveCommand(this);
      var _ := context.counter.Remove();
    }
  }

  /**
   * new SQLiteCommand(context, text): prepares the first statement of the
   * text (the tail is dropped), refuses a failing code, and only then
   * counts the command.
   */
  method NewCommand(context: Context, sql: string, engine: Engine) returns (r: Result<Command>)
    modifies context.counter
    ensures var reply := engine.prepareResult(context.connection.handle, sql);
      && (r.Ok? <==> IsSuccess(reply.rc))
      && (r.Err? ==> r.error == SQLiteException.CheckCode(reply.rc, engine.errstr).error
                     && context.counter.count == old(context.counter.count))
      && (r.Ok? ==> fresh(r.value) && r.value.context == context && r.value.Spec() == reply.first
                    && context.counter.count == WrapInt32(old(context.counter.count) + 1))
    ensures r.Ok? && r.value.stmt != null ==>
      fresh(r.value.stmt) && r.value.stmt.bound == map[] && r.value.stmt.cursor == 0
      && r.value.stmt.current == None && !r.value.stmt.finalized
  {
    var rc, stmt := engine.Prepare(context.connection.handle, sql);
    var checked := SQLiteException.CheckCode(rc, engine.errstr);
    if checked.Err? {
      return Err(checked.error);
    }
    var cmd := new Command(context, stmt);
    var _ := context.counter.Add();
    r := Ok(cmd);
  }

  // ---------------------------------------------------------------------
  // SQLiteContext
  // ---------------------------------------------------------------------

  class Context {
    const connection: Connection.Connection
    /** The process-wide counter of commands not yet disposed. */
    const counter: RefCounter
    const conv: Conversions
    /** The targets of the registry's weak references, in registration order. */
    var commands: seq<Command>

    /** Every command is registered at most once, and only with its own context. */
    ghost predicate Valid()
      reads this
    {
      Distinct(commands) && forall c :: c in commands ==> c.context == this
    }

    constructor (connection: Connection.Connection, counter: RefCounter, conv: Conversions)
      ensures this.connection == connection && this.counter == counter && this.conv == conv
      ensures commands == [] && Valid()
    {
      this.connection := connection;
      this.counter := counter;
      this.conv := conv;
      commands := [];
    }

    /** AddCommand: one more registry entry, at the end. */
    method AddCommand(command: Command)
      modifies this`commands
      ensures commands == old(commands) + [command]
    {
      commands := commands + [command];
    }

    /**
     * RemoveCommand: a backward walk removing each entry whose target is the
     * command. The command is reachable (its caller holds it), so its weak
     * references all resolve to it.
     */
    method RemoveCommand(command: Command)
      requires Valid()
      modifies this`commands
      ensures Valid()
      ensures commands == Without(old(commands), command)
    {
      ghost var start := commands;
      WithoutMembers(start, command);
      WithoutDistinct(start, command);
      var i := |commands|;
      while i > 0
        invariant 0 <= i <= |start|
        invariant commands == start[..i] + Without(start[i..], command)
      {
        WithoutUnfold(start, i - 1, command);
        assert commands[i - 1] == start[i - 1];
        if commands[i - 1] == command {
          commands := commands[..i - 1] + commands[i..];
        }
        i := i - 1;
      }
      assert start[0..] == start && start[..0] == [];
      assert commands == Without(start, command);
      WithoutMembers(start, command);
    }

    /** CreateCommand: prepares a command and registers it. */
    method CreateCommand(sql: string, engine: Engine) returns (r: Result<Command>)
      requires Valid()
      modifies this`commands, counter
      ensures Valid()
      ensures var reply := engine.prepareResult(connection.handle, sql);
        && (r.Ok? <==> IsSuccess(reply.rc))
        && (r.Err? ==> r.error == SQLiteException.CheckCode(reply.rc, engine.errstr).error
                       && commands == old(commands) && counter.count == old(counter.count))
        && (r.Ok? ==> fresh(r.value) && r.value.context == this && r.value.Spec() == reply.first
                      && commands == old(commands) + [r.value]
                      && counter.count == WrapInt32(old(counter.count) + 1))
      ensures r.Ok? && r.value.stmt != null ==>
        fresh(r.value.stmt) && r.value.stmt.bound == map[] && r.value.stmt.cursor == 0
        && r.value.stmt.current == None && !r.value.stmt.finalized
    {
      r := NewCommand(this, sql, engine);
      if r.Ok? {
        assert r.value !in commands;
        ghost var before := commands;
        AddCommand(r.value);
        assert Distinct(commands) by {
          forall a, b | 0 <= a < b < |commands|
            ensures commands[a] != commands[b]
          {
            assert commands[a] == before[a];
            if b < |before| {
              assert commands[b] == before[b];
            }
          }
        }
        assert forall c :: c in commands ==> c in before || c == r.value;
      }
    }

    /**
     * ClearCommandsCollection: a backward walk over the registry; a dead
     * entry is dropped, a live command is disposed, which removes its own
     * entry. The first failing Dispose ends the walk.
     */
    method ClearCommandsCollection(alive: set<Command>, engine: Engine) returns (r: Result<()>)
      requires Valid()
      modifies this`commands, counter, set c | c in commands :: c.stmt
      ensures Valid()
      ensures r.Ok? ==> commands == []
      ensures r.Ok? ==> forall c :: c in old(commands) && c in alive && c.stmt != null ==> c.stmt.finalized
      ensures r.Err? ==> commands <= old(commands)
    {
      ghost var start := commands;
      ghost var statements := set c | c in commands :: c.stmt;
      var j := |commands|;
      while j > 0
        invariant 0 <= j <= |start|
        invariant Valid()
        invariant commands == start[..j]
        invariant forall k :: j <= k < |start| && start[k] in alive && start[k].stmt != null ==> start[k].stmt.finalized
      {
        var command := commands[j - 1];
        assert command == start[j - 1] && command.context == this;
        if command in alive {
          assert command.stmt in statements;
          var disposed := command.Dispose(engine);
          if disposed.Err? {
            return Err(disposed.error);
          }
          WithoutAt(start[..j], j - 1);
          assert start[..j][..j - 1] == start[..j - 1];
        } else {
          assert Distinct(start[..j - 1]);
          commands := commands[..j - 1];
        }
        j := j - 1;
      }
      r := Ok(());
    }

    /** Dispose: clears the registry. */
    method Dispose(alive: set<Command>, engine: Engine) returns (r: Result<()>)
      requires Valid()
      modifies this`commands, counter, set c | c in commands :: c.stmt
      ensures Valid()
      ensures r.Ok? ==> commands == []
      ensures r.Err? ==> commands <= old(commands)
    {
      r := ClearCommandsCollection(alive, engine);
    }

    /** BeginTransaction, Commit and Rollback are the connection's. */
    method BeginTransaction(engine: Engine) returns (r: Result<()>)
      requires connection.Valid()
      modifies connection`inTransaction, engine`execLog
      ensures connection.Valid()
      ensures Connection.AfterBegin(old(connection.inTransaction)).Err? ==>
        r == Err(Connection.AfterBegin(old(connection.inTransaction)).error)
        && connection.inTransaction == old(connection.inTransaction)
      ensures Connection.AfterBegin(old(connection.inTransaction)).Ok? ==>
        connection.inTransaction == Connection.AfterBegin(old(connection.inTransaction)).value
        && r == Connection.Void(Execution.ExecOutcome(engine.execResult(connection.handle, Connection.BeginSql)))
    {
      r := connection.BeginTransaction(engine);
    }

    method Commit(engine: Engine) returns (r: Result<()>)
      requires connection.Valid()
      modifies connection`inTransaction, engine`execLog
      ensures connection.Valid()
      ensures Connection.AfterEnd(old(connection.inTransaction), true).Err? ==>
        r == Err(Connection.AfterEnd(old(connection.inTransaction), true).error)
        && connection.inTransaction == old(connection.inTransaction)
      ensures Connection.AfterEnd(old(connection.inTransaction), true).Ok? ==>
        r == Connection.Void(Execution.ExecOutcome(engine.execResult(connection.handle, Connection.CommitSql)))
        && connection.inTransaction ==
           (if r.Ok? then Connection.AfterEnd(old(connection.inTransaction), true).value else old(connection.inTransaction))
    {
      r := connection.Commit(engine);
    }

    method Rollback(engine: Engine) returns (r: Result<()>)
      requires connection.Valid()
      modifies connection`inTransaction, engine`execLog
      ensures connection.Valid()
      ensures Connection.AfterEnd(old(connection.inTransaction), true).Err? ==>
        r == Err(Connection.AfterEnd(old(connection.inTransaction), true).error)
        && connection.inTransaction == old(connection.inTransaction)
      ensures Connection.AfterEnd(old(connection.inTransaction), true).Ok? ==>
        r == Connection.Void(Execution.ExecOutcome(engine.execResult(connection.handle, Connection.RollbackSql)))
        && connection.inTransaction ==
           (if r.Ok? then Connection.AfterEnd(old(connection.inTransaction), true).value else old(connection.inTransaction))
    {
      r := connection.Rollback(engine);
    }

    /** Execute(text): straight through sqlite3_exec. */
    method ExecuteText(sql: string, engine: Engine) returns (r: Result<int>)
      modifies engine`execLog
      ensures r == Execution.ExecOutcome(engine.execResult(connection.handle, sql))
      ensures engine.execLog == old(engine.execLog) + [(connection.handle, sql)]
    {
      r := Execution.ExecuteInternal(engine, connection.handle, sql);
    }

    /** The parameter loop shared by Execute, ExecuteScalar and ExecuteReader. */
    method BindParameters(cmd: Command, params: seq<Value>) returns (r: Result<()>)
      requires AllWellFormed(params) && cmd.context == this
      modifies cmd.stmt
      ensures r == Walk(cmd.Spec(), params, 0, "", conv)
      ensures r.Ok? ==> NamesAreStrings(params)
      ensures r.Ok? && cmd.stmt != null ==>
        cmd.stmt.bound == BindAll(old(cmd.stmt.bound), Bindings(params), cmd.stmt.spec, old(Bindable(cmd.stmt)), conv, cmd.Times())
      ensures cmd.stmt != null ==>
        cmd.stmt.cursor == old(cmd.stmt.cursor) && cmd.stmt.current == old(cmd.stmt.current)
        && cmd.stmt.finalized == old(cmd.stmt.finalized)
    {
      ghost var first := cmd.Spec();
      ghost var open := cmd.stmt != null && Bindable(cmd.stmt);
      ghost var bound0 := if cmd.stmt != null then cmd.stmt.bound else map[];
      var i := 0;
      var pName := "";
      while i < |params|
        invariant 0 <= i <= |params|
        invariant Walk(first, params, 0, "", conv) == Walk(first, params, i, pName, conv)
        invariant NamesUpTo(params, i)
        invariant i % 2 == 1 ==> params[i - 1] == StringValue(pName)
        invariant cmd.stmt != null ==>
          cmd.stmt.cursor == old(cmd.stmt.cursor) && cmd.stmt.current == old(cmd.stmt.current)
          && cmd.stmt.finalized == old(cmd.stmt.finalized)
        invariant cmd.stmt != null ==>
          cmd.stmt.bound == BoundAfter(bound0, params, i, cmd.stmt.spec, open, conv, cmd.Times())
      {
        var step := BindParameter(cmd, params, i, pName, bound0, open);
        if step.Err? {
          return Err(step.error);
        }
        pName := step.value;
        i := i + 1;
      }
      if cmd.stmt != null {
        BoundAfterIsBindAll(bound0, params, i, cmd.stmt.spec, open, conv, cmd.Times());
      }
      assert params[..i] == params;
      r := Ok(());
    }

    /**
     * One element of Execute's parameter list: at an even position the name
     * the next value is bound under (a null or a non-string is refused), at
     * an odd position that value, bound by name.
     */
    method BindParameter(cmd: Command, params: seq<Value>, i: nat, pName: string,
                         ghost bound0: map<int, BoundValue>, ghost open: bool) returns (r: Result<string>)
      requires AllWellFormed(params) && cmd.context == this && i < |params|
      requires i % 2 == 1 ==> params[i - 1] == StringValue(pName)
      requires open == (cmd.stmt != null && Bindable(cmd.stmt))
      requires cmd.stmt != null ==> cmd.stmt.bound == BoundAfter(bound0, params, i, cmd.stmt.spec, open, conv, cmd.Times())
      modifies cmd.stmt
      ensures r.Err? ==> Walk(cmd.Spec(), params, i, pName, conv) == Err(r.error)
      ensures r.Ok? ==> Walk(cmd.Spec(), params, i, pName, conv) == Walk(cmd.Spec(), params, i + 1, r.value, conv)
      ensures r.Ok? ==> if i % 2 == 0 then params[i] == StringValue(r.value) else r.value == pName
      ensures cmd.stmt != null ==>
        cmd.stmt.cursor == old(cmd.stmt.cursor) && cmd.stmt.current == old(cmd.stmt.current)
        && cmd.stmt.finalized == old(cmd.stmt.finalized)
      ensures r.Ok? && cmd.stmt != null ==>
        cmd.stmt.bound == BoundAfter(bound0, params, i + 1, cmd.stmt.spec, open, conv, cmd.Times())
    {
      if i % 2 == 0 {
        match params[i] {
          case NullRef =>
            return Err(ArgumentNull("parameters"));
          case StringValue(n) =>
            r := Ok(n);
          case _ =>
            return Err(InvalidCast(CastText));
        }
        if cmd.stmt != null {
          BoundAfterStep(bound0, params, i, cmd.stmt.spec, open, conv, cmd.Times());
        }
      } else {
        if cmd.stmt != null {
          BoundAfterStep(bound0, params, i, cmd.stmt.spec, open, conv, cmd.Times());
          assert NameText(params[i - 1]) == pName;
        }
        var b := cmd.BindNameObject(pName, params[i]);
        if b.Err? {
          return Err(b.error);
        }
        r := Ok(pName);
      }
    }

    /**
     * Execute(text, params): a command used once — created, its parameters
     * bound in pairs, executed, and disposed, with the registry and the
     * counter back where they were.
     */
    method ExecuteWith(sql: string, params: seq<Value>, engine: Engine) returns (r: Result<int>)
      requires Valid() && AllWellFormed(params)
      modifies this`commands, counter
      ensures Valid()
      ensures commands == old(commands) && counter.count == old(counter.count)
      ensures var reply := engine.prepareResult(connection.handle, sql);
        && (!IsSuccess(reply.rc) ==> r == Err(SQLiteException.CheckCode(reply.rc, engine.errstr).error))
        && (IsSuccess(reply.rc) && Walk(reply.first, params, 0, "", conv).Err? ==>
              r == Err(Walk(reply.first, params, 0, "", conv).error))
        && (IsSuccess(reply.rc) && Walk(reply.first, params, 0, "", conv).Ok? ==>
              r == StepOutcome(SQLiteException.StateOf(engine, connection.handle), FirstStep(reply.first), engine.errstr))
    {
      var created := CreateCommand(sql, engine);
      if created.Err? {
        return Err(created.error);
      }
      var cmd := created.value;
      var bound := BindParameters(cmd, params);
      if bound.Ok? {
        r := cmd.Execute(engine);
      } else {
        r := Err(bound.error);
      }
      var disposed := cmd.Dispose(engine);
      match disposed {
        case Err(e) =>
          r := Err(e);
        case Ok(_) =>
      }
      WithoutAppended(old(commands), cmd);
      AddRemoveCancel(old(counter.count));
    }

    /**
     * ExecuteScalar(text, params): as Execute, reading the first column of
     * the first row; without a row, the default value.
     */
    method ExecuteScalar(sql: string, params: seq<Value>, engine: Engine) returns (r: Result<Value>)
      requires Valid() && AllWellFormed(params)
      modifies this`commands, counter
      ensures Valid()
      ensures commands == old(commands) && counter.count == old(counter.count)
      ensures var reply := engine.prepareResult(connection.handle, sql);
        && (!IsSuccess(reply.rc) ==> r == Err(SQLiteException.CheckCode(reply.rc, engine.errstr).error))
        && (IsSuccess(reply.rc) && Walk(reply.first, params, 0, "", conv).Err? ==>
              r == Err(Walk(reply.first, params, 0, "", conv).error))
        && (IsSuccess(reply.rc) && Walk(reply.first, params, 0, "", conv).Ok? && reply.first.None? ==> r == Ok(NullRef))
        && (IsSuccess(reply.rc) && Walk(reply.first, params, 0, "", conv).Ok? && reply.first.Some?
            && FirstStep(reply.first).code != SQLITE_ROW ==>
              r == NoRowOutcome(FirstStep(reply.first), engine.errstr))
        && (IsSuccess(reply.rc) && Walk(reply.first, params, 0, "", conv).Ok? && reply.first.Some?
            && FirstStep(reply.first).code == SQLITE_ROW ==>
              r == RowOutcome(reply.first.value, FirstStep(reply.first)))
    {
      var created := CreateCommand(sql, engine);
      if created.Err? {
        return Err(created.error);
      }
      var cmd := created.value;
      var bound := BindParameters(cmd, params);
      if bound.Ok? {
        r := cmd.ExecuteScalar(engine);
      } else {
        r := Err(bound.error);
      }
      var disposed := cmd.Dispose(engine);
      match disposed {
        case Err(e) =>
          r := Err(e);
        case Ok(_) =>
      }
      WithoutAppended(old(commands), cmd);
      AddRemoveCancel(old(counter.count));
    }

    /**
     * ExecuteReader(text, params): the command is created and its parameters
     * bound, but it is not disposed: it stays registered, also when binding
     * fails.
     */
    method ExecuteReader(sql: string, params: seq<Value>, engine: Engine) returns (r: Result<Reader.Reader>)
      requires Valid() && AllWellFormed(params)
      modifies this`commands, counter
      ensures Valid()
      ensures var reply := engine.prepareResult(connection.handle, sql);
        && (!IsSuccess(reply.rc) ==>
              r == Err(SQLiteException.CheckCode(reply.rc, engine.errstr).error) && commands == old(commands))
        && (IsSuccess(reply.rc) ==>
              |commands| == |old(commands)| + 1 && commands[..|old(commands)|] == old(commands)
              && fresh(commands[|old(commands)|])
              && (r.Ok? <==> Walk(reply.first, params, 0, "", conv).Ok?)
              && (r.Err? ==> r.error == Walk(reply.first, params, 0, "", conv).error))
      ensures r.Ok? ==> fresh(r.value) && r.value.stmt == commands[|commands| - 1].stmt && r.value.columns == null
    {
      var created := CreateCommand(sql, engine);
      if created.Err? {
        return Err(created.error);
      }
      var cmd := created.value;
      assert commands[..|old(commands)|] == old(commands);
      var bound := BindParameters(cmd, params);
      if bound.Err? {
        return Err(bound.error);
      }
      var reader := cmd.ExecuteReader();
      r := Ok(reader);
    }
  }
}
