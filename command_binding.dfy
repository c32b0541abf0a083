// The binding half of SQLiteCommand written over a list of prepared
// statements: each Bind applies one value to every statement of the list.
// By index, every statement is bound and the first refusal throws; by name,
// only the statements that have the parameter are bound, and only the object
// overload checks the native code.
module CommandBinding {
  import opened Clr
  import opened Native
  import SQLiteException
  import Marshal

  /** The position of the first statement that refuses a bind at `index`, or the count when none does. */
  function FirstRefusal(stmts: seq<Statement>, index: int): (k: nat)
    reads stmts
    ensures k <= |stmts|
    ensures forall j :: 0 <= j < k ==> stmts[j].BindCode(index) == SQLITE_OK
    ensures k < |stmts| ==> stmts[k].BindCode(index) != SQLITE_OK
    decreases |stmts|
  {
    if |stmts| == 0 then 0
    else if stmts[0].BindCode(index) != SQLITE_OK then 0
    else 1 + FirstRefusal(stmts[1..], index)
  }

  /** Statement s has a parameter called `name`. */
  predicate Named(s: Statement, name: string) {
    s.ParameterIndex(name) > 0
  }

  /** The position of the first statement that has the parameter but refuses the bind, or the count. */
  function FirstNamedRefusal(stmts: seq<Statement>, name: string): (k: nat)
    reads stmts
    ensures k <= |stmts|
    ensures forall j :: 0 <= j < k && Named(stmts[j], name) ==>
      stmts[j].BindCode(stmts[j].ParameterIndex(name)) == SQLITE_OK
    ensures k < |stmts| ==>
      Named(stmts[k], name) && stmts[k].BindCode(stmts[k].ParameterIndex(name)) != SQLITE_OK
    decreases |stmts|
  {
    if |stmts| == 0 then 0
    else if Named(stmts[0], name) && stmts[0].BindCode(stmts[0].ParameterIndex(name)) != SQLITE_OK then 0
    else 1 + FirstNamedRefusal(stmts[1..], name)
  }

  /** A statement stepped and not reset refuses every bind, so a by-index bind stops at it at the latest. */
  lemma SteppedStatementStops(stmts: seq<Statement>, index: int, k: nat)
    requires k < |stmts| && stmts[k].cursor > 0
    ensures FirstRefusal(stmts, index) <= k
  {
  }

  /** When every statement is open, unstepped and has the parameter position, a by-index bind goes through all of them. */
  lemma ReadyStatementsAccept(stmts: seq<Statement>, index: int)
    requires forall k :: 0 <= k < |stmts| ==>
      !stmts[k].finalized && stmts[k].cursor == 0 && 1 <= index <= stmts[k].spec.parameterCount
    ensures FirstRefusal(stmts, index) == |stmts|
  {
  }

  /** A by-name bind is refused only by a statement that has the parameter: the list without such statements is never refused. */
  lemma UnnamedNeverRefuse(stmts: seq<Statement>, name: string)
    requires forall k :: 0 <= k < |stmts| ==> !Named(stmts[k], name)
    ensures FirstNamedRefusal(stmts, name) == |stmts|
  {
  }

  /** The statements of a list are distinct objects. */
  ghost predicate Distinct(stmts: seq<Statement>) {
    forall i, j :: 0 <= i < j < |stmts| ==> stmts[i] != stmts[j]
  }

  class Command {
    /** The statements the command text was prepared into, in order. */
    const statements: seq<Statement>
    const conv: Conversions
    /** The connection's StoreDateTimeAsTicks and date format. */
    const times: Marshal.TimeSettings
    /** sqlite3_errstr, used in the messages of the exceptions the binds throw. */
    const errstr: int -> string

    ghost predicate Valid() {
      Distinct(statements)
    }

    constructor (statements: seq<Statement>, conv: Conversions, times: Marshal.TimeSettings, errstr: int -> string)
      requires Distinct(statements)
      ensures this.statements == statements && this.conv == conv && this.times == times && this.errstr == errstr
      ensures Valid()
    {
      this.errstr := errstr;
      this.statements := statements;
      this.conv := conv;
      this.times := times;
    }

    /**
     * The by-index loop: the value is bound in every statement in list
     * order, and the first non-success code throws, leaving the statements
     * after it untouched.
     */
    method BindEach(index: int, v: BoundValue) returns (r: Result<Command>)
      requires Valid()
      modifies statements
      ensures r.Ok? <==> old(FirstRefusal(statements, index)) == |statements|
      ensures r.Ok? ==> r.value == this
      ensures r.Err? ==>
        (r.error == SQLiteException.CheckCode(old(statements[FirstRefusal(statements, index)].BindCode(index)), errstr).error)
      ensures forall k :: 0 <= k < |statements| ==>
        statements[k].bound ==
          (if k < old(FirstRefusal(statements, index)) then old(statements[k].bound)[index := v] else old(statements[k].bound))
      ensures forall k :: 0 <= k < |statements| ==>
        statements[k].cursor == old(statements[k].cursor) && statements[k].current == old(statements[k].current)
        && statements[k].finalized == old(statements[k].finalized)
    {
      ghost var stop := FirstRefusal(statements, index);
      var i := 0;
      while i < |statements|
        invariant 0 <= i <= |statements| && i <= stop
        invariant forall k :: 0 <= k < |statements| ==> statements[k].cursor == old(statements[k].cursor)
        invariant forall k :: 0 <= k < |statements| ==> statements[k].current == old(statements[k].current)
        invariant forall k :: 0 <= k < |statements| ==> statements[k].finalized == old(statements[k].finalized)
        invariant forall k :: 0 <= k < i ==> statements[k].bound == old(statements[k].bound)[index := v]
        invariant forall k :: i <= k < |statements| ==> statements[k].bound == old(statements[k].bound)
      {
        var s := statements[i];
        assert forall k :: 0 <= k < |statements| && k != i ==> statements[k] != s;
        var rc := s.Bind(index, v);
        var checked := SQLiteException.CheckCode(rc, errstr);
        if checked.Err? {
          return Err(checked.error);
        }
        i := i + 1;
      }
      r := Ok(this);
    }

    /** The typed Bind(int, T) overloads. */
    method BindIndex(index: int, p: Marshal.Param) returns (r: Result<Command>)
      requires Valid()
      modifies statements
      ensures r.Ok? <==> old(FirstRefusal(statements, index)) == |statements|
      ensures r.Ok? ==> r.value == this
      ensures forall k :: 0 <= k < |statements| ==>
        statements[k].bound ==
          (if k < old(FirstRefusal(statements, index))
           then old(statements[k].bound)[index := Marshal.ToBound(p, conv, times)]
           else old(statements[k].bound))
    {
      r := BindEach(index, Marshal.ToBound(p, conv, times));
    }

    /** BindZeroBlob(int, size): a zero-filled blob of the given size in every statement. */
    method BindZeroBlob(index: int, size: int32) returns (r: Result<Command>)
      requires Valid()
      modifies statements
      ensures r.Ok? <==> old(FirstRefusal(statements, index)) == |statements|
      ensures r.Ok? ==> r.value == this
      ensures forall k :: 0 <= k < |statements| ==>
        statements[k].bound ==
          (if k < old(FirstRefusal(statements, index)) then old(statements[k].bound)[index := BoundZeroBlob(size)]
           else old(statements[k].bound))
    {
      r := BindEach(index, BoundZeroBlob(size));
    }

    /**
     * Bind(int, object?): the type dispatch happens inside the loop, so an
     * unsupported value is refused at the first statement, and not at all
     * when the list is empty.
     */
    method BindObject(index: int, v: Value) returns (r: Result<Command>)
      requires Valid() && WellFormed(v)
      modifies statements
      ensures |statements| == 0 ==> r == Ok(this)
      ensures |statements| > 0 && Marshal.Dispatch(v, conv).Err? ==>
        r == Err(Marshal.Dispatch(v, conv).error)
        && forall k :: 0 <= k < |statements| ==> statements[k].bound == old(statements[k].bound)
      ensures Marshal.Dispatch(v, conv).Ok? ==>
        (r.Ok? <==> old(FirstRefusal(statements, index)) == |statements|)
        && forall k :: 0 <= k < |statements| ==>
          statements[k].bound ==
            (if k < old(FirstRefusal(statements, index))
             then old(statements[k].bound)[index := Marshal.ToBound(Marshal.Dispatch(v, conv).value, conv, times)]
             else old(statements[k].bound))
    {
      if |statements| == 0 {
        return Ok(this);
      }
      match Marshal.Dispatch(v, conv) {
        case Err(e) =>
          r := Err(e);
        case Ok(p) =>
          r := BindEach(index, Marshal.ToBound(p, conv, times));
      }
    }

    /**
     * The by-name loop of the typed overloads: each statement that has the
     * parameter is bound at its own index and the native code is ignored;
     * statements without it are skipped.
     */
    method BindEachNamed(name: string, v: BoundValue) returns (self: Command)
      requires Valid()
      modifies statements
      ensures self == this
      ensures forall k :: 0 <= k < |statements| ==>
        statements[k].bound ==
          (if Named(statements[k], name) && old(statements[k].BindCode(statements[k].ParameterIndex(name))) == SQLITE_OK
           then old(statements[k].bound)[statements[k].ParameterIndex(name) := v]
           else old(statements[k].bound))
      ensures forall k :: 0 <= k < |statements| ==>
        statements[k].cursor == old(statements[k].cursor) && statements[k].current == old(statements[k].current)
        && statements[k].finalized == old(statements[k].finalized)
    {
      var i := 0;
      while i < |statements|
        invariant 0 <= i <= |statements|
        invariant forall k :: 0 <= k < |statements| ==> statements[k].cursor == old(statements[k].cursor)
        invariant forall k :: 0 <= k < |statements| ==> statements[k].current == old(statements[k].current)
        invariant forall k :: 0 <= k < |statements| ==> statements[k].finalized == old(statements[k].finalized)
        invariant forall k :: i <= k < |statements| ==> statements[k].bound == old(statements[k].bound)
        invariant forall k :: 0 <= k < i ==>
          statements[k].bound ==
            (if Named(statements[k], name) && old(statements[k].BindCode(statements[k].ParameterIndex(name))) == SQLITE_OK
             then old(statements[k].bound)[statements[k].ParameterIndex(name) := v]
             else old(statements[k].bound))
      {
        var s := statements[i];
        assert forall k :: 0 <= k < |statements| && k != i ==> statements[k] != s;
        var index := ParameterIndexOf(s, name);
        if index > 0 {
          var _ := s.Bind(index, v);
        }
        i := i + 1;
      }
      self := this;
    }

    /** The typed Bind(string, T) overloads. */
    method BindName(name: string, p: Marshal.Param) returns (self: Command)
      requires Valid()
      modifies statements
      ensures self == this
      ensures forall k :: 0 <= k < |statements| && !Named(statements[k], name) ==>
        statements[k].bound == old(statements[k].bound)
      ensures forall k :: 0 <= k < |statements| && Named(statements[k], name)
                          && old(statements[k].BindCode(statements[k].ParameterIndex(name))) == SQLITE_OK ==>
        statements[k].bound == old(statements[k].bound)[statements[k].ParameterIndex(name) := Marshal.ToBound(p, conv, times)]
    {
      self := BindEachNamed(name, Marshal.ToBound(p, conv, times));
    }

    /** BindZeroBlob(string, size). */
    method BindZeroBlobNamed(name: string, size: int32) returns (self: Command)
      requires Valid()
      modifies statements
      ensures self == this
      ensures forall k :: 0 <= k < |statements| && !Named(statements[k], name) ==>
        statements[k].bound == old(statements[k].bound)
      ensures forall k :: 0 <= k < |statements| && Named(statements[k], name)
                          && old(statements[k].BindCode(statements[k].ParameterIndex(name))) == SQLITE_OK ==>
        statements[k].bound == old(statements[k].bound)[statements[k].ParameterIndex(name) := BoundZeroBlob(size)]
    {
      self := BindEachNamed(name, BoundZeroBlob(size));
    }

    /**
     * The by-name loop of the object overload: as BindEachNamed, but the
     * native code of each bind is checked and the first refusal throws.
     */
    method BindEachNamedChecked(name: string, v: BoundValue) returns (r: Result<Command>)
      requires Valid()
      modifies statements
      ensures r.Ok? <==> old(FirstNamedRefusal(statements, name)) == |statements|
      ensures r.Ok? ==> r.value == this
      ensures forall k :: 0 <= k < |statements| ==>
        statements[k].bound ==
          (if k < old(FirstNamedRefusal(statements, name)) && Named(statements[k], name)
           then old(statements[k].bound)[statements[k].ParameterIndex(name) := v]
           else old(statements[k].bound))
    {
      ghost var stop := FirstNamedRefusal(statements, name);
      var i := 0;
      while i < |statements|
        invariant 0 <= i <= |statements| && i <= stop
        invariant forall k :: 0 <= k < |statements| ==> statements[k].cursor == old(statements[k].cursor)
        invariant forall k :: 0 <= k < |statements| ==> statements[k].finalized == old(statements[k].finalized)
        invariant forall k :: i <= k < |statements| ==> statements[k].bound == old(statements[k].bound)
        invariant forall k :: 0 <= k < i && !Named(statements[k], name) ==> statements[k].bound == old(statements[k].bound)
        invariant forall k :: 0 <= k < i && Named(statements[k], name) ==>
          statements[k].bound == old(statements[k].bound)[statements[k].ParameterIndex(name) := v]
      {
        var s := statements[i];
        assert forall k :: 0 <= k < |statements| && k != i ==> statements[k] != s;
        var index := ParameterIndexOf(s, name);
        if index > 0 {
          var rc := s.Bind(index, v);
          var checked := SQLiteException.CheckCode(rc, errstr);
          if checked.Err? {
            return Err(checked.error);
          }
        }
        i := i + 1;
      }
      r := Ok(this);
    }

    /** Some statement of the list has a parameter called `name`. */
    method AnyNamed(name: string) returns (b: bool)
      ensures b <==> exists k :: 0 <= k < |statements| && Named(statements[k], name)
    {
      var i := 0;
      while i < |statements|
        invariant 0 <= i <= |statements|
        invariant forall k :: 0 <= k < i ==> !Named(statements[k], name)
      {
        if ParameterIndexOf(statements[i], name) > 0 {
          return true;
        }
        i := i + 1;
      }
      b := false;
    }

    /**
     * Bind(string, object?): the type dispatch happens at each statement that
     * has the parameter, so an unsupported value is refused at the first such
     * statement, and not at all when none has it.
     */
    method BindNameObject(name: string, v: Value) returns (r: Result<Command>)
      requires Valid() && WellFormed(v)
      modifies statements
      ensures r.Ok? ==> r.value == this
      ensures Marshal.Dispatch(v, conv).Err? ==>
        (r.Err? <==> exists k :: 0 <= k < |statements| && Named(statements[k], name))
        && (r.Err? ==> r.error == Marshal.Dispatch(v, conv).error)
        && forall k :: 0 <= k < |statements| ==> statements[k].bound == old(statements[k].bound)
      ensures Marshal.Dispatch(v, conv).Ok? ==>
        (r.Ok? <==> old(FirstNamedRefusal(statements, name)) == |statements|)
        && forall k :: 0 <= k < |statements| ==>
          statements[k].bound ==
            (if k < old(FirstNamedRefusal(statements, name)) && Named(statements[k], name)
             then old(statements[k].bound)[statements[k].ParameterIndex(name) :=
                    Marshal.ToBound(Marshal.Dispatch(v, conv).value, conv, times)]
             else old(statements[k].bound))
    {
      match Marshal.Dispatch(v, conv) {
        case Err(e) =>
          var named := AnyNamed(name);
          r := if named then Err(e) else Ok(this);
        case Ok(p) =>
          r := BindEachNamedChecked(name, Marshal.ToBound(p, conv, times));
      }
    }
  }
}
