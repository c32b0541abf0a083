// An abstract model of the native SQL engine the library drives. Handles are
// opaque ids, a prepared statement is an object holding its parameter map,
// its bound values and a scripted sequence of step results, and everything
// the engine decides (open, close, exec, prepare results, error state and
// error texts) is given by oracle functions fixed when the engine is made.
module Native {
  import opened Clr

  // Result codes.
  const SQLITE_OK: int := 0
  const SQLITE_ERROR: int := 1
  const SQLITE_INTERNAL: int := 2
  const SQLITE_PERM: int := 3
  const SQLITE_ABORT: int := 4
  const SQLITE_BUSY: int := 5
  const SQLITE_LOCKED: int := 6
  const SQLITE_NOMEM: int := 7
  const SQLITE_READONLY: int := 8
  const SQLITE_INTERRUPT: int := 9
  const SQLITE_IOERR: int := 10
  const SQLITE_CORRUPT: int := 11
  const SQLITE_NOTFOUND: int := 12
  const SQLITE_FULL: int := 13
  const SQLITE_CANTOPEN: int := 14
  const SQLITE_PROTOCOL: int := 15
  const SQLITE_EMPTY: int := 16
  const SQLITE_SCHEMA: int := 17
  const SQLITE_TOOBIG: int := 18
  const SQLITE_CONSTRAINT: int := 19
  const SQLITE_MISMATCH: int := 20
  const SQLITE_MISUSE: int := 21
  const SQLITE_NOLFS: int := 22
  const SQLITE_AUTH: int := 23
  const SQLITE_FORMAT: int := 24
  const SQLITE_RANGE: int := 25
  const SQLITE_NOTADB: int := 26
  const SQLITE_NOTICE: int := 27
  const SQLITE_WARNING: int := 28
  const SQLITE_ROW: int := 100
  const SQLITE_DONE: int := 101

  // Flags for sqlite3_open_v2.
  const SQLITE_OPEN_READONLY: bv32 := 0x0000_0001
  const SQLITE_OPEN_READWRITE: bv32 := 0x0000_0002
  const SQLITE_OPEN_CREATE: bv32 := 0x0000_0004
  const SQLITE_OPEN_DELETEONCLOSE: bv32 := 0x0000_0008
  const SQLITE_OPEN_EXCLUSIVE: bv32 := 0x0000_0010
  const SQLITE_OPEN_AUTOPROXY: bv32 := 0x0000_0020
  const SQLITE_OPEN_URI: bv32 := 0x0000_0040
  const SQLITE_OPEN_MEMORY: bv32 := 0x0000_0080
  const SQLITE_OPEN_MAIN_DB: bv32 := 0x0000_0100
  const SQLITE_OPEN_TEMP_DB: bv32 := 0x0000_0200
  const SQLITE_OPEN_TRANSIENT_DB: bv32 := 0x0000_0400
  const SQLITE_OPEN_MAIN_JOURNAL: bv32 := 0x0000_0800
  const SQLITE_OPEN_TEMP_JOURNAL: bv32 := 0x0000_1000
  const SQLITE_OPEN_SUBJOURNAL: bv32 := 0x0000_2000
  const SQLITE_OPEN_MASTER_JOURNAL: bv32 := 0x0000_4000
  const SQLITE_OPEN_NOMUTEX: bv32 := 0x0000_8000
  const SQLITE_OPEN_FULLMUTEX: bv32 := 0x0001_0000
  const SQLITE_OPEN_SHAREDCACHE: bv32 := 0x0002_0000
  const SQLITE_OPEN_PRIVATECACHE: bv32 := 0x0004_0000
  const SQLITE_OPEN_WAL: bv32 := 0x0008_0000

  // Fundamental column types.
  const SQLITE_INTEGER: int := 1
  const SQLITE_FLOAT: int := 2
  const SQLITE_TEXT: int := 3
  const SQLITE_BLOB: int := 4
  const SQLITE_NULL: int := 5

  predicate IsSuccess(rc: int) { rc == SQLITE_OK || rc == SQLITE_ROW || rc == SQLITE_DONE }

  /** A database or blob handle; 0 is the empty handle (IntPtr.Zero). */
  type Handle = nat
  const EmptyHandle: Handle := 0

  /** What a database handle reports through errcode, extended_errcode and errmsg. */
  datatype DbError = DbError(errcode: int, extendedErrcode: int, errmsg: Option<string>)

  /**
   * The result code of sqlite3_exec and the error message it hands back:
   * None for a null pointer, otherwise the message bytes, which the engine
   * follows with a 0 byte.
   */
  datatype ExecReply = ExecReply(rc: int, errmsg: Option<seq<uint8>>)

  /**
   * One column of the current row, as the column accessors report it:
   * its fundamental type and what column_int64, column_double, column_text
   * (the bytes, without terminator) and column_blob (None for a null pointer) return.
   */
  datatype Cell = Cell(columnType: int, int64: int64, double: Float64, text: seq<uint8>, blob: Option<seq<uint8>>)

  const NullCell: Cell := Cell(SQLITE_NULL, 0, Float64(0), [], None)

  /** One scripted call of sqlite3_step: its code, the row it produces and the change count it leaves. */
  datatype StepResult = StepResult(code: int, row: seq<Cell>, changes: int)

  const DoneStep: StepResult := StepResult(SQLITE_DONE, [], 0)

  /**
   * What sqlite3_prepare_v2 produced for the first statement of a text:
   * the parameter map (a name absent from it has index 0), the parameter
   * count, each column's name as the zero-terminated bytes behind the
   * pointer (None for a null pointer), and the scripted step results.
   */
  datatype StatementSpec = StatementSpec(
    parameters: map<string, int>,
    parameterCount: nat,
    columnNames: seq<Option<seq<uint8>>>,
    script: seq<StepResult>)

  /** The reply of sqlite3_prepare_v2: code, the first statement (None when the text holds none) and the unparsed tail. */
  datatype PrepareReply = PrepareReply(rc: int, first: Option<StatementSpec>, tail: string)

  /** A value held by a statement parameter, tagged by the bind call that stored it. */
  datatype BoundValue =
    | BoundNull
    | BoundInt(i: int32)
    | BoundInt64(l: int64)
    | BoundDouble(d: Float64)
    | BoundText(t: string)
    | BoundBlob(b: seq<uint8>)
    | BoundZeroBlob(n: int32)

  /**
   * The code a bind call returns: MISUSE unless the statement is open (not
   * stepped since the last reset, not finalized), RANGE outside 1..count.
   */
  function BindCodeFor(spec: StatementSpec, open: bool, index: int): int {
    if !open then SQLITE_MISUSE
    else if 1 <= index <= spec.parameterCount then SQLITE_OK
    else SQLITE_RANGE
  }

  /** A statement accepts binds while it is not finalized and not stepped since the last reset. */
  predicate Bindable(s: Statement)
    reads s
  {
    !s.finalized && s.cursor == 0
  }

  /** A prepared statement (sqlite3_stmt*). */
  class Statement {
    const spec: StatementSpec
    var bound: map<int, BoundValue>
    /** Number of steps since the statement was prepared or last reset. */
    var cursor: nat
    /** The result of the latest step since the last reset. */
    var current: Option<StepResult>
    var finalized: bool

    constructor (spec: StatementSpec)
      ensures this.spec == spec && bound == map[] && cursor == 0 && current == None && !finalized
    {
      this.spec := spec;
      bound := map[];
      cursor := 0;
      current := None;
      finalized := false;
    }

    /** sqlite3_bind_parameter_index: 0 when the name is not a parameter. */
    function ParameterIndex(name: string): int {
      if name in spec.parameters then spec.parameters[name] else 0
    }

    /** The code a bind call returns in the statement's present state. */
    function BindCode(index: int): int
      reads this
    {
      BindCodeFor(spec, Bindable(this), index)
    }

    /** Any sqlite3_bind_* call. */
    method Bind(index: int, v: BoundValue) returns (rc: int)
      modifies this`bound
      ensures rc == old(BindCode(index))
      ensures bound == if rc == SQLITE_OK then old(bound)[index := v] else old(bound)
    {
      rc := BindCode(index);
      if rc == SQLITE_OK {
        bound := bound[index := v];
      }
    }

    /** The scripted result of the next step; past the end of the script the statement is done. */
    function NextStep(): StepResult
      reads this
    {
      if finalized then StepResult(SQLITE_MISUSE, [], 0)
      else if cursor < |spec.script| then spec.script[cursor]
      else DoneStep
    }

    /** sqlite3_step. */
    method Step() returns (rc: int)
      modifies this`cursor, this`current
      ensures rc == old(NextStep()).code
      ensures cursor == old(cursor) + 1 && current == Some(old(NextStep()))
    {
      var r := NextStep();
      cursor := cursor + 1;
      current := Some(r);
      rc := r.code;
    }

    /** The code of the latest step when it failed, else OK: what reset and finalize report. */
    function LastErrorCode(): int
      reads this
    {
      if current.Some? && !IsSuccess(current.value.code) then current.value.code else SQLITE_OK
    }

    /** sqlite3_reset: rewinds the script, keeps the bindings. */
    method Reset() returns (rc: int)
      modifies this`cursor, this`current
      ensures rc == old(LastErrorCode())
      ensures cursor == 0 && current == None
    {
      rc := LastErrorCode();
      cursor := 0;
      current := None;
    }

    /**
     * sqlite3_finalize. In SQLite a second finalize of the same statement is
     * a use of freed memory with no defined outcome; the model stands in for
     * it with SQLITE_MISUSE, the code SQLite returns when it detects misuse.
     */
    method Finalize() returns (rc: int)
      modifies this`finalized
      ensures rc == if old(finalized) then SQLITE_MISUSE else LastErrorCode()
      ensures finalized
    {
      rc := if finalized then SQLITE_MISUSE else LastErrorCode();
      finalized := true;
    }

    /** sqlite3_column_count. */
    function ColumnCount(): nat {
      |spec.columnNames|
    }

    /** sqlite3_column_name: the bytes behind the pointer, None for a null pointer. */
    function ColumnName(i: int): Option<seq<uint8>> {
      if 0 <= i < |spec.columnNames| then spec.columnNames[i] else None
    }

    predicate HasRow()
      reads this
    {
      current.Some? && current.value.code == SQLITE_ROW
    }

    /** Column i of the current row; a NULL cell when there is no row or no such column. */
    function Column(i: int): Cell
      reads this
    {
      if HasRow() && 0 <= i < |current.value.row| then current.value.row[i] else NullCell
    }

    /** sqlite3_changes after the latest step. */
    function Changes(): int
      reads this
    {
      if current.Some? then current.value.changes else 0
    }
  }

  /** sqlite3_step on a possibly null statement: a null statement is MISUSE. */
  method StepStatement(s: Statement?) returns (rc: int)
    modifies s
    ensures s == null ==> rc == SQLITE_MISUSE
    ensures s != null ==> (rc == old(s.NextStep()).code && s.cursor == old(s.cursor) + 1
      && s.current == Some(old(s.NextStep())) && s.bound == old(s.bound) && s.finalized == old(s.finalized))
  {
    if s == null {
      rc := SQLITE_MISUSE;
    } else {
      rc := s.Step();
    }
  }

  /** sqlite3_reset on a possibly null statement: a null statement is a harmless no-op. */
  method ResetStatement(s: Statement?) returns (rc: int)
    modifies s
    ensures s == null ==> rc == SQLITE_OK
    ensures s != null ==> (rc == old(s.LastErrorCode()) && s.cursor == 0 && s.current == None
      && s.bound == old(s.bound) && s.finalized == old(s.finalized))
  {
    if s == null {
      rc := SQLITE_OK;
    } else {
      rc := s.Reset();
    }
  }

  /** sqlite3_finalize on a possibly null statement: a null statement is a harmless no-op. */
  method FinalizeStatement(s: Statement?) returns (rc: int)
    modifies s
    ensures s == null ==> rc == SQLITE_OK
    ensures s != null ==> (rc == (if old(s.finalized) then SQLITE_MISUSE else old(s.LastErrorCode()))
      && s.finalized && s.bound == old(s.bound) && s.cursor == old(s.cursor) && s.current == old(s.current))
  {
    if s == null {
      rc := SQLITE_OK;
    } else {
      rc := s.Finalize();
    }
  }

  /** Any sqlite3_bind_* on a possibly null statement: a null statement is MISUSE. */
  method BindStatement(s: Statement?, index: int, v: BoundValue) returns (rc: int)
    modifies s
    ensures s == null ==> rc == SQLITE_MISUSE
    ensures s != null ==> (rc == old(s.BindCode(index))
      && s.bound == (if rc == SQLITE_OK then old(s.bound)[index := v] else old(s.bound))
      && s.cursor == old(s.cursor) && s.current == old(s.current) && s.finalized == old(s.finalized))
  {
    if s == null {
      rc := SQLITE_MISUSE;
    } else {
      rc := s.Bind(index, v);
    }
  }

  /** sqlite3_column_count on a possibly null statement: a null statement has no columns. */
  function ColumnCountOf(s: Statement?): nat {
    if s == null then 0 else s.ColumnCount()
  }

  /** sqlite3_column_name on a possibly null statement: a null pointer. */
  function ColumnNameOf(s: Statement?, i: int): Option<seq<uint8>> {
    if s == null then None else s.ColumnName(i)
  }

  /** The column accessors on a possibly null statement: they report a NULL cell. */
  function ColumnOf(s: Statement?, i: int): Cell
    reads s
  {
    if s == null then NullCell else s.Column(i)
  }

  /** sqlite3_column_int: the low 32 bits of the 64-bit value. */
  function ColumnInt(c: Cell): int32 {
    WrapInt32(c.int64)
  }

  /** sqlite3_bind_parameter_index on a possibly null statement. */
  function ParameterIndexOf(s: Statement?, name: string): int {
    if s == null then 0 else s.ParameterIndex(name)
  }

  /**
   * The engine and its environment: the oracles give the result of every
   * native call that the model does not interpret; the variables record the
   * live database handles, the SQL passed to sqlite3_exec, the handles
   * passed to sqlite3_close_v2, and the files that exist.
   */
  class Engine {
    const openResult: (string, bv32, Option<string>) -> int
    const closeResult: Handle -> int
    const execResult: (Handle, string) -> ExecReply
    const prepareResult: (Handle, string) -> PrepareReply
    const errorState: Handle -> DbError
    const errstr: int -> string
    var nextHandle: nat
    var live: set<Handle>
    var execLog: seq<(Handle, string)>
    var closeLog: seq<Handle>
    var files: set<string>

    ghost predicate Valid()
      reads this
    {
      1 <= nextHandle && forall h :: h in live ==> 0 < h < nextHandle
    }

    constructor (openResult: (string, bv32, Option<string>) -> int, closeResult: Handle -> int,
                 execResult: (Handle, string) -> ExecReply, prepareResult: (Handle, string) -> PrepareReply,
                 errorState: Handle -> DbError, errstr: int -> string, files: set<string>)
      ensures Valid()
      ensures this.openResult == openResult && this.closeResult == closeResult && this.execResult == execResult
      ensures this.prepareResult == prepareResult && this.errorState == errorState && this.errstr == errstr
      ensures live == {} && execLog == [] && closeLog == [] && this.files == files
    {
      this.openResult := openResult;
      this.closeResult := closeResult;
      this.execResult := execResult;
      this.prepareResult := prepareResult;
      this.errorState := errorState;
      this.errstr := errstr;
      nextHandle := 1;
      live := {};
      execLog := [];
      closeLog := [];
      this.files := files;
    }

    /** sqlite3_open_v2: a fresh handle is allocated whatever the code, as the engine does. */
    method OpenV2(path: string, flags: bv32, vfs: Option<string>) returns (rc: int, db: Handle)
      requires Valid()
      modifies this`nextHandle, this`live
      ensures Valid()
      ensures rc == openResult(path, flags, vfs)
      ensures db == old(nextHandle) && db != EmptyHandle && db !in old(live)
      ensures live == old(live) + {db} && nextHandle == old(nextHandle) + 1
    {
      rc := openResult(path, flags, vfs);
      db := nextHandle;
      nextHandle := nextHandle + 1;
      live := live + {db};
    }

    /** sqlite3_close_v2: the handle stops being live when the code is OK. */
    method CloseV2(db: Handle) returns (rc: int)
      requires Valid()
      modifies this`live, this`closeLog
      ensures Valid()
      ensures rc == closeResult(db)
      ensures live == if rc == SQLITE_OK then old(live) - {db} else old(live)
      ensures closeLog == old(closeLog) + [db]
    {
      rc := closeResult(db);
      closeLog := closeLog + [db];
      if rc == SQLITE_OK {
        live := live - {db};
      }
    }

    /** sqlite3_exec. */
    method Exec(db: Handle, sql: string) returns (reply: ExecReply)
      modifies this`execLog
      ensures reply == execResult(db, sql)
      ensures execLog == old(execLog) + [(db, sql)]
    {
      reply := execResult(db, sql);
      execLog := execLog + [(db, sql)];
    }

    /** File.Delete. */
    method DeleteFile(path: string)
      modifies this`files
      ensures files == old(files) - {path}
    {
      files := files - {path};
    }

    /** sqlite3_prepare_v2: a fresh statement for the first statement of the text, if it has one. */
    method Prepare(db: Handle, sql: string) returns (rc: int, stmt: Statement?)
      ensures rc == prepareResult(db, sql).rc
      ensures prepareResult(db, sql).first.None? ==> stmt == null
      ensures prepareResult(db, sql).first.Some? ==>
        stmt != null && fresh(stmt) && stmt.spec == prepareResult(db, sql).first.value
        && stmt.bound == map[] && stmt.cursor == 0 && stmt.current == None && !stmt.finalized
    {
      var reply := prepareResult(db, sql);
      rc := reply.rc;
      if reply.first.Some? {
        stmt := new Statement(reply.first.value);
      } else {
        stmt := null;
      }
    }
  }
}
