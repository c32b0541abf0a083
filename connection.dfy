// SQLiteConnection: a database handle taken from the pool, a counter of the
// transaction begun on it, and the static helpers that create and drop a
// database file.
module Connection {
  import opened Clr
  import opened Native
  import SQLiteException
  import Execution
  import DbOpenOptions
  import ConnectionPool
  import ConnectionOptions

  /** ConnectionState: Closed = 0, then each state one bit above the previous. */
  datatype ConnectionState = Closed | Open | Connecting | Executing | Fetching | Broken

  function StateValue(s: ConnectionState): int {
    match s
    case Closed => 0
    case Open => 1
    case Connecting => 2
    case Executing => 4
    case Fetching => 8
    case Broken => 16
  }

  /** SQLiteJournalMode, whose names are the values of PRAGMA journal_mode. */
  datatype JournalMode = DELETE | TRUNCATE | PERSIST | MEMORY | WAL | OFF

  function JournalModeName(m: JournalMode): string {
    match m
    case DELETE => "DELETE"
    case TRUNCATE => "TRUNCATE"
    case PERSIST => "PERSIST"
    case MEMORY => "MEMORY"
    case WAL => "WAL"
    case OFF => "OFF"
  }

  /** SQLiteEncoding; its member names are what CreateDb writes into PRAGMA encoding. */
  datatype Encoding = Utf8 | Utf16le | Utf16be | Utf16 | Any | Utf16Aligned

  function EncodingName(e: Encoding): string {
    match e
    case Utf8 => "Utf8"
    case Utf16le => "Utf16le"
    case Utf16be => "Utf16be"
    case Utf16 => "Utf16"
    case Any => "SQLITE_ANY"
    case Utf16Aligned => "SQLITE_UTF16_ALIGNED"
  }

  /**
   * The statement the pool runs on a handle it opens for a connection. The
   * options carry no journal mode, so the enumeration's default, DELETE, is used.
   */
  function OpenPragma(): string {
    "PRAGMA journal_mode=" + JournalModeName(DELETE)
  }

  function JournalPragma(m: JournalMode): string {
    "PRAGMA journal_mode=" + JournalModeName(m) + ";"
  }

  function EncodingPragma(e: Encoding): string {
    "PRAGMA encoding=" + EncodingName(e) + ";"
  }

  const ActiveMessage: string := "transaction already active"
  const NoTransactionMessage: string := "transaction does not exist"
  const BeginSql: string := "begin transaction;"
  const CommitSql: string := "commit transaction;"
  const RollbackSql: string := "rollback transaction;"

  /** A call that returns nothing: the code an Execute returned is dropped, its exception kept. */
  function Void(r: Result<int>): (v: Result<()>)
    ensures v.Ok? <==> r.Ok?
    ensures v.Err? ==> v.error == r.error
  {
    if r.Ok? then Ok(()) else Err(r.error)
  }

  // ----- The transaction counter -----

  /** What BeginTransaction does to the counter: it throws at 1 and adds one otherwise. */
  function AfterBegin(n: int): Result<int> {
    if n == 1 then Err(InvalidOperation(ActiveMessage)) else Ok(n + 1)
  }

  /**
   * What Commit and Rollback do to the counter: they throw at 0; Commit
   * takes one off, and so does Rollback when `decrement` is set. As written
   * Rollback leaves the counter alone.
   */
  function AfterEnd(n: int, decrement: bool): Result<int> {
    if n == 0 then Err(InvalidOperation(NoTransactionMessage)) else Ok(if decrement then n - 1 else n)
  }

  /**
   * The outcome of Using's unit of work on a handle whose counter starts at
   * n, with `replies` giving the engine's reply to each statement: the
   * exception of the first of BeginTransaction, the delegate's statement and
   * Commit that throws, else the delegate's code.
   */
  function UnitOfWork(n: int, handle: Handle, sql: string, replies: (Handle, string) -> ExecReply): (r: Result<int>)
    ensures r.Ok? <==>
      n != 1 && Execution.ExecOutcome(replies(handle, BeginSql)).Ok?
      && Execution.ExecOutcome(replies(handle, sql)).Ok? && Execution.ExecOutcome(replies(handle, CommitSql)).Ok?
    ensures r.Ok? ==> r == Execution.ExecOutcome(replies(handle, sql))
    ensures n == 1 ==> r == Err(InvalidOperation(ActiveMessage))
  {
    var begin := Execution.ExecOutcome(replies(handle, BeginSql));
    var work := Execution.ExecOutcome(replies(handle, sql));
    var commit := Execution.ExecOutcome(replies(handle, CommitSql));
    if AfterBegin(n).Err? then Err(AfterBegin(n).error)
    else if begin.Err? then Err(begin.error)
    else if work.Err? then work
    else if commit.Err? then Err(commit.error)
    else work
  }

  /** The statements the unit of work sends, up to and including the first that fails. */
  function UnitOfWorkLog(n: int, handle: Handle, sql: string, replies: (Handle, string) -> ExecReply): (log: seq<(Handle, string)>)
    ensures |log| <= 3
    ensures log == [] <==> n == 1
  {
    var begin := Execution.ExecOutcome(replies(handle, BeginSql));
    var work := Execution.ExecOutcome(replies(handle, sql));
    if n == 1 then []
    else if begin.Err? then [(handle, BeginSql)]
    else if work.Err? then [(handle, BeginSql), (handle, sql)]
    else [(handle, BeginSql), (handle, sql), (handle, CommitSql)]
  }

  datatype Call = BeginCall | CommitCall | RollbackCall

  /**
   * The counter after a sequence of calls, each of whose statements the
   * engine accepts; the first exception ends the sequence.
   */
  function Run(n: int, calls: seq<Call>, rollbackDecrements: bool): Result<int>
    decreases |calls|
  {
    if |calls| == 0 then Ok(n)
    else
      var next := match calls[0]
        case BeginCall => AfterBegin(n)
        case CommitCall => AfterEnd(n, true)
        case RollbackCall => AfterEnd(n, rollbackDecrements);
      if next.Err? then next else Run(next.value, calls[1..], rollbackDecrements)
  }

  function Occurrences(calls: seq<Call>, c: Call): nat
    decreases |calls|
  {
    if |calls| == 0 then 0 else (if calls[0] == c then 1 else 0) + Occurrences(calls[1..], c)
  }

  /**
   * A sequence that gets through leaves the counter at its start plus the
   * begins, less the commits, less the rollbacks when Rollback decrements.
   */
  lemma {:induction false} RunCounts(n: int, calls: seq<Call>, rollbackDecrements: bool)
    requires Run(n, calls, rollbackDecrements).Ok?
    ensures Run(n, calls, rollbackDecrements).value
      == n + Occurrences(calls, BeginCall) - Occurrences(calls, CommitCall)
         - (if rollbackDecrements then Occurrences(calls, RollbackCall) else 0)
    decreases |calls|
  {
    if |calls| > 0 {
      var next := match calls[0]
        case BeginCall => AfterBegin(n)
        case CommitCall => AfterEnd(n, true)
        case RollbackCall => AfterEnd(n, rollbackDecrements);
      RunCounts(next.value, calls[1..], rollbackDecrements);
    }
  }

  /** Starting from no transaction, the counter never leaves 0 and 1. */
  lemma {:induction false} RunKeepsFlag(n: int, calls: seq<Call>, rollbackDecrements: bool)
    requires n == 0 || n == 1
    requires Run(n, calls, rollbackDecrements).Ok?
    ensures var m := Run(n, calls, rollbackDecrements).value; m == 0 || m == 1
    decreases |calls|
  {
    if |calls| > 0 {
      var next := match calls[0]
        case BeginCall => AfterBegin(n)
        case CommitCall => AfterEnd(n, true)
        case RollbackCall => AfterEnd(n, rollbackDecrements);
      RunKeepsFlag(next.value, calls[1..], rollbackDecrements);
    }
  }

  /**
   * As written, a transaction that is rolled back still counts as active,
   * so the next BeginTransaction throws.
   */
  lemma RollbackAsWrittenBlocksBegin()
    ensures Run(0, [BeginCall, RollbackCall], false) == Ok(1)
    ensures Run(0, [BeginCall, RollbackCall, BeginCall], false) == Err(InvalidOperation(ActiveMessage))
  {
  }

  /** With the decrement, a transaction can be begun again after a rollback. */
  lemma RollbackAllowsBegin()
    ensures Run(0, [BeginCall, RollbackCall], true) == Ok(0)
    ensures Run(0, [BeginCall, RollbackCall, BeginCall], true) == Ok(1)
  {
  }

  // ----- The connection -----

  class Connection {
    const options: ConnectionOptions.Options
    const handle: Handle
    var inTransaction: int
    var state: ConnectionState
    /** The Transaction property that SQLiteTransaction clears when it completes. */
    var transaction: object?

    /** The counter is 0 or 1. */
    ghost predicate Valid()
      reads this
    {
      0 <= inTransaction <= 1
    }

    /** The part of the constructor after the pool has handed over the handle. */
    constructor (options: ConnectionOptions.Options, handle: Handle)
      ensures Valid()
      ensures this.options == options && this.handle == handle
      ensures inTransaction == 0 && state == Open && transaction == null
    {
      this.options := options;
      this.handle := handle;
      inTransaction := 0;
      state := Open;
      transaction := null;
    }

    /** The DatabasePath property. */
    function DatabasePath(): string {
      options.DatabasePath()
    }

    /** The HashCode property. */
    function HashCode(): bv32 {
      options.GetHashCode()
    }

    /** Execute(commandText): ExecuteInternal on this connection's handle. */
    method Execute(sql: string, engine: Engine) returns (r: Result<int>)
      modifies engine`execLog
      ensures engine.execLog == old(engine.execLog) + [(handle, sql)]
      ensures r == Execution.ExecOutcome(engine.execResult(handle, sql))
    {
      r := Execution.ExecuteInternal(engine, handle, sql);
    }

    /**
     * BeginTransaction: throws when a transaction is counted; otherwise the
     * counter goes up before "begin transaction;" runs, so it stays up even
     * when the statement fails.
     */
    method BeginTransaction(engine: Engine) returns (r: Result<()>)
      requires Valid()
      modifies this`inTransaction, engine`execLog
      ensures Valid()
      ensures AfterBegin(old(inTransaction)).Err? ==>
        r == Err(AfterBegin(old(inTransaction)).error)
        && inTransaction == old(inTransaction) && engine.execLog == old(engine.execLog)
      ensures AfterBegin(old(inTransaction)).Ok? ==>
        inTransaction == AfterBegin(old(inTransaction)).value
        && engine.execLog == old(engine.execLog) + [(handle, BeginSql)]
        && r == Void(Execution.ExecOutcome(engine.execResult(handle, BeginSql)))
    {
      if inTransaction == 1 {
        return Err(InvalidOperation(ActiveMessage));
      }
      inTransaction := inTransaction + 1;
      var executed := Execute(BeginSql, engine);
      r := Void(executed);
    }

    /**
     * Commit: throws when no transaction is counted; otherwise runs
     * "commit transaction;" and takes the counter down only when it succeeds.
     */
    method Commit(engine: Engine) returns (r: Result<()>)
      requires Valid()
      modifies this`inTransaction, engine`execLog
      ensures Valid()
      ensures AfterEnd(old(inTransaction), true).Err? ==>
        r == Err(AfterEnd(old(inTransaction), true).error)
        && inTransaction == old(inTransaction) && engine.execLog == old(engine.execLog)
      ensures AfterEnd(old(inTransaction), true).Ok? ==>
        engine.execLog == old(engine.execLog) + [(handle, CommitSql)]
        && r == Void(Execution.ExecOutcome(engine.execResult(handle, CommitSql)))
        && inTransaction == (if r.Ok? then AfterEnd(old(inTransaction), true).value else old(inTransaction))
    {
      if inTransaction == 0 {
        return Err(InvalidOperation(NoTransactionMessage));
      }
      var executed := Execute(CommitSql, engine);
      r := Void(executed);
      if r.Ok? {
        inTransaction := inTransaction - 1;
      }
    }

    /** Rollback as written: "rollback transaction;" runs but the counter is left as it was. */
    method RollbackAsWritten(engine: Engine) returns (r: Result<()>)
      requires Valid()
      modifies engine`execLog
      ensures AfterEnd(old(inTransaction), false).Err? ==>
        r == Err(AfterEnd(old(inTransaction), false).error) && engine.execLog == old(engine.execLog)
      ensures AfterEnd(old(inTransaction), false).Ok? ==>
        engine.execLog == old(engine.execLog) + [(handle, RollbackSql)]
        && r == Void(Execution.ExecOutcome(engine.execResult(handle, RollbackSql)))
        && inTransaction == AfterEnd(old(inTransaction), false).value
    {
      if inTransaction == 0 {
        return Err(InvalidOperation(NoTransactionMessage));
      }
      var executed := Execute(RollbackSql, engine);
      r := Void(executed);
    }

    /** Rollback, taking the counter down when the statement succeeds, as Commit does. */
    method Rollback(engine: Engine) returns (r: Result<()>)
      requires Valid()
      modifies this`inTransaction, engine`execLog
      ensures Valid()
      ensures AfterEnd(old(inTransaction), true).Err? ==>
        r == Err(AfterEnd(old(inTransaction), true).error)
        && inTransaction == old(inTransaction) && engine.execLog == old(engine.execLog)
      ensures AfterEnd(old(inTransaction), true).Ok? ==>
        engine.execLog == old(engine.execLog) + [(handle, RollbackSql)]
        && r == Void(Execution.ExecOutcome(engine.execResult(handle, RollbackSql)))
        && inTransaction == (if r.Ok? then AfterEnd(old(inTransaction), true).value else old(inTransaction))
    {
      if inTransaction == 0 {
        return Err(InvalidOperation(NoTransactionMessage));
      }
      var executed := Execute(RollbackSql, engine);
      r := Void(executed);
      if r.Ok? {
        inTransaction := inTransaction - 1;
      }
    }

    /**
     * Using<T>(delegate), with the delegate standing for one ctx.Execute(sql)
     * whose code it returns. Without auto-commit only the delegate runs.
     * With it, the delegate runs between BeginTransaction and Commit; any
     * exception among the three triggers Rollback and is rethrown, unless
     * Rollback throws, whose exception then takes its place. The context
     * the source creates holds no command here, so disposing it does nothing.
     */
    method Using(sql: string, engine: Engine) returns (r: Result<int>)
      requires Valid()
      modifies this`inTransaction, engine`execLog
      ensures Valid()
      ensures !options.usingAutoCommit ==>
        r == Execution.ExecOutcome(engine.execResult(handle, sql))
        && engine.execLog == old(engine.execLog) + [(handle, sql)]
        && inTransaction == old(inTransaction)
      ensures options.usingAutoCommit && r.Ok? ==>
        old(inTransaction) == 0 && inTransaction == 0
        && r == Execution.ExecOutcome(engine.execResult(handle, sql))
        && engine.execLog == old(engine.execLog) + [(handle, BeginSql), (handle, sql), (handle, CommitSql)]
      ensures options.usingAutoCommit && r.Err? ==>
        |engine.execLog| > |old(engine.execLog)|
        && engine.execLog[|engine.execLog| - 1] == (handle, RollbackSql)
        && (inTransaction == 0 <==> Execution.ExecOutcome(engine.execResult(handle, RollbackSql)).Ok?)
      ensures options.usingAutoCommit ==>
        var unit := UnitOfWork(old(inTransaction), handle, sql, engine.execResult);
        var rollback := Execution.ExecOutcome(engine.execResult(handle, RollbackSql));
        (unit.Ok? ==> r == unit && engine.execLog == old(engine.execLog) + UnitOfWorkLog(old(inTransaction), handle, sql, engine.execResult))
        && (unit.Err? ==>
              engine.execLog == old(engine.execLog) + UnitOfWorkLog(old(inTransaction), handle, sql, engine.execResult) + [(handle, RollbackSql)]
              && r == (if rollback.Ok? then unit else Err(rollback.error)))
    {
      if !options.usingAutoCommit {
        r := Execute(sql, engine);
        return;
      }
      r := InTransaction(sql, engine);
      if r.Ok? {
        return;
      }
      var rolledBack := Rollback(engine);
      if rolledBack.Err? {
        return Err(rolledBack.error);
      }
    }

    /**
     * Using's unit of work: begin, execute, commit. On a failure the
     * transaction is left open for the rollback that follows.
     */
    method InTransaction(sql: string, engine: Engine) returns (r: Result<int>)
      requires Valid()
      modifies this`inTransaction, engine`execLog
      ensures Valid()
      ensures r.Ok? ==>
        old(inTransaction) == 0 && inTransaction == 0
        && r == Execution.ExecOutcome(engine.execResult(handle, sql))
        && engine.execLog == old(engine.execLog) + [(handle, BeginSql), (handle, sql), (handle, CommitSql)]
      ensures r.Err? ==> inTransaction == 1 && |engine.execLog| >= |old(engine.execLog)|
      ensures r == UnitOfWork(old(inTransaction), handle, sql, engine.execResult)
      ensures engine.execLog == old(engine.execLog) + UnitOfWorkLog(old(inTransaction), handle, sql, engine.execResult)
    {
      var begun := BeginTransaction(engine);
      if begun.Err? {
        return Err(begun.error);
      }
      r := Execute(sql, engine);
      if r.Err? {
        return;
      }
      var committed := Commit(engine);
      if committed.Err? {
        return Err(committed.error);
      }
    }

    /** Dispose: the connection is marked closed; the handle stays with the pool. */
    method Dispose()
      modifies this`state
      ensures state == Closed
    {
      state := Closed;
    }

    /** Close: the same as Dispose. */
    method Close()
      modifies this`state
      ensures state == Closed
    {
      Dispose();
    }
  }

  /**
   * new SQLiteConnection(options): the pool hands over a handle for the
   * options' key, running the journal-mode PRAGMA on any handle it opens;
   * the connection is then open and counts no transaction.
   */
  method NewConnection(options: ConnectionOptions.Options, pool: ConnectionPool.Pool, engine: Engine)
    returns (r: Result<Connection>)
    requires pool.Valid() && engine.Valid() && pool.Issued(engine)
    modifies pool, engine`nextHandle, engine`live, engine`execLog
    ensures pool.Valid() && engine.Valid() && pool.Issued(engine)
    ensures var key := options.settings.openOptions;
      var index := ConnectionPool.IndexOfKey(old(pool.options), key);
      key.pooling && index >= 0 ==>
        r.Ok? && r.value.handle == old(pool.pool)[index] && unchanged(pool) && unchanged(engine)
    ensures var key := options.settings.openOptions;
      !(key.pooling && ConnectionPool.IndexOfKey(old(pool.options), key) >= 0) && r.Ok? ==>
        r.value.handle == old(engine.nextHandle)
        && engine.execLog == old(engine.execLog) + [(r.value.handle, OpenPragma())]
    ensures r.Ok? ==>
      fresh(r.value) && r.value.Valid() && r.value.options == options
      && r.value.state == Open && r.value.inTransaction == 0 && r.value.transaction == null
      && (options.settings.openOptions.pooling ==> r.value.handle in pool.pool)
      && (!options.settings.openOptions.pooling ==> r.value.handle in pool.nonPooled)
  {
    var h := pool.GetConnection(options.settings.openOptions, ConnectionPool.ExecuteOnOpen(OpenPragma()), engine);
    if h.Err? {
      return Err(h.error);
    }
    var c := new Connection(options, h.value);
    return Ok(c);
  }

  /**
   * DropDb as written: when the file exists, a connection is made for the
   * options and its handle passed to Remove with fullRemove left false, then
   * the file is deleted. A pooled handle is neither closed nor removed.
   */
  method DropDbAsWritten(options: ConnectionOptions.Options, pool: ConnectionPool.Pool, engine: Engine)
    returns (r: Result<()>, ghost dropped: Option<Handle>)
    requires pool.Valid() && engine.Valid() && pool.Issued(engine)
    modifies pool, engine
    ensures pool.Valid() && engine.Valid() && pool.Issued(engine)
    ensures options.DatabasePath() !in old(engine.files) ==>
      r == Ok(()) && dropped == None && unchanged(pool) && unchanged(engine)
    ensures r.Ok? && options.DatabasePath() in old(engine.files) ==>
      options.DatabasePath() !in engine.files && dropped.Some?
    ensures r.Ok? && options.settings.openOptions.pooling && dropped.Some? ==>
      dropped.value in pool.pool && engine.closeLog == old(engine.closeLog)
  {
    var path := options.DatabasePath();
    if path !in engine.files {
      return Ok(()), None;
    }
    var c := NewConnection(options, pool, engine);
    if c.Err? {
      return Err(c.error), None;
    }
    dropped := Some(c.value.handle);
    var removed := pool.Remove(c.value.handle, false, engine);
    if removed.Err? {
      return Err(removed.error), dropped;
    }
    engine.DeleteFile(path);
    r := Ok(());
  }

  /** DropDb with fullRemove set: the handle is closed and removed from whichever list holds it. */
  method DropDb(options: ConnectionOptions.Options, pool: ConnectionPool.Pool, engine: Engine)
    returns (r: Result<()>, ghost dropped: Option<Handle>)
    requires pool.Valid() && engine.Valid() && pool.Issued(engine)
    modifies pool, engine
    ensures pool.Valid() && engine.Valid() && pool.Issued(engine)
    ensures options.DatabasePath() !in old(engine.files) ==>
      r == Ok(()) && dropped == None && unchanged(pool) && unchanged(engine)
    ensures r.Ok? && options.DatabasePath() in old(engine.files) ==>
      options.DatabasePath() !in engine.files && dropped.Some?
    ensures r.Ok? && dropped.Some? ==>
      dropped.value !in pool.pool && dropped.value !in pool.nonPooled
      && dropped.value in engine.closeLog
  {
    var path := options.DatabasePath();
    if path !in engine.files {
      return Ok(()), None;
    }
    var c := NewConnection(options, pool, engine);
    if c.Err? {
      return Err(c.error), None;
    }
    dropped := Some(c.value.handle);
    var removed := pool.Remove(c.value.handle, true, engine);
    if removed.Err? {
      return Err(removed.error), dropped;
    }
    engine.DeleteFile(path);
    r := Ok(());
  }

  /**
   * CreateDb(options, encoding, journalMode): nothing when the file exists.
   * Otherwise a handle is opened with the options' flags and VFS, the open
   * code is checked, and the two PRAGMAs run, stopping at the first
   * exception; the handle is then closed whatever happened, and an exception
   * from that close replaces any earlier one. The source's defaults for the
   * last two parameters are Utf8 and WAL.
   */
  method CreateDb(options: ConnectionOptions.Options, encoding: Encoding, journalMode: JournalMode, engine: Engine)
    returns (r: Result<()>)
    requires engine.Valid()
    modifies engine`nextHandle, engine`live, engine`execLog, engine`closeLog
    ensures engine.Valid()
    ensures options.DatabasePath() in old(engine.files) ==> r == Ok(()) && unchanged(engine)
    ensures options.DatabasePath() !in old(engine.files) ==>
      var db := old(engine.nextHandle);
      var rc := engine.openResult(options.DatabasePath(), options.settings.openFlags, options.settings.openOptions.vfsName);
      var openCheck := SQLiteException.CheckOK(SQLiteException.StateOf(engine, db), rc, engine.errstr);
      var journal := Execution.ExecOutcome(engine.execResult(db, JournalPragma(journalMode)));
      var encoded := Execution.ExecOutcome(engine.execResult(db, EncodingPragma(encoding)));
      var closed := SQLiteException.CheckOK(SQLiteException.StateOf(engine, db), engine.closeResult(db), engine.errstr);
      && engine.closeLog == old(engine.closeLog) + [db]
      && engine.execLog == old(engine.execLog)
           + (if openCheck.Ok? then [(db, JournalPragma(journalMode))] else [])
           + (if openCheck.Ok? && journal.Ok? then [(db, EncodingPragma(encoding))] else [])
      && r == (if closed.Err? then closed
               else if openCheck.Err? then openCheck
               else if journal.Err? then Void(journal)
               else Void(encoded))
  {
    var path := options.DatabasePath();
    if path in engine.files {
      return Ok(());
    }
    var attempt: Result<()>;
    var rc, db := engine.OpenV2(path, options.settings.openFlags, options.settings.openOptions.vfsName);
    attempt := SQLiteException.CheckOK(SQLiteException.StateOf(engine, db), rc, engine.errstr);
    if attempt.Ok? {
      var journal := Execution.ExecuteInternal(engine, db, JournalPragma(journalMode));
      attempt := Void(journal);
      if journal.Ok? {
        var encoded := Execution.ExecuteInternal(engine, db, EncodingPragma(encoding));
        attempt := Void(encoded);
      }
    }
    // The finally block: the handle is never the empty one here.
    var closeCode := engine.CloseV2(db);
    var closed := SQLiteException.CheckOK(SQLiteException.StateOf(engine, db), closeCode, engine.errstr);
    r := if closed.Err? then closed else attempt;
  }
}
