// SQLiteTransaction: a transaction begun on a connection at an isolation
// level, completed at most once by Commit or Rollback (Dispose rolls back
// one that is still open).
module Transaction {
  import opened Clr
  import opened Native
  import Execution
  import ConnectionOptions
  import Connection

  /** System.Data.IsolationLevel. */
  datatype IsolationLevel = Unspecified | Chaos | ReadUncommitted | ReadCommitted | RepeatableRead | Serializable | Snapshot

  function IsolationValue(l: IsolationLevel): int {
    match l
    case Unspecified => -1
    case Chaos => 0x10
    case ReadUncommitted => 0x100
    case ReadCommitted => 0x1000
    case RepeatableRead => 0x10000
    case Serializable => 0x100000
    case Snapshot => 0x1000000
  }

  const CompletedMessage: string := "This SQLiteTransaction has completed"
  const ReadUncommittedOn: string := "PRAGMA read_uncommitted = 1;"
  const ReadUncommittedOff: string := "PRAGMA read_uncommitted = 0;"
  const BeginSql: string := "begin transaction;"
  const CommitSql: string := "commit;"
  const RollbackSql: string := "rollback;"

  /** The flags hold nothing besides, at most, the shared-cache bit. */
  predicate OnlySharedCache(flags: bv32) {
    flags == flags & SQLITE_OPEN_SHAREDCACHE
  }

  predicate SharedCache(flags: bv32) {
    flags & SQLITE_OPEN_SHAREDCACHE == SQLITE_OPEN_SHAREDCACHE
  }

  /**
   * The level the constructor settles on, as written: any level other than
   * Serializable becomes Serializable unless it is ReadUncommitted and the
   * open flags hold no bit besides the shared-cache one.
   */
  function CoerceAsWritten(level: IsolationLevel, flags: bv32): IsolationLevel {
    if (level != ReadUncommitted || !OnlySharedCache(flags)) && level != Serializable then Serializable else level
  }

  /** The level the constructor settles on: ReadUncommitted is kept when the shared cache is on. */
  function Coerce(level: IsolationLevel, flags: bv32): IsolationLevel {
    if level == ReadUncommitted && SharedCache(flags) then ReadUncommitted else Serializable
  }

  /** As written, ReadUncommitted survives exactly when no flag other than the shared-cache one is set. */
  lemma CoerceAsWrittenKeeps(level: IsolationLevel, flags: bv32)
    ensures CoerceAsWritten(level, flags) == ReadUncommitted || CoerceAsWritten(level, flags) == Serializable
    ensures CoerceAsWritten(level, flags) == ReadUncommitted
      <==> level == ReadUncommitted && flags & !SQLITE_OPEN_SHAREDCACHE == 0
  {
    if level == ReadUncommitted {
      assert OnlySharedCache(flags) <==> flags & !SQLITE_OPEN_SHAREDCACHE == 0;
    }
  }

  /**
   * Flags that name a read or write mode, as every connection string's
   * flags do, make the rule as written drop ReadUncommitted, even with the
   * default flags, which turn the shared cache on. Only flags holding no
   * bit besides the shared-cache one keep it; see
   * TypedAsWrittenKeepsReadUncommitted for the options that have them.
   */
  lemma CoerceAsWrittenDropsReadUncommitted(flags: bv32)
    requires flags & (SQLITE_OPEN_READONLY | SQLITE_OPEN_READWRITE) != 0
    ensures CoerceAsWritten(ReadUncommitted, flags) == Serializable
    ensures CoerceAsWritten(ReadUncommitted, ConnectionOptions.DefaultOpenFlags) == Serializable
    ensures SharedCache(ConnectionOptions.DefaultOpenFlags)
  {
    CoerceAsWrittenKeeps(ReadUncommitted, flags);
    CoerceAsWrittenKeeps(ReadUncommitted, ConnectionOptions.DefaultOpenFlags);
  }

  /**
   * As written, the typed constructor leaves OpenFlags at 0, so the rule as
   * written keeps ReadUncommitted for every options object it builds,
   * whatever flags it was given.
   */
  lemma TypedAsWrittenKeepsReadUncommitted(databasePath: string, getFullPath: string -> string, openFlags: bv32,
                                           storeDateTimeAsTicks: bool, key: Value, vfsName: Option<string>,
                                           dateTimeStringFormat: string, storeTimeSpanAsTicks: bool, pooling: bool)
    ensures var r := ConnectionOptions.TypedAsWritten(databasePath, getFullPath, openFlags, storeDateTimeAsTicks, key,
                                                      vfsName, dateTimeStringFormat, storeTimeSpanAsTicks, pooling);
      r.Ok? ==> CoerceAsWritten(ReadUncommitted, r.value.openFlags) == ReadUncommitted
  {
    CoerceAsWrittenKeeps(ReadUncommitted, 0);
  }

  /** The corrected rule keeps ReadUncommitted exactly when it was asked for and the shared cache is on. */
  lemma CoerceKeeps(level: IsolationLevel, flags: bv32)
    ensures Coerce(level, flags) == ReadUncommitted || Coerce(level, flags) == Serializable
    ensures Coerce(level, flags) == ReadUncommitted <==> level == ReadUncommitted && SharedCache(flags)
    ensures Coerce(ReadUncommitted, ConnectionOptions.DefaultOpenFlags) == ReadUncommitted
  {
  }

  /** The two rules differ only on a ReadUncommitted request. */
  lemma CoerceAgreesElsewhere(level: IsolationLevel, flags: bv32)
    requires level != ReadUncommitted
    ensures Coerce(level, flags) == CoerceAsWritten(level, flags) == Serializable
  {
  }

  class Transaction {
    const connection: Connection.Connection
    const isolationLevel: IsolationLevel
    var completed: bool

    constructor (connection: Connection.Connection, isolationLevel: IsolationLevel)
      ensures this.connection == connection && this.isolationLevel == isolationLevel && !completed
    {
      this.connection := connection;
      this.isolationLevel := isolationLevel;
      completed := false;
    }

    /** The statements Complete runs: ReadUncommitted is switched off again. */
    function ResetStatements(): seq<(Handle, string)>
      reads this
    {
      if isolationLevel == ReadUncommitted then [(connection.handle, ReadUncommittedOff)] else []
    }

    /** The outcome of those statements. */
    function ResetOutcome(engine: Engine): Result<()> {
      if isolationLevel == ReadUncommitted
      then Connection.Void(Execution.ExecOutcome(engine.execResult(connection.handle, ReadUncommittedOff)))
      else Ok(())
    }

    /**
     * Complete: switches ReadUncommitted off when it was on, then clears the
     * connection's Transaction and marks this one completed. An exception
     * from the PRAGMA leaves both as they were.
     */
    method Complete(engine: Engine) returns (r: Result<()>)
      requires !completed
      modifies this`completed, connection`transaction, engine`execLog
      ensures engine.execLog == old(engine.execLog) + ResetStatements()
      ensures r == ResetOutcome(engine)
      ensures r.Ok? ==> completed && connection.transaction == null
      ensures r.Err? ==> !completed && connection.transaction == old(connection.transaction)
    {
      if isolationLevel == ReadUncommitted {
        var reset := connection.Execute(ReadUncommittedOff, engine);
        if reset.Err? {
          return Err(reset.error);
        }
      }
      connection.transaction := null;
      completed := true;
      r := Ok(());
    }

    /**
     * Commit, and Rollback when `sql` is "rollback;": throws once completed,
     * without running anything; otherwise runs `sql` and, when it succeeds,
     * completes the transaction.
     */
    method Finish(sql: string, engine: Engine) returns (r: Result<()>)
      modifies this`completed, connection`transaction, engine`execLog
      ensures old(completed) ==>
        r == Err(InvalidOperation(CompletedMessage)) && completed && engine.execLog == old(engine.execLog)
        && connection.transaction == old(connection.transaction)
      ensures !old(completed) ==>
        var ended := Connection.Void(Execution.ExecOutcome(engine.execResult(connection.handle, sql)));
        && engine.execLog == old(engine.execLog) + [(connection.handle, sql)] + (if ended.Ok? then ResetStatements() else [])
        && r == (if ended.Err? then ended else ResetOutcome(engine))
        && (completed <==> r.Ok?)
        && (r.Ok? ==> connection.transaction == null)
        && (r.Err? ==> connection.transaction == old(connection.transaction))
    {
      if completed {
        return Err(InvalidOperation(CompletedMessage));
      }
      var ended := connection.Execute(sql, engine);
      if ended.Err? {
        return Err(ended.error);
      }
      r := Complete(engine);
    }

    /** Commit: "commit;", then Complete. */
    method Commit(engine: Engine) returns (r: Result<()>)
      modifies this`completed, connection`transaction, engine`execLog
      ensures old(completed) ==>
        r == Err(InvalidOperation(CompletedMessage)) && completed && engine.execLog == old(engine.execLog)
        && connection.transaction == old(connection.transaction)
      ensures !old(completed) ==>
        var ended := Connection.Void(Execution.ExecOutcome(engine.execResult(connection.handle, CommitSql)));
        && engine.execLog == old(engine.execLog) + [(connection.handle, CommitSql)] + (if ended.Ok? then ResetStatements() else [])
        && r == (if ended.Err? then ended else ResetOutcome(engine))
        && (completed <==> r.Ok?)
        && (r.Ok? ==> connection.transaction == null)
        && (r.Err? ==> connection.transaction == old(connection.transaction))
    {
      r := Finish(CommitSql, engine);
    }

    /** Rollback: "rollback;", then Complete. */
    method Rollback(engine: Engine) returns (r: Result<()>)
      modifies this`completed, connection`transaction, engine`execLog
      ensures old(completed) ==>
        r == Err(InvalidOperation(CompletedMessage)) && completed && engine.execLog == old(engine.execLog)
        && connection.transaction == old(connection.transaction)
      ensures !old(completed) ==>
        var ended := Connection.Void(Execution.ExecOutcome(engine.execResult(connection.handle, RollbackSql)));
        && engine.execLog == old(engine.execLog) + [(connection.handle, RollbackSql)] + (if ended.Ok? then ResetStatements() else [])
        && r == (if ended.Err? then ended else ResetOutcome(engine))
        && (completed <==> r.Ok?)
        && (r.Ok? ==> connection.transaction == null)
        && (r.Err? ==> connection.transaction == old(connection.transaction))
    {
      r := Finish(RollbackSql, engine);
    }

    /** Dispose: rolls back a transaction that has not completed; does nothing to one that has. */
    method Dispose(engine: Engine) returns (r: Result<()>)
      modifies this`completed, connection`transaction, engine`execLog
      ensures old(completed) ==>
        r == Ok(()) && completed && engine.execLog == old(engine.execLog)
        && connection.transaction == old(connection.transaction)
      ensures !old(completed) ==>
        var ended := Connection.Void(Execution.ExecOutcome(engine.execResult(connection.handle, RollbackSql)));
        && engine.execLog == old(engine.execLog) + [(connection.handle, RollbackSql)] + (if ended.Ok? then ResetStatements() else [])
        && r == (if ended.Err? then ended else ResetOutcome(engine))
        && (completed <==> r.Ok?)
        && (r.Ok? ==> connection.transaction == null)
        && (r.Err? ==> connection.transaction == old(connection.transaction))
    {
      if !completed {
        r := Rollback(engine);
      } else {
        r := Ok(());
      }
    }
  }

  /**
   * new SQLiteTransaction(connection, isolationLevel): the level is settled
   * from the connection's open flags; ReadUncommitted is switched on when
   * kept; then "begin transaction;" runs. An exception from either
   * statement means no transaction is made.
   */
  method Begin(connection: Connection.Connection, requested: IsolationLevel, engine: Engine)
    returns (r: Result<Transaction>)
    modifies engine`execLog
    ensures var level := Coerce(requested, connection.options.settings.openFlags);
      var on := if level == ReadUncommitted then [(connection.handle, ReadUncommittedOn)] else [];
      var onOutcome := if level == ReadUncommitted
        then Execution.ExecOutcome(engine.execResult(connection.handle, ReadUncommittedOn)) else Ok(0);
      var begun := Execution.ExecOutcome(engine.execResult(connection.handle, BeginSql));
      && (onOutcome.Err? ==> r == Err(onOutcome.error) && engine.execLog == old(engine.execLog) + on)
      && (onOutcome.Ok? ==> engine.execLog == old(engine.execLog) + on + [(connection.handle, BeginSql)])
      && (onOutcome.Ok? && begun.Err? ==> r == Err(begun.error))
      && (onOutcome.Ok? && begun.Ok? ==>
            r.Ok? && fresh(r.value) && r.value.connection == connection
            && r.value.isolationLevel == level && !r.value.completed)
  {
    var level := Coerce(requested, connection.options.settings.openFlags);
    if level == ReadUncommitted {
      var on := connection.Execute(ReadUncommittedOn, engine);
      if on.Err? {
        return Err(on.error);
      }
    }
    var begun := connection.Execute(BeginSql, engine);
    if begun.Err? {
      return Err(begun.error);
    }
    var t := new Transaction(connection, level);
    return Ok(t);
  }
}
