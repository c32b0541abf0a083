// SQLiteException: its two constructors and CheckOK, the decision that turns a
// native result code and the handle's error state into "return" or "throw".
module SQLiteException {
  import opened Clr
  import opened Native
  import Text

  const DefaultNativeError: string :=
    "For more information on this error code see https://www.sqlite.org/rescode.html</value>"

  /** The text the runtime gives an exception constructed with a null message. */
  const NullMessageText: string := "Exception of type 'SQLibre.SQLiteException' was thrown."

  /** The handle CheckOK is given: empty, or one whose error state can be queried. */
  datatype HandleState = NoHandle | Reporting(error: DbError)

  /** The error state the engine reports for a handle; the empty handle has none. */
  function StateOf(engine: Engine, db: Handle): (s: HandleState)
    ensures s.NoHandle? <==> db == EmptyHandle
  {
    if db == EmptyHandle then NoHandle else Reporting(engine.errorState(db))
  }

  /** new SQLiteException(r, message): only ErrorCode is set. */
  function FromCode(r: int, message: Option<string>): (e: Exception)
    ensures e.SQLite? && e.errorCode == r && e.extendedErrorCode == 0
    ensures message.Some? ==> e.message == message.value
  {
    SQLite(if message.Some? then message.value else NullMessageText, r, 0)
  }

  /** new SQLiteException(message, errorCode, extendedErrorCode). */
  function WithCodes(message: string, errorCode: int, extendedErrorCode: int): (e: Exception)
    ensures e.SQLite? && e.message == message
    ensures e.errorCode == errorCode && e.extendedErrorCode == extendedErrorCode
  {
    SQLite(message, errorCode, extendedErrorCode)
  }

  /** The fallback text used when the handle has no error message. */
  function NoMessageText(r: int): string {
    "SQLite native error with code=" + Text.IntToString(r) + ". " + DefaultNativeError
  }

  /** CheckOK(db, r): success codes return; any other code throws. */
  function CheckOK(db: HandleState, r: int, errstr: int -> string): (res: Result<()>)
    ensures res.Ok? <==> IsSuccess(r)
    ensures res.Err? ==> res.error.SQLite? && res.error.errorCode == r
    ensures res.Err? && (db.NoHandle? || r != db.error.errcode) ==>
      res.error.extendedErrorCode == r && res.error.message == errstr(r) + " " + DefaultNativeError
    ensures res.Err? && db.Reporting? && r == db.error.errcode ==>
      res.error.extendedErrorCode == db.error.extendedErrcode
      && res.error.message == (if db.error.errmsg.Some? then db.error.errmsg.value else NoMessageText(r))
  {
    if IsSuccess(r) then Ok(())
    else if db.NoHandle? || r != db.error.errcode then
      Err(WithCodes(errstr(r) + " " + DefaultNativeError, r, r))
    else
      var message := if db.error.errmsg.Some? then db.error.errmsg.value else NoMessageText(r);
      Err(WithCodes(message, r, db.error.extendedErrcode))
  }

  /** CheckOK(r): the empty-handle case. */
  function CheckCode(r: int, errstr: int -> string): (res: Result<()>)
    ensures res.Ok? <==> IsSuccess(r)
    ensures res.Err? ==> res.error == SQLite(errstr(r) + " " + DefaultNativeError, r, r)
  {
    CheckOK(NoHandle, r, errstr)
  }

  /**
   * The handle's error state is consulted only when its last error code is
   * the code being checked: otherwise the outcome is that of the empty handle.
   */
  lemma StateConsultedOnlyOnMatch(db: HandleState, r: int, errstr: int -> string)
    requires db.Reporting? ==> db.error.errcode != r
    ensures CheckOK(db, r, errstr) == CheckCode(r, errstr)
  {
  }
}
