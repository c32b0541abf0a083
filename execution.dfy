// SQLiteConnection.ExecuteInternal: runs SQL through sqlite3_exec and turns
// an error message handed back by the engine into a SQLiteException. The
// pool's open callback, the connection and its transactions all go through it.
module Execution {
  import opened Clr
  import opened Native
  import Utf8z
  import SQLiteException

  /** The message bytes followed by the 0 byte the engine writes after them are valid pointer memory. */
  lemma MessageTerminated(bytes: seq<uint8>)
    ensures Utf8z.Terminated(bytes + [0])
  {
    assert (bytes + [0])[|bytes|] == 0;
  }

  /** The text of an engine message: the pointer is read up to its terminator and decoded. */
  function MessageOf(bytes: seq<uint8>): string {
    MessageTerminated(bytes);
    var text := Utf8z.ToString(Utf8z.FromPointer(Some(bytes + [0])));
    if text.Some? then text.value else []
  }

  /** What ExecuteInternal does with the reply: throw when a message came back, else return the code. */
  function ExecOutcome(reply: ExecReply): (r: Result<int>)
    ensures r.Err? <==> reply.errmsg.Some?
    ensures r.Ok? ==> r.value == reply.rc
    ensures r.Err? ==> r.error == SQLiteException.FromCode(reply.rc, Some(MessageOf(reply.errmsg.value)))
    ensures r.Err? ==> r.error.SQLite? && r.error.errorCode == reply.rc && r.error.extendedErrorCode == 0
  {
    if reply.errmsg.Some? then Err(SQLiteException.FromCode(reply.rc, Some(MessageOf(reply.errmsg.value))))
    else Ok(reply.rc)
  }

  /** ExecuteInternal(db, statement): one sqlite3_exec call; the message buffer is freed before the throw. */
  method ExecuteInternal(engine: Engine, db: Handle, sql: string) returns (r: Result<int>)
    modifies engine`execLog
    ensures engine.execLog == old(engine.execLog) + [(db, sql)]
    ensures r == ExecOutcome(engine.execResult(db, sql))
  {
    var reply := engine.Exec(db, sql);
    if reply.errmsg.Some? {
      var error := MessageOf(reply.errmsg.value);
      return Err(SQLiteException.FromCode(reply.rc, Some(error)));
    }
    return Ok(reply.rc);
  }

  /**
   * A message the engine hands back reaches the exception as the text it
   * encodes, without a trailing U+0000, provided the text holds none.
   */
  lemma MessageOfEncoded(s: string)
    requires forall i :: 0 <= i < |s| ==> s[i] != '\0'
    ensures MessageOf(Utf8z.Encode(s)) == s
  {
    var mem := Utf8z.Encode(s) + [0];
    MessageTerminated(Utf8z.Encode(s));
    Utf8z.EncodeZeroFree(s);
    Utf8z.ToStringOfPointer(mem);
    assert Utf8z.ZeroIndex(mem) == |Utf8z.Encode(s)|;
    assert mem[..|Utf8z.Encode(s)|] == Utf8z.Encode(s);
    Utf8z.DecodeEncode(s);
  }
}
