// SQLiteBlob: a Stream over one BLOB cell opened with sqlite3_blob_open.
// The cell has a fixed length; reads are clamped to it, writes may not grow
// it, and the position may be anywhere at or after 0.
module Blob {
  import opened Clr
  import opened Native
  import SQLiteException
  import Connection
  import Utf8z

  /** SQLiteConnection.MainDatabaseName. */
  const MainDatabaseName: string := "main"

  /** The message of a NotSupportedException built without one. */
  const NotSupportedText: string := "Specified method is not supported."

  /** The message of the exception the constructor throws for a connection that is not open. */
  const NotOpenText: string := "Operation SQLiteBlob is not possible for current connection state"

  /** The bytes sqlite3_blob_bytes can describe: it returns an int. */
  type BlobBytes = s: seq<uint8> | |s| < 0x8000_0000

  /** What sqlite3_blob_open answers: a result code, the blob handle written to the out parameter, and the cell's bytes. */
  datatype OpenReply = OpenReply(rc: int, handle: Handle, bytes: BlobBytes)

  /**
   * The native blob calls, scripted: sqlite3_blob_open for (db, database,
   * table, column, rowid, flags), and the codes sqlite3_blob_read and
   * sqlite3_blob_write give for (blob, count, offset) and sqlite3_blob_close
   * for a blob. A successful read or write moves the bytes.
   */
  datatype BlobNative = BlobNative(
    open: (Handle, seq<uint8>, seq<uint8>, seq<uint8>, int64, int) -> OpenReply,
    readCode: (Handle, int, int) -> int,
    writeCode: (Handle, int, int) -> int,
    closeCode: Handle -> int)

  /** The constructor's checks, in order: the connection, then the table name, then the column name. */
  function Precheck(connectionOpen: bool, tableName: Utf8z.Utf8z, columnName: Utf8z.Utf8z): (r: Result<()>)
    ensures r.Ok? <==> connectionOpen && tableName.Length() > 0 && columnName.Length() > 0
    ensures !connectionOpen ==> r == Err(InvalidOperation(NotOpenText))
    ensures connectionOpen && tableName.Length() == 0 ==> r == Err(ArgumentNull("tableName"))
    ensures connectionOpen && tableName.Length() > 0 && columnName.Length() == 0 ==> r == Err(ArgumentNull("columnName"))
  {
    if !connectionOpen then Err(InvalidOperation(NotOpenText))
    else if tableName.Length() == 0 then Err(ArgumentNull("tableName"))
    else if columnName.Length() == 0 then Err(ArgumentNull("columnName"))
    else Ok(())
  }

  /**
   * Through the string overload, a null name becomes the empty span and is
   * refused, while an empty string becomes the one-byte span holding the
   * terminator and reaches sqlite3_blob_open.
   */
  lemma StringNamesChecked(connectionOpen: bool, tableName: Option<string>, columnName: Option<string>)
    ensures connectionOpen && tableName.None? ==>
      Precheck(connectionOpen, Utf8z.OfString(tableName), Utf8z.OfString(columnName)) == Err(ArgumentNull("tableName"))
    ensures connectionOpen && tableName.Some? && columnName.None? ==>
      Precheck(connectionOpen, Utf8z.OfString(tableName), Utf8z.OfString(columnName)) == Err(ArgumentNull("columnName"))
    ensures connectionOpen && tableName.Some? && columnName.Some? ==>
      Precheck(connectionOpen, Utf8z.OfString(tableName), Utf8z.OfString(columnName)).Ok?
  {
  }

  /** The position a read or write works at: the stream position, clamped to the length. */
  function Clamp(position: int, length: nat): (p: nat)
    requires position >= 0
    ensures p <= length && (p == position || (p == length && position > length))
  {
    if position > length then length else position
  }

  /** The number of bytes Read delivers for a buffer of `want` bytes. */
  function ReadCount(position: int, length: nat, want: nat): (n: nat)
    requires position >= 0
    ensures n == Min(want, length - Min(position, length))
    ensures Clamp(position, length) + n <= length
    ensures position >= length ==> n == 0
  {
    var p := Clamp(position, length);
    if p + want > length then length - p else want
  }

  function Min(a: int, b: int): int { if a <= b then a else b }

  /**
   * Seek's target for an origin (0 Begin, 1 Current, 2 End) in unchecked
   * long arithmetic: a sum past long.MaxValue wraps to a negative target,
   * one below long.MinValue to a non-negative one. Another origin is refused.
   */
  function SeekTarget(position: int64, length: nat, offset: int64, origin: int): (r: Result<int64>)
    requires length < 0x8000_0000
    ensures origin == 0 ==> r == Ok(offset)
    ensures origin == 1 && IsInt64(position + offset) ==> r == Ok(position + offset)
    ensures origin == 2 && IsInt64(length + offset) ==> r == Ok(length + offset)
    ensures origin == 1 && position + offset >= 0x8000_0000_0000_0000 ==>
      r == Ok(position + offset - 0x1_0000_0000_0000_0000) && r.value < 0
    ensures origin == 1 && position + offset < -0x8000_0000_0000_0000 ==>
      r == Ok(position + offset + 0x1_0000_0000_0000_0000) && r.value >= 0
    ensures origin == 2 && length + offset >= 0x8000_0000_0000_0000 ==>
      r == Ok(length + offset - 0x1_0000_0000_0000_0000) && r.value < 0
    ensures !(0 <= origin <= 2) ==> r == Err(NotSupported("origin"))
  {
    if origin == 0 then Ok(offset)
    else if origin == 1 then Ok(WrapInt64(position + offset))
    else if origin == 2 then Ok(WrapInt64(length + offset))
    else Err(NotSupported("origin"))
  }

  /** Seeking past long.MaxValue from Current wraps to a negative target, which Seek refuses. */
  lemma SeekCurrentOverflowRefused()
    ensures SeekTarget(1, 0, 0x7FFF_FFFF_FFFF_FFFF, 1) == Ok(-0x8000_0000_0000_0000)
  {
  }

  /**
   * The outcome of Write(ReadOnlySpan) as the source has it: the disposed
   * state is not checked, so a disposed blob reaches sqlite3_blob_write with
   * the empty handle.
   */
  function WriteOutcomeAsWritten(handle: Handle, canWrite: bool, position: int, length: nat, count: nat,
                                 native: BlobNative, db: SQLiteException.HandleState, errstr: int -> string): (r: Result<()>)
    requires position >= 0
    ensures !canWrite ==> r == Err(NotSupported("Write"))
    ensures canWrite && Clamp(position, length) + count > length ==> r == Err(NotSupported("Method Resize not supported"))
    ensures r.Ok? ==>
      (canWrite && Clamp(position, length) + count <= length
       && IsSuccess(native.writeCode(handle, count, Clamp(position, length))))
  {
    if !canWrite then Err(NotSupported("Write"))
    else if Clamp(position, length) + count > length then Err(NotSupported("Method Resize not supported"))
    else SQLiteException.CheckOK(db, native.writeCode(handle, count, Clamp(position, length)), errstr)
  }

  /** The outcome of Write(ReadOnlySpan) with the disposed check Read(Span) and Write(byte[]) make. */
  function WriteOutcome(handle: Handle, canWrite: bool, position: int, length: nat, count: nat,
                        native: BlobNative, db: SQLiteException.HandleState, errstr: int -> string): (r: Result<()>)
    requires position >= 0
    ensures handle == EmptyHandle ==> r == Err(ObjectDisposed("SQLiteBlob"))
    ensures handle != EmptyHandle ==> r == WriteOutcomeAsWritten(handle, canWrite, position, length, count, native, db, errstr)
  {
    if handle == EmptyHandle then Err(ObjectDisposed("SQLiteBlob"))
    else WriteOutcomeAsWritten(handle, canWrite, position, length, count, native, db, errstr)
  }

  /**
   * A disposed, writable blob given one byte at position 0 is not refused as
   * disposed by the span overload: the result is whatever the native call
   * on the empty handle reports.
   */
  lemma WriteAfterDisposeAsWritten(native: BlobNative, db: SQLiteException.HandleState, errstr: int -> string)
    ensures WriteOutcomeAsWritten(EmptyHandle, true, 0, 1, 1, native, db, errstr)
         == SQLiteException.CheckOK(db, native.writeCode(EmptyHandle, 1, 0), errstr)
    ensures WriteOutcomeAsWritten(EmptyHandle, true, 0, 1, 1, native, db, errstr) != Err(ObjectDisposed("SQLiteBlob"))
  {
  }

  /** With the check, every write to a disposed blob is refused as disposed. */
  lemma WriteAfterDisposeRefused(canWrite: bool, position: int, length: nat, count: nat,
                                 native: BlobNative, db: SQLiteException.HandleState, errstr: int -> string)
    requires position >= 0
    ensures WriteOutcome(EmptyHandle, canWrite, position, length, count, native, db, errstr) == Err(ObjectDisposed("SQLiteBlob"))
  {
  }

  /** The cell after a write of `buffer` at position p. */
  function Overwrite(data: seq<uint8>, p: nat, buffer: seq<uint8>): (r: seq<uint8>)
    requires p + |buffer| <= |data|
    ensures |r| == |data| && r[p..p + |buffer|] == buffer
    ensures forall k :: 0 <= k < |data| && !(p <= k < p + |buffer|) ==> r[k] == data[k]
  {
    data[..p] + buffer + data[p + |buffer|..]
  }

  /** Writing back what a read returned leaves the cell as it was. */
  lemma OverwriteWithOwnBytes(data: seq<uint8>, p: nat, n: nat)
    requires p + n <= |data|
    ensures Overwrite(data, p, data[p..p + n]) == data
  {
    assert data[..p] + data[p..p + n] + data[p + n..] == data;
  }

  /** A later write wins over an earlier one at the same place. */
  lemma OverwriteTwice(data: seq<uint8>, p: nat, a: seq<uint8>, b: seq<uint8>)
    requires p + |a| <= |data| && |a| == |b|
    ensures Overwrite(Overwrite(data, p, a), p, b) == Overwrite(data, p, b)
  {
    var once := Overwrite(data, p, a);
    assert once[..p] == data[..p];
    assert once[p + |a|..] == data[p + |a|..];
  }

  /** The native read's copy: the bytes land in the window of the buffer that starts at `start`. */
  method CopyInto(buffer: array<uint8>, start: nat, bytes: seq<uint8>)
    requires start + |bytes| <= buffer.Length
    modifies buffer
    ensures buffer[..] == old(buffer[..start]) + bytes + old(buffer[start + |bytes|..])
  {
    forall k | 0 <= k < |bytes| {
      buffer[start + k] := bytes[k];
    }
    assert buffer[..] == old(buffer[..start]) + bytes + old(buffer[start + |bytes|..]);
  }

  class Blob {
    const connection: Connection.Connection
    const native: BlobNative
    const canWrite: bool
    /** Length: fixed at open to sqlite3_blob_bytes. */
    const length: nat
    /** _blob: the native handle, EmptyHandle once disposed. */
    var handle: Handle
    /** _position. */
    var position: int64
    /** The bytes of the cell. */
    var data: seq<uint8>

    ghost predicate Valid()
      reads this
    {
      position >= 0 && length == |data| && length < 0x8000_0000
    }

    constructor (connection: Connection.Connection, native: BlobNative, canWrite: bool, handle: Handle, bytes: BlobBytes)
      ensures Valid()
      ensures this.connection == connection && this.native == native && this.canWrite == canWrite
      ensures this.handle == handle && data == bytes && length == |bytes| && position == 0
    {
      this.connection := connection;
      this.native := native;
      this.canWrite := canWrite;
      this.handle := handle;
      this.length := |bytes|;
      data := bytes;
      position := 0;
    }

    /** The Position setter: a negative value is refused and the position stays. */
    method SetPosition(value: int64) returns (r: Result<()>)
      requires Valid()
      modifies this`position
      ensures Valid()
      ensures value < 0 ==> r == Err(ArgumentOutOfRange("value")) && position == old(position)
      ensures value >= 0 ==> r == Ok(()) && position == value
    {
      if value < 0 {
        return Err(ArgumentOutOfRange("value"));
      }
      position := value;
      r := Ok(());
    }

    /**
     * Read(Span<byte>), with the span being buffer[start..start + len]: the
     * bytes from the clamped position are copied into the front of the span
     * and the position advances by their number.
     */
    method ReadSpan(buffer: array<uint8>, start: nat, len: nat, engine: Engine) returns (r: Result<int>)
      requires Valid() && start + len <= buffer.Length
      modifies this`position, buffer
      ensures Valid()
      ensures old(handle) == EmptyHandle ==>
        r == Err(ObjectDisposed("SQLiteBlob")) && position == old(position) && buffer[..] == old(buffer[..])
      ensures old(handle) != EmptyHandle ==>
        var p := Clamp(old(position), length);
        var n := ReadCount(old(position), length, len);
        var rc := native.readCode(handle, n, p);
        (IsSuccess(rc) ==>
          r == Ok(n) && position == old(position) + n
          && buffer[..] == old(buffer[..start]) + data[p..p + n] + old(buffer[start + n..]))
        && (!IsSuccess(rc) ==>
          r == Err(SQLiteException.CheckOK(SQLiteException.StateOf(engine, connection.handle), rc, engine.errstr).error)
          && position == old(position) && buffer[..] == old(buffer[..]))
    {
      if handle == EmptyHandle {
        return Err(ObjectDisposed("SQLiteBlob"));
      }
      var p := position;
      if p > length {
        p := length;
      }
      var count := len;
      if p + count > length {
        count := length - p;
      }
      var rc := native.readCode(handle, count, p);
      if IsSuccess(rc) {
        CopyInto(buffer, start, data[p..p + count]);
      }
      var checked := SQLiteException.CheckOK(SQLiteException.StateOf(engine, connection.handle), rc, engine.errstr);
      if checked.Err? {
        return Err(checked.error);
      }
      position := position + count;
      r := Ok(count);
    }

    /**
     * Read(byte[], offset, count): the argument checks, then the span read.
     * offset + count is an int sum, so a sum past int.MaxValue passes the
     * range check and AsSpan refuses it instead.
     */
    method Read(buffer: array?<uint8>, offset: int32, count: int32, engine: Engine) returns (r: Result<int>)
      requires Valid()
      modifies this`position, buffer
      ensures Valid()
      ensures buffer == null ==> r == Err(ArgumentNull("buffer"))
      ensures buffer != null && offset < 0 ==> r == Err(ArgumentOutOfRange("offset"))
      ensures buffer != null && offset >= 0 && count < 0 ==> r == Err(ArgumentOutOfRange("count"))
      ensures buffer != null && offset >= 0 && count >= 0 && WrapInt32(offset + count) > buffer.Length ==>
        r == Err(Argument("Invalid offset And count"))
      ensures buffer != null && offset >= 0 && count >= 0 && offset + count > buffer.Length ==> r.Err?
      ensures r.Err? && old(handle) != EmptyHandle ==> position == old(position)
      ensures buffer != null && offset >= 0 && count >= 0 && offset + count <= buffer.Length && old(handle) == EmptyHandle ==>
        r == Err(ObjectDisposed("SQLiteBlob")) && position == old(position) && buffer[..] == old(buffer[..])
      ensures buffer != null && offset >= 0 && count >= 0 && offset + count <= buffer.Length && old(handle) != EmptyHandle ==>
        var p := Clamp(old(position), length);
        var n := ReadCount(old(position), length, count as nat);
        var rc := native.readCode(handle, n, p);
        (IsSuccess(rc) ==>
          r == Ok(n) && position == old(position) + n
          && buffer[..] == old(buffer[..offset]) + data[p..p + n] + old(buffer[offset + n..]))
        && (!IsSuccess(rc) ==>
          r == Err(SQLiteException.CheckOK(SQLiteException.StateOf(engine, connection.handle), rc, engine.errstr).error)
          && position == old(position) && buffer[..] == old(buffer[..]))
      ensures r.Ok? ==>
        (buffer != null && offset + count <= buffer.Length
         && r.value == ReadCount(old(position), length, count as nat) && position == old(position) + r.value
         && buffer[..] == old(buffer[..offset]) + data[Clamp(old(position), length)..Clamp(old(position), length) + r.value]
                          + old(buffer[offset + r.value..]))
    {
      if buffer == null {
        return Err(ArgumentNull("buffer"));
      }
      if offset < 0 {
        return Err(ArgumentOutOfRange("offset"));
      }
      if count < 0 {
        return Err(ArgumentOutOfRange("count"));
      }
      if WrapInt32(offset + count) > buffer.Length {
        return Err(Argument("Invalid offset And count"));
      }
      if offset + count > buffer.Length {
        // buffer.AsSpan(offset, count) refuses the window.
        return Err(ArgumentOutOfRange(""));
      }
      r := ReadSpan(buffer, offset, count, engine);
    }

    /** Write(ReadOnlySpan<byte>) as the source has it: no disposed check. */
    method WriteSpanAsWritten(buffer: seq<uint8>, engine: Engine) returns (r: Result<()>)
      requires Valid()
      modifies this`position, this`data
      ensures Valid()
      ensures r == WriteOutcomeAsWritten(handle, canWrite, old(position), length, |buffer|, native,
                                         SQLiteException.StateOf(engine, connection.handle), engine.errstr)
      ensures r.Ok? ==> data == Overwrite(old(data), Clamp(old(position), length), buffer)
                        && position == old(position) + |buffer|
      ensures r.Err? ==> data == old(data) && position == old(position)
    {
      if !canWrite {
        return Err(NotSupported("Write"));
      }
      var p := position;
      if p > length {
        p := length;
      }
      var count := |buffer|;
      if p + count > length {
        return Err(NotSupported("Method Resize not supported"));
      }
      var rc := native.writeCode(handle, count, p);
      var checked := SQLiteException.CheckOK(SQLiteException.StateOf(engine, connection.handle), rc, engine.errstr);
      if checked.Err? {
        return Err(checked.error);
      }
      data := Overwrite(data, p, buffer);
      position := position + count;
      r := Ok(());
    }

    /**
     * Write(ReadOnlySpan<byte>): the span's bytes replace the cell's bytes
     * from the clamped position, which must leave the length unchanged, and
     * the position advances by their number.
     */
    method WriteSpan(buffer: seq<uint8>, engine: Engine) returns (r: Result<()>)
      requires Valid()
      modifies this`position, this`data
      ensures Valid()
      ensures r == WriteOutcome(handle, canWrite, old(position), length, |buffer|, native,
                                SQLiteException.StateOf(engine, connection.handle), engine.errstr)
      ensures r.Ok? ==> data == Overwrite(old(data), Clamp(old(position), length), buffer)
                        && position == old(position) + |buffer|
      ensures r.Err? ==> data == old(data) && position == old(position)
    {
      if handle == EmptyHandle {
        return Err(ObjectDisposed("SQLiteBlob"));
      }
      r := WriteSpanAsWritten(buffer, engine);
    }

    /** Write(byte[], offset, count): the argument checks, the disposed check, then the span write. */
    method Write(buffer: array?<uint8>, offset: int32, count: int32, engine: Engine) returns (r: Result<()>)
      requires Valid()
      modifies this`position, this`data
      ensures Valid()
      ensures buffer == null ==> r == Err(ArgumentNull("buffer"))
      ensures buffer != null && offset < 0 ==> r == Err(ArgumentOutOfRange("offset"))
      ensures buffer != null && offset >= 0 && count < 0 ==> r == Err(ArgumentOutOfRange("count"))
      ensures buffer != null && offset >= 0 && count >= 0 && WrapInt32(offset + count) > buffer.Length ==>
        r == Err(Argument("Invalid offset And count"))
      ensures buffer != null && offset >= 0 && count >= 0 && offset + count <= buffer.Length ==>
        r == WriteOutcome(handle, canWrite, old(position), length, count as nat, native,
                          SQLiteException.StateOf(engine, connection.handle), engine.errstr)
      ensures r.Ok? ==>
        (buffer != null && 0 <= offset && 0 <= count && offset + count <= buffer.Length
         && data == Overwrite(old(data), Clamp(old(position), length), buffer[offset..offset + count])
         && position == old(position) + count)
      ensures r.Err? ==> data == old(data) && position == old(position)
    {
      if buffer == null {
        return Err(ArgumentNull("buffer"));
      }
      if offset < 0 {
        return Err(ArgumentOutOfRange("offset"));
      }
      if count < 0 {
        return Err(ArgumentOutOfRange("count"));
      }
      if WrapInt32(offset + count) > buffer.Length {
        return Err(Argument("Invalid offset And count"));
      }
      if handle == EmptyHandle {
        return Err(ObjectDisposed("SQLiteBlob"));
      }
      if offset + count > buffer.Length {
        // buffer.AsSpan(offset, count) refuses the window.
        return Err(ArgumentOutOfRange(""));
      }
      r := WriteSpan(buffer[offset..offset + count], engine);
    }

    /** Seek: the target from the origin; a negative target is refused and the position stays. */
    method Seek(offset: int64, origin: int) returns (r: Result<int64>)
      requires Valid()
      modifies this`position
      ensures Valid()
      ensures SeekTarget(old(position), length, offset, origin).Err? ==>
        r == SeekTarget(old(position), length, offset, origin) && position == old(position)
      ensures SeekTarget(old(position), length, offset, origin).Ok? && SeekTarget(old(position), length, offset, origin).value < 0 ==>
        r == Err(IO("SeekBeforeBegin")) && position == old(position)
      ensures r.Ok? ==>
        (r.value >= 0 && position == r.value && r == SeekTarget(old(position), length, offset, origin))
    {
      var target := SeekTarget(position, length, offset, origin);
      match target {
        case Err(e) =>
          r := Err(e);
        case Ok(t) =>
          if t < 0 {
            r := Err(IO("SeekBeforeBegin"));
          } else {
            position := t;
            r := Ok(t);
          }
      }
    }

    /** SetLength: a blob cannot be resized. */
    method SetLength(value: int64) returns (r: Result<()>)
      ensures r == Err(NotSupported(NotSupportedText))
    {
      r := Err(NotSupported(NotSupportedText));
    }

    /**
     * Dispose: the first call closes the native blob and clears the handle;
     * a close that fails throws and keeps the handle; with the handle already
     * cleared nothing happens.
     */
    method Dispose(engine: Engine) returns (r: Result<()>)
      requires Valid()
      modifies this`handle
      ensures Valid()
      ensures old(handle) == EmptyHandle ==> r == Ok(()) && handle == EmptyHandle
      ensures old(handle) != EmptyHandle ==>
        r == SQLiteException.CheckOK(SQLiteException.StateOf(engine, connection.handle), native.closeCode(old(handle)), engine.errstr)
        && handle == (if r.Ok? then EmptyHandle else old(handle))
    {
      if handle != EmptyHandle {
        var rc := native.closeCode(handle);
        var checked := SQLiteException.CheckOK(SQLiteException.StateOf(engine, connection.handle), rc, engine.errstr);
        if checked.Err? {
          return checked;
        }
        handle := EmptyHandle;
      }
      r := Ok(());
    }
  }

  /**
   * new SQLiteBlob(connection, databaseName, tableName, columnName, rowid,
   * readOnly): the checks, then sqlite3_blob_open with flags 1 for read-write
   * and 0 for read-only.
   */
  method Open(connection: Connection.Connection?, databaseName: Utf8z.Utf8z, tableName: Utf8z.Utf8z,
              columnName: Utf8z.Utf8z, rowid: int64, readOnly: bool, native: BlobNative, engine: Engine)
    returns (r: Result<Blob>)
    ensures Precheck(connection != null && connection.state == Connection.Open, tableName, columnName).Err? ==>
      r == Err(Precheck(connection != null && connection.state == Connection.Open, tableName, columnName).error)
    ensures Precheck(connection != null && connection.state == Connection.Open, tableName, columnName).Ok? ==>
      connection != null &&
      var reply := native.open(connection.handle, databaseName.data, tableName.data, columnName.data, rowid,
                               if readOnly then 0 else 1);
      (r.Ok? <==> IsSuccess(reply.rc))
      && (r.Err? ==> r.error == SQLiteException.CheckOK(SQLiteException.StateOf(engine, connection.handle), reply.rc, engine.errstr).error)
      && (r.Ok? ==> fresh(r.value) && r.value.Valid() && r.value.connection == connection && r.value.native == native
                    && r.value.canWrite == !readOnly && r.value.handle == reply.handle
                    && r.value.data == reply.bytes && r.value.length == |reply.bytes| && r.value.position == 0)
  {
    var open := connection != null && connection.state == Connection.Open;
    var checked := Precheck(open, tableName, columnName);
    if checked.Err? {
      return Err(checked.error);
    }
    var reply := native.open(connection.handle, databaseName.data, tableName.data, columnName.data, rowid,
                             if readOnly then 0 else 1);
    var status := SQLiteException.CheckOK(SQLiteException.StateOf(engine, connection.handle), reply.rc, engine.errstr);
    if status.Err? {
      return Err(status.error);
    }
    var blob := new Blob(connection, native, !readOnly, reply.handle, reply.bytes);
    r := Ok(blob);
  }

  /** new SQLiteBlob(connection, tableName, columnName, rowid, readOnly): the main database, names converted to UTF-8. */
  method OpenMain(connection: Connection.Connection?, tableName: Option<string>, columnName: Option<string>,
                  rowid: int64, readOnly: bool, native: BlobNative, engine: Engine)
    returns (r: Result<Blob>)
    ensures connection == null || connection.state != Connection.Open ==> r == Err(InvalidOperation(NotOpenText))
    ensures connection != null && connection.state == Connection.Open && tableName.None? ==>
      r == Err(ArgumentNull("tableName"))
    ensures connection != null && connection.state == Connection.Open && tableName.Some? && columnName.None? ==>
      r == Err(ArgumentNull("columnName"))
    ensures connection != null && connection.state == Connection.Open && tableName.Some? && columnName.Some? ==>
      var reply := native.open(connection.handle, Utf8z.Encoded(Some(MainDatabaseName)), Utf8z.Encoded(tableName),
                               Utf8z.Encoded(columnName), rowid, if readOnly then 0 else 1);
      (r.Ok? <==> IsSuccess(reply.rc))
      && (r.Ok? ==> fresh(r.value) && r.value.Valid() && r.value.canWrite == !readOnly
                    && r.value.data == reply.bytes && r.value.position == 0)
  {
    StringNamesChecked(connection != null && connection.state == Connection.Open, tableName, columnName);
    r := Open(connection, Utf8z.OfString(Some(MainDatabaseName)), Utf8z.OfString(tableName), Utf8z.OfString(columnName),
              rowid, readOnly, native, engine);
  }
}
