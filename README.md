# SQLibre core, modelled in Dafny

SQLibre is a thin C# layer over the native SQLite engine. This project models
its managed part: the bookkeeping and the lifecycles that sit between the
caller and the engine. The model proves what that part promises about its
state and its errors.

- **Engine (`Native`).**
  - Handles are opaque ids.
  - A prepared statement is an object holding three things: its parameter-name map, its bound values and a scripted sequence of step results.
  - Everything the engine decides is given by oracle functions fixed when the engine is made. That covers the results of open, close, exec and prepare, the handle's error state and `sqlite3_errstr`.
  - The result-code, open-flag and column-type constants are those of the library's native bindings.
- **Runtime (`Clr`, `Text`).**
  - 32- and 64-bit integers, with their wrap-around written out.
  - Boxed values and their `TypeCode`, and the exceptions the library throws.
  - Upper-casing, ordinal search, `string.Join`, and integer formatting and parsing.
  - Floating-point, `Guid` and `DateTime` conversions are fields of a `Conversions` record.
- **Errors (`SQLiteException`, `Execution`).**
  - `CheckOK` decides, from a result code and the handle's error state, whether to return or throw, and with which codes and message.
  - `ExecuteInternal` turns an error message from `sqlite3_exec` into an exception.
- **Text utilities (`Utf8z`, `SpanExtensions`, `KeyValuePairReader`, `ConnectionStringReader`).**
  - Zero-terminated UTF-8 spans, with the RFC 3629 section 3 encoding, bytewise equality, lexicographic compare and the hash.
  - Token slicing, and the two revisions of the `key=value;` reader.
- **Options and pool (`ConnectionOptions`, `DbOpenOptions`, `ConnectionPool`).**
  - Connection-string parsing.
  - The pool key and its equality.
  - The process-wide pool of open handles, kept as three parallel lists.
- **Sessions (`Connection`, `Transaction`, `Context`).**
  - The connection's transaction counter and state.
  - Isolation-level coercion and single completion of a transaction.
  - The context's command registry, its name/value parameter pairing, and the single-statement `SQLiteCommand` with its live-command counter.
- **Binding (`Marshal`, `CommandBinding`).**
  - The type-directed dispatch of `Bind(object)` and what each typed overload hands to the engine.
  - The multi-statement revision of `SQLiteCommand`, which binds one value across a list of statements.
- **Reading (`Reader`, `ColumnsCollection`, `Column`).**
  - The forward cursor with its lazily built column table and its cached row values.
  - Case-insensitive column lookup through the hash of the upper-cased name.
- **Blobs (`Blob`).**
  - A stream over one fixed-length BLOB cell: clamping, argument checks, seek and dispose.

Where the library changes state, the model does too: a `class` with `modifies` clauses, loops with their invariants, and arrays where the library fills arrays. Pure decisions are functions, and the properties relating several calls are lemmas.

The source files come from diverging revisions. Four places reach members the shown code lacks:
- `SQLiteConnectionPool.cs:46` reads a `Pooling` member that `DbOpenOptions` does not declare. It is modelled as a boolean field of the key. It takes no part in equality or the hash.
- `SQLiteConnection.cs:67` reads a journal mode that the options do not carry. The enumeration's default, `DELETE`, is used.
- `SQLiteTransaction.cs:21` reads `_connection.ConnectionOptions.OpenFlags`, but `SQLiteConnection` declares only the private `_connectionOptions` (`SQLiteConnection.cs:41`). It is modelled as the open flags of the options the connection was made with (`connection.options.settings.openFlags`).
- `SQLiteTransaction.cs:65` assigns `_connection.Transaction`, a member `SQLiteConnection` does not declare. It is modelled as a field `transaction` of the connection, null when the connection is made, which only `SQLiteTransaction` sets back to null.

Where the library's documentation (its XML doc comments) and the code disagree, the model follows the code. The places where the code looks wrong are listed under "Findings". For each, one member models the code as written and exhibits the fault, and a corrected definition carries the intended property.

The members that reach a faulty place are built on the corrected definitions, not on the code as written. "Left out" names each of them, with what the code as written does instead. They are the exec error message, the native error texts in `CheckOK` and `CheckCode`, the column names, the typed constructors, the connection-string loop, the rollbacks and the isolation-level rule.

## Model

| member | source | states |
|---|---|---|
| SQLiteException.FromCode | SQLibre/Common/SQLiteException.cs:24-27 | the (code, message) constructor sets ErrorCode to the code, keeps a given message, and leaves ExtendedErrorCode at 0 |
| SQLiteException.WithCodes | SQLibre/Common/SQLiteException.cs:29-33 | the (message, errorCode, extendedErrorCode) constructor carries all three as given |
| SQLiteException.StateOf | SQLibre/Common/SQLiteException.cs:49-50 | a handle's error state is available exactly when the handle is not empty |
| SQLiteException.CheckOK | SQLibre/Common/SQLiteException.cs:38-66 | returns iff the code is OK, ROW or DONE; otherwise throws a SQLiteException whose ErrorCode is the code; for an empty handle or a code other than the handle's last error, ExtendedErrorCode is the code and the message is errstr plus the fixed suffix; otherwise both come from the handle, with the fixed fallback text when errmsg is null |
| SQLiteException.CheckCode | SQLibre/Common/SQLiteException.cs:35-36 | CheckOK(int) returns iff the code is a success code, and otherwise throws with both codes equal to it and the errstr message |
| SQLiteException.StateConsultedOnlyOnMatch | SQLibre/Common/SQLiteException.cs:49-54 | a handle whose last error code differs from the checked code gives exactly the empty-handle outcome |
| Execution.ExecOutcome | SQLibre/Common/SQLiteConnection.cs:159-166 | ExecuteInternal throws exactly when the engine hands back an error message, with ErrorCode the result code, ExtendedErrorCode 0 and the message decoded by the corrected ToString (without the terminator); otherwise it returns the result code |
| Execution.ExecuteInternal | SQLibre/Common/SQLiteConnection.cs:157-167 | issues one exec of the statement on the handle and returns or throws as ExecOutcome says, the message decoded by the corrected ToString |
| Execution.MessageOfEncoded | SQLibre/Common/SQLiteConnection.cs:162 | a message without U+0000 reaches the exception as the text it encodes, read up to its terminator by the corrected ToString |
| Utf8z.EncodeChar | SQLibre/Core/Utf8z.cs:58-61 | one scalar value encodes to one to four octets, a leading 0 octet exactly for U+0000 and continuation octets after the first, as RFC 3629 section 3 lays out |
| Utf8z.DecodeEncode | SQLibre/Core/Utf8z.cs:58-61 | decoding the UTF-8 encoding of any string gives the string back |
| Utf8z.MaximalSubpartExamples | SQLibre/Core/Utf8z.cs:137-151 | ill-formed input is replaced one maximal subpart at a time: E2 82 41 decodes to U+FFFD and "A", C0 80 to two U+FFFD, and F0 90 80 to one U+FFFD |
| Utf8z.EncodeZeroFree | SQLibre/Core/Utf8z.cs:58-62 | the encoding of a text without U+0000 holds no 0 byte, so the written terminator is the first 0 |
| Utf8z.ReadUpToZero | SQLibre/Core/Raw.cs:125-130 | native code that reads the zero-terminated encoding of a string up to its first 0 byte gets back the text before the first U+0000 |
| Utf8z.ZeroIndex | SQLibre/Core/Utf8z.cs:37-45 | the count GetLen returns: the index of the first 0 byte, every byte before it non-zero |
| Utf8z.GetLen | SQLibre/Core/Utf8z.cs:37-45 | walks the memory to the first 0 byte and returns the number of bytes before it |
| Utf8z.FindZeroTerminator | SQLibre/Core/Utf8z.cs:47-51 | the span of a pointer is the bytes before the first 0 plus that 0, a prefix of the memory |
| Utf8z.PointerSpan | SQLibre/Core/Utf8z.cs:47-51 | the same span as a value: a non-empty prefix ending in its only 0 byte |
| Utf8z.FromPointer | SQLibre/Core/Utf8z.cs:29-35 | a null pointer gives the empty span; any other pointer gives its zero-terminated span |
| Utf8z.FromString | SQLibre/Core/Utf8z.cs:53-65 | null gives no bytes; a string gives its encoding followed by one 0 byte, so the length is the byte count plus one |
| Utf8z.GetHashCode | SQLibre/Core/Utf8z.cs:74-100 | the four/two/one-byte mixing loop and the two final rotations compute HashOf of the bytes, a function of the contents only |
| Utf8z.EqualsImpliesEqualHash | SQLibre/Core/Utf8z.cs:74-135 | GetHashCode is consistent with Equals: when Equals(a, b) answers true, which is exactly when the spans hold the same bytes, the two hash codes are equal |
| Utf8z.Word32Injective | SQLibre/Core/Utf8z.cs:120 | two four-byte words are equal iff their bytes are, so the chunked compare is bytewise |
| Utf8z.Half16Injective | SQLibre/Core/Utf8z.cs:125 | two sign-extended half-words are equal iff their bytes are |
| Utf8z.Equals | SQLibre/Core/Utf8z.cs:102-135 | the length check and the chunked loop return true iff the two spans hold the same bytes |
| Utf8z.Compare | SQLibre/Core/Utf8z.cs:153-176 | returns the difference of the first differing bytes within the common length, and otherwise the length difference |
| Utf8z.CompareAntisymmetric | SQLibre/Core/Utf8z.cs:153-176 | Compare(a, b) is the negation of Compare(b, a) |
| Utf8z.CompareZeroIffEqual | SQLibre/Core/Utf8z.cs:153-176 | Compare is zero exactly when the spans are equal, so it agrees with Equals |
| Utf8z.ToStringAsWritten | SQLibre/Core/Utf8z.cs:137-151 | ToString as written: null exactly for an empty span, and otherwise every byte decoded, the terminator included |
| Utf8z.ToString | SQLibre/Core/Utf8z.cs:137-151 | the corrected ToString: null exactly for an empty span, and otherwise the text bytes decoded without the terminator |
| Utf8z.ToStringOfString | SQLibre/Core/Utf8z.cs:53-151 | with the correction, a string survives FromString followed by ToString |
| Utf8z.ToStringOfPointer | SQLibre/Core/Utf8z.cs:29-151 | a pointer's span decodes to the text before its first 0 |
| Utf8z.ToStringAgreesWithoutTerminator | SQLibre/Core/Utf8z.cs:137-151 | for a span that does not end in 0 the two ToString versions agree; a span that ends in 0, from a pointer or from FromPtrLen over a TEXT value ending in a 0 byte, is where they differ |
| Utf8z.ToStringAsWrittenKeepsTerminator | SQLibre/Core/Utf8z.cs:53-151 | as written, FromString then ToString gives the string with a U+0000 appended |
| Utf8z.ToStringAsWrittenCounterexample | SQLibre/Core/Utf8z.cs:29-151 | the bytes "id" + 0 read through a pointer give "id\0" as written and "id" once corrected |
| SpanExtensions.GetToken | SQLibre/Extensions/System.Span.cs:15-42 | returns Token: the text after `index` separators (a negative index skips none), up to the next separator found at a positive distance, or the empty span when a separator is missing |
| SpanExtensions.SkipToken | SQLibre/Extensions/System.Span.cs:17-31 | the skipping loop ends at the offset of what remains after `index` separators, or reports that one is missing |
| SpanExtensions.SkipIsSuffix | SQLibre/Extensions/System.Span.cs:20-31 | what remains after skipping separators is a suffix of the text |
| SpanExtensions.TokenIsSlice | SQLibre/Extensions/System.Span.cs:15-42 | every token is a run of consecutive characters of the input |
| SpanExtensions.NoSeparatorEmptyToken | SQLibre/Extensions/System.Span.cs:22-26 | with a positive index and no separator in the text, the token is empty |
| SpanExtensions.TokenOfJoin | SQLibre/Extensions/System.Span.cs:15-42 | with a one-character separator that no part contains, token i of the joined parts is part i when that part is not empty |
| SpanExtensions.SkipJoin | SQLibre/Extensions/System.Span.cs:20-31 | skipping n separators of joined parts leaves the join of the parts from n on |
| SpanExtensions.Left | SQLibre/Extensions/System.Span.cs:44-50 | the empty span gives the empty span; a negative length on a non-empty span throws ArgumentOutOfRangeException naming no parameter, as the slice does; otherwise the first min(n, length) elements |
| SpanExtensions.Right | SQLibre/Extensions/System.Span.cs:52-58 | the empty span gives the empty span; a negative length on a non-empty span throws ArgumentOutOfRangeException naming no parameter, as the slice does; otherwise the last min(n, length) elements |
| SpanExtensions.LeftRightSplit | SQLibre/Extensions/System.Span.cs:44-58 | Left(k) followed by Right(length - k) is the whole span |
| SpanExtensions.FilterToString | SQLibre/Extensions/System.Span.cs:60-71 | copying the accepted characters into a buffer as long as the span yields Filter of the span |
| SpanExtensions.FilterAppend | SQLibre/Extensions/System.Span.cs:67-69 | filtering distributes over concatenation |
| SpanExtensions.FilterSound | SQLibre/Extensions/System.Span.cs:67-70 | the result is no longer than the span, every kept character passes the filter, and every kept character comes from the span |
| SpanExtensions.FilterComplete | SQLibre/Extensions/System.Span.cs:67-69 | every character of the span that passes the filter is kept |
| SpanExtensions.FilterKeepsAll | SQLibre/Extensions/System.Span.cs:60-71 | a filter that accepts every character keeps the span unchanged |
| KeyValuePairReader.Reader.constructor | SQLibre/Extensions/Internal/KeyValuePairReader.cs:20-32 | keeps the text and both separators, starts at offset 0, and replaces a missing filter with one that keeps every character |
| KeyValuePairReader.Reader.Read | SQLibre/Extensions/Internal/KeyValuePairReader.cs:34-55 | returns and advances exactly as ReadAt describes; the offset stays put when Read returns false or throws |
| KeyValuePairReader.TokenAtBounds | SQLibre/Extensions/Internal/KeyValuePairReader.cs:41-45 | the item is the slice from the offset to the first item separator, or to the end of the text when there is none |
| KeyValuePairReader.ReadAtEnd | SQLibre/Extensions/Internal/KeyValuePairReader.cs:36-39 | Read returns false, with the default pair, exactly when the offset is at or past the end |
| KeyValuePairReader.ReadAtItem | SQLibre/Extensions/Internal/KeyValuePairReader.cs:41-54 | before the end, Read throws "Wrong string format" exactly for a non-empty item without the key/value separator; otherwise it returns true and moves past the item and one separator; an empty item yields the default pair |
| KeyValuePairReader.ReadAtPair | SQLibre/Extensions/Internal/KeyValuePairReader.cs:46-52 | for a non-empty item, the key is the filtered text before the first key/value separator and the value the filtered text after it |
| KeyValuePairReader.ReadAdvances | SQLibre/Extensions/Internal/KeyValuePairReader.cs:53 | with a non-empty item separator every Read that returns true moves the offset forward |
| KeyValuePairReader.ReadItemFiltered | SQLibre/Extensions/Internal/KeyValuePairReader.cs:34-55 | the item "k=v;" is read as the filtered key and the filtered value, and the key stops at the first '=' |
| KeyValuePairReader.ReadItem | SQLibre/Extensions/Internal/KeyValuePairReader.cs:34-55 | when the filters keep every character, the item "k=v;" is read back as the pair (k, v) |
| KeyValuePairReader.ItemToken | SQLibre/Extensions/Internal/KeyValuePairReader.cs:41-45 | the text between the offset and the next ';' is the item read there |
| ConnectionStringReader.Reader.constructor | SQLibre/Common/Internal/ConnectionStringReader.cs:16-22 | keeps the text and both separators and starts at offset 0 |
| ConnectionStringReader.Reader.Read | SQLibre/Common/Internal/ConnectionStringReader.cs:24-45 | returns and advances exactly as this reader's ReadAt describes; the offset stays put when Read returns false or throws "Wrong string format" |
| ConnectionStringReader.SameAsUnfiltered | SQLibre/Common/Internal/ConnectionStringReader.cs:24-45 | at every offset this reader reads what the filtered reader reads with its default, accept-everything filters |
| ConnectionStringReader.GetToken | SQLibre/Common/Internal/ConnectionStringReader.cs:47-68 | empty from the end of the source on; a negative offset is out of range; otherwise the head token of the remainder |
| ConnectionStringReader.GetTokenStopsAtSeparator | SQLibre/Common/Internal/ConnectionStringReader.cs:56-67 | the token is a slice starting at the offset that ends at the end of the source or right before a separator, and holds no separator unless one sits at the offset |
| ConnectionStringReader.GetTokenSeparatorAtOffset | SQLibre/Common/Internal/ConnectionStringReader.cs:59-67 | a separator right at the offset does not end the token: the whole remainder is returned |
| DbOpenOptions.Make | SQLibre/Core/Handlers/DbOpenOptionscs.cs:36-42 | Path.GetFullPath throws ArgumentException for an empty path and for a path holding U+0000, with their messages; any other path is stored as its upper-cased full path, and the flags and VFS name are kept as given |
| DbOpenOptions.EqualsObjectOnlyForKeys | SQLibre/Core/Handlers/DbOpenOptionscs.cs:45 | Equals(object) is false for null and for any other type, and otherwise is Equals on the keys |
| DbOpenOptions.EqualsIgnoresVfs | SQLibre/Core/Handlers/DbOpenOptionscs.cs:44 | two keys are equal iff their flags and paths are; the VFS name plays no part |
| DbOpenOptions.EqualsIsEquivalence | SQLibre/Core/Handlers/DbOpenOptionscs.cs:44 | Equals is reflexive, symmetric and transitive |
| DbOpenOptions.EqualKeysEqualHashes | SQLibre/Core/Handlers/DbOpenOptionscs.cs:41-44 | equal keys have equal hashes, so GetHashCode is consistent with Equals |
| DbOpenOptions.HashWithinFlags | SQLibre/Core/Handlers/DbOpenOptionscs.cs:41 | the hash has no bit set that the open flags do not have |
| DbOpenOptions.CaseInsensitivePaths | SQLibre/Core/Handlers/DbOpenOptionscs.cs:38-44 | two accepted paths whose full forms differ only in ASCII letter case give equal keys |
| DbOpenOptions.PathIsCanonical | SQLibre/Core/Handlers/DbOpenOptionscs.cs:38 | the stored path of an accepted path is already upper-case |
| ConnectionOptions.TypedAsWritten | SQLibre/Common/SQLiteConnectionOptions.cs:141-158 | the typed constructor as written: it throws exactly for a key that is not null, a string or a byte array, or for a path GetFullPath refuses, and leaves OpenFlags at 0 while the pool key gets the flags given |
| ConnectionOptions.Typed | SQLibre/Common/SQLiteConnectionOptions.cs:141-158 | the corrected typed constructor: the key check and its message first, then the path error of the pool key; otherwise the pool key built from path, flags and VFS name; the flags, tick choices, format and key kept; the round-trip style exactly for the formats "o" and "r" in any case |
| ConnectionOptions.ParseBool | SQLibre/Common/SQLiteConnectionOptions.cs:181-195 | bool.TryParse gives true exactly for "True" and false exactly for "False", in any letter case, once white space and U+0000 are trimmed from both ends |
| ConnectionOptions.ParseBoolPadded | SQLibre/Common/SQLiteConnectionOptions.cs:181-195 | white space and U+0000 around "true" or "false" do not stop the value being read |
| ConnectionOptions.ParseBoolTab | SQLibre/Common/SQLiteConnectionOptions.cs:181-183 | "true" followed by a tab reads as true |
| ConnectionOptions.WithDefaults | SQLibre/Common/SQLiteConnectionOptions.cs:131-139 | the shorter constructors fail exactly where the typed one does, and otherwise use the default flags and format and store TimeSpan values as ticks (on the corrected typed constructor) |
| ConnectionOptions.TypedAsWrittenHashIsZero | SQLibre/Common/SQLiteConnectionOptions.cs:231-232 | as written, every options object the typed constructor builds (exactly those with an accepted path) has hash code 0, and with non-zero flags its OpenFlags disagree with its pool key |
| ConnectionOptions.TypedHashIsKeyHash | SQLibre/Common/SQLiteConnectionOptions.cs:231-232 | with the correction, the options built (exactly those with an accepted path) have OpenFlags that agree with the pool key and hash like the key |
| ConnectionOptions.ParseInt32 | SQLibre/Common/SQLiteConnectionOptions.cs:207 | a parsed 32-bit value is the integer the text denotes |
| ConnectionOptions.ApplyKey | SQLibre/Common/SQLiteConnectionOptions.cs:175-219 | a key outside the cases of the switch changes nothing, and the only exceptions are the two ArgumentExceptions for a ticks value that is not a boolean |
| ConnectionOptions.ApplyPairAsWritten | SQLibre/Common/SQLiteConnectionOptions.cs:173-175 | as written, the default pair an empty item yields throws NullReferenceException when its null key is upper-cased; any other pair goes to the switch |
| ConnectionOptions.ApplyPair | SQLibre/Common/SQLiteConnectionOptions.cs:173-175 | the corrected loop body passes over the default pair and otherwise does what the loop body as written does |
| ConnectionOptions.ReadPairShape | SQLibre/Common/SQLiteConnectionOptions.cs:162-173 | every pair read is the default pair or a key with a value, neither holding a space, and each read moves forward |
| ConnectionOptions.ParseFrom | SQLibre/Common/SQLiteConnectionOptions.cs:160-220 | the loop from an offset at or past the end keeps the settings it has; the only exceptions it lets out are the reader's "Wrong string format" and the two non-boolean ticks messages |
| ConnectionOptions.ReadConnectionString | SQLibre/Common/SQLiteConnectionOptions.cs:160-220 | the loop over the pairs computes ParseFrom from the initial values, stopping at the first exception; it passes over empty items (the corrected loop body) |
| ConnectionOptions.Finish | SQLibre/Common/SQLiteConnectionOptions.cs:221-225 | the pool key is built from the parsed path, flags and VFS name, so a path GetFullPath refuses, the initial empty one included, throws its ArgumentException; otherwise OpenFlags, the tick choices and the key are the parsed ones |
| ConnectionOptions.Options.constructor | SQLibre/Common/SQLiteConnectionOptions.cs:63-125 | the settings are fixed, with the command timeout given and UsingAutoCommit off |
| ConnectionOptions.NewTyped | SQLibre/Common/SQLiteConnectionOptions.cs:141-158 | throws what Typed rejects (the key, then the path); otherwise a fresh options object with Typed's settings |
| ConnectionOptions.NewFromConnectionString | SQLibre/Common/SQLiteConnectionOptions.cs:160-226 | throws what the loop throws, then what building the pool key throws; otherwise a fresh options object with the finished settings and the parsed command timeout |
| ConnectionOptions.EmptyConnectionString | SQLibre/Common/SQLiteConnectionOptions.cs:160-226 | an empty string gives the initial values (default flags, empty path, nothing stored as ticks), and the empty path then makes the constructor throw ArgumentException("The path is empty.") |
| ConnectionOptions.ReadOnlyFlagBits | SQLibre/Common/SQLiteConnectionOptions.cs:209-211 | READONLY sets the read-only bit, clears the read-write bit and keeps every other bit |
| ConnectionOptions.ReadOnlyIdempotent | SQLibre/Common/SQLiteConnectionOptions.cs:209-211 | applying READONLY twice is applying it once |
| ConnectionOptions.KeysIgnoreCase | SQLibre/Common/SQLiteConnectionOptions.cs:175 | keys that differ only in ASCII letter case act alike |
| ConnectionOptions.PlaceholderKeysIgnored | SQLibre/Common/SQLiteConnectionOptions.cs:212-218 | JOURNALMODE, ENCODING, UTF16ENCODING, CACHESIZE and PAGESIZE change nothing |
| ConnectionOptions.LastOccurrenceWins | SQLibre/Common/SQLiteConnectionOptions.cs:175-219 | a key given twice has the effect of its last occurrence |
| ConnectionOptions.NonBooleanTicksRejected | SQLibre/Common/SQLiteConnectionOptions.cs:181-195 | a value that bool.TryParse refuses (not "true" or "false" once white space and U+0000 are trimmed) throws, with the message of its key, for both ticks keys |
| ConnectionOptions.DateTimeFormatAndTimeout | SQLibre/Common/SQLiteConnectionOptions.cs:187-208 | DATETIMEFORMAT stores DateTime values as ticks iff its value is "Ticks" in any case; an unparsable COMMANDTIMEOUT gives 0 |
| ConnectionOptions.CommandTimeoutOfText | SQLibre/Common/SQLiteConnectionOptions.cs:206-208 | the decimal text of any 32-bit integer sets COMMANDTIMEOUT to that integer |
| ConnectionOptions.StyleOfFormats | SQLibre/Common/SQLiteConnectionOptions.cs:221-224 | when the options are built, the round-trip style is chosen iff the format is "o" or "r" in any case; the default format gives no style |
| ConnectionOptions.ParsedHashIsKeyHash | SQLibre/Common/SQLiteConnectionOptions.cs:225-232 | options built from a connection string hash like their pool key |
| ConnectionOptions.DataSourceOnly | SQLibre/Common/SQLiteConnectionOptions.cs:160-226 | the single item "Data Source=path;" sets the path and nothing else |
| ConnectionOptions.EmptyItemAsWrittenThrows | SQLibre/Common/SQLiteConnectionOptions.cs:173-175 | an empty item yields the default pair; as written, upper-casing its null key throws, and with the correction it is passed over |
| ConnectionOptions.LeadingSeparatorParsed | SQLibre/Common/SQLiteConnectionOptions.cs:160-226 | with the correction, the connection string ";" gives the initial values |
| ConnectionPool.IndexOfKey | SQLibre/Common/Internal/SQLiteConnectionPool.cs:46 | the index of the first stored key equal to the requested one, or -1 when no stored key is equal |
| ConnectionPool.IndexOfHandle | SQLibre/Common/Internal/SQLiteConnectionPool.cs:86-91 | the index of the first occurrence of the handle, and -1 exactly when it is absent |
| ConnectionPool.RemoveAtKeepsOthers | SQLibre/Common/Internal/SQLiteConnectionPool.cs:133-135 | RemoveAt drops exactly the element at the index; the others keep their order |
| ConnectionPool.DistinctRemoveAt | SQLibre/Common/Internal/SQLiteConnectionPool.cs:133 | removing an entry keeps the list free of repeats, adds nothing, and removes the handle |
| ConnectionPool.DistinctAppend | SQLibre/Common/Internal/SQLiteConnectionPool.cs:57-62 | appending a new handle keeps the list free of repeats |
| ConnectionPool.Pool.constructor | SQLibre/Common/Internal/SQLiteConnectionPool.cs:22-24 | the three lists start empty |
| ConnectionPool.Pool.GetConnection | SQLibre/Common/Internal/SQLiteConnectionPool.cs:39-74 | a pooled request whose key is stored gets the stored handle and changes nothing; otherwise a handle is opened, an open error throws, a failing callback throws and records nothing, and the new handle is appended to the pooled lists with its key or to the non-pooled list |
| ConnectionPool.Pool.RemoveInternal | SQLibre/Common/Internal/SQLiteConnectionPool.cs:126-136 | closes the handle at the index; a close error throws before anything is removed; otherwise the entry, and for the pooled list its key, is removed |
| ConnectionPool.Pool.Remove | SQLibre/Common/Internal/SQLiteConnectionPool.cs:81-104 | a non-pooled handle is closed and removed whatever fullRemove says; a pooled one only when fullRemove is set; an unknown handle changes nothing; after success the handle is in neither list |
| ConnectionPool.Pool.RemoveAll | SQLibre/Common/Internal/SQLiteConnectionPool.cs:106-124 | closes every pooled handle and then every non-pooled one, first to last, leaving all lists empty; a close error stops it after a prefix of that order |
| ConnectionPool.Pool.ClosePooled | SQLibre/Common/Internal/SQLiteConnectionPool.cs:111-112 | the first loop closes the pooled handles in order and empties both pooled lists, or stops at a close error after a prefix |
| ConnectionPool.Pool.CloseNonPooled | SQLibre/Common/Internal/SQLiteConnectionPool.cs:113-114 | the second loop closes the non-pooled handles in order and empties their list, or stops at a close error after a prefix |
| ConnectionPool.LookupFindsEqualKey | SQLibre/Common/Internal/SQLiteConnectionPool.cs:46-49 | when a stored key equals the request, the lookup finds that entry or an earlier equal one |
| ConnectionPool.LookupIgnoresVfs | SQLibre/Common/Internal/SQLiteConnectionPool.cs:46 | requests that differ only in VFS name find the same entry |
| Connection.Void | SQLibre/Common/SQLiteConnection.cs:71-94 | a call that drops Execute's code fails exactly when the Execute does, with its exception |
| Connection.RunCounts | SQLibre/Common/SQLiteConnection.cs:73-94 | a sequence of BeginTransaction, Commit and Rollback calls that gets through leaves the counter at its start plus the begins less the commits, less the rollbacks only when Rollback decrements |
| Connection.RunKeepsFlag | SQLibre/Common/SQLiteConnection.cs:73-94 | starting from 0 or 1, the transaction counter stays 0 or 1 |
| Connection.RollbackAsWrittenBlocksBegin | SQLibre/Common/SQLiteConnection.cs:89-94 | as written, begin then rollback leaves the counter at 1, and a second BeginTransaction throws "transaction already active" |
| Connection.RollbackAllowsBegin | SQLibre/Common/SQLiteConnection.cs:89-94 | with the decrement, begin then rollback returns to 0 and a new transaction can begin |
| Connection.Connection.constructor | SQLibre/Common/SQLiteConnection.cs:63-69 | the connection keeps its options and handle, is Open and counts no transaction |
| Connection.Connection.Execute | SQLibre/Common/SQLiteConnection.cs:96-97 | runs the text on the connection's handle once and returns what ExecuteInternal returns or throws |
| Connection.Connection.BeginTransaction | SQLibre/Common/SQLiteConnection.cs:73-79 | throws "transaction already active" at 1 and runs nothing; otherwise increments the counter and then runs "begin transaction;" |
| Connection.Connection.Commit | SQLibre/Common/SQLiteConnection.cs:81-87 | throws "transaction does not exist" at 0 and runs nothing; otherwise runs "commit transaction;" and decrements the counter only when that succeeds |
| Connection.Connection.RollbackAsWritten | SQLibre/Common/SQLiteConnection.cs:89-94 | Rollback as written: throws at 0; otherwise runs "rollback transaction;" and leaves the counter as it was |
| Connection.Connection.Rollback | SQLibre/Common/SQLiteConnection.cs:89-94 | the corrected Rollback: throws at 0; otherwise runs "rollback transaction;" and decrements the counter when that succeeds |
| Connection.Connection.Using | SQLibre/Common/SQLiteConnection.cs:102-147 | without auto-commit only the delegate runs; with it, success means begin, the delegate and commit ran in order from no transaction and back to none; on failure the corrected rollback runs after the failing step, and the exception that escapes is the failing step's when the rollback succeeds and the rollback's otherwise, with the counter back at 0 exactly when the rollback succeeds (as written the counter stays at 1) |
| Connection.Connection.InTransaction | SQLibre/Common/SQLiteConnection.cs:110-115 | the result is UnitOfWork's and the statements run are UnitOfWorkLog's: on success begin, the delegate and commit in order with the counter back at 0; on failure the exception of the first failing call, the statements up to it, and the counter at 1, as Rollback needs |
| Connection.UnitOfWork | SQLibre/Common/SQLiteConnection.cs:110-115 | the unit of work succeeds exactly when no transaction is counted and begin, the delegate's statement and commit all succeed, and then returns the delegate's code; with a transaction counted it throws "transaction already active" |
| Connection.UnitOfWorkLog | SQLibre/Common/SQLiteConnection.cs:110-115 | at most the three statements are sent, and none exactly when a transaction is already counted |
| Connection.Connection.Dispose | SQLibre/Common/SQLiteConnection.cs:151-155 | the connection is marked Closed |
| Connection.Connection.Close | SQLibre/Common/SQLiteConnection.cs:149 | Close is Dispose: the connection is marked Closed |
| Connection.NewConnection | SQLibre/Common/SQLiteConnection.cs:63-69 | a pooled connection whose key is stored reuses the stored handle with nothing run; otherwise a new handle is opened and the journal-mode PRAGMA runs on it; the new connection is Open with no transaction and its handle is recorded in the pool |
| Connection.DropDbAsWritten | SQLibre/Common/SQLiteConnection.cs:169-177 | as written: nothing without the file; otherwise the file is deleted, while a pooled handle stays in the pool and is never closed |
| Connection.DropDb | SQLibre/Common/SQLiteConnection.cs:169-177 | the corrected DropDb: nothing without the file; otherwise the handle is closed and removed from the pool, and the file is deleted |
| Connection.CreateDb | SQLibre/Common/SQLiteConnection.cs:179-204 | nothing when the file exists; otherwise open, check, journal-mode and encoding PRAGMAs stop at the first exception, the handle is always closed, and an exception from the close takes precedence |
| Transaction.CoerceAsWrittenKeeps | SQLibre/Common/SQLiteTransaction.cs:20-25 | as written, the level is ReadUncommitted or Serializable, and it is ReadUncommitted exactly when that was asked for and no flag besides the shared-cache one is set |
| Transaction.CoerceAsWrittenDropsReadUncommitted | SQLibre/Common/SQLiteTransaction.cs:20-25 | as written, ReadUncommitted is dropped for flags that name a read or write mode, as every connection string's flags do, the default flags included, although those turn the shared cache on |
| Transaction.TypedAsWrittenKeepsReadUncommitted | SQLibre/Common/SQLiteTransaction.cs:20-25 | as written, options from the typed constructor keep OpenFlags at 0, so the rule as written keeps ReadUncommitted for all of them |
| Transaction.CoerceKeeps | SQLibre/Common/SQLiteTransaction.cs:20-25 | the corrected rule keeps ReadUncommitted exactly when it was asked for and the shared cache is on, and settles on Serializable otherwise |
| Transaction.CoerceAgreesElsewhere | SQLibre/Common/SQLiteTransaction.cs:20-25 | both rules turn every other level into Serializable |
| Transaction.Transaction.constructor | SQLibre/Common/SQLiteTransaction.cs:17-25 | the transaction keeps its connection and level and is not completed |
| Transaction.Transaction.Complete | SQLibre/Common/SQLiteTransaction.cs:60-67 | ReadUncommitted is switched off when it was on; on success the connection's Transaction is cleared and the transaction is completed, and an exception leaves both as they were |
| Transaction.Transaction.Finish | SQLibre/Common/SQLiteTransaction.cs:38-58 | a completed transaction throws "has completed" and runs nothing; otherwise the statement runs, and Complete follows only when it succeeds |
| Transaction.Transaction.Commit | SQLibre/Common/SQLiteTransaction.cs:38-44 | throws once completed, changing nothing; otherwise runs "commit;" then Complete, and is completed, with the connection's Transaction cleared, exactly when both succeed; an exception leaves the connection's Transaction as it was |
| Transaction.Transaction.Rollback | SQLibre/Common/SQLiteTransaction.cs:52-58 | throws once completed, changing nothing; otherwise runs "rollback;" then Complete, and is completed, with the connection's Transaction cleared, exactly when both succeed; an exception leaves the connection's Transaction as it was |
| Transaction.Transaction.Dispose | SQLibre/Common/SQLiteTransaction.cs:46-50 | does nothing to a completed transaction; rolls back one that is not, returning the rollback's exception or else Complete's, with the connection's Transaction cleared exactly on success |
| Transaction.Begin | SQLibre/Common/SQLiteTransaction.cs:17-30 | the level is settled from the open flags by the corrected rule; "PRAGMA read_uncommitted = 1;" runs for ReadUncommitted, then "begin transaction;"; an exception from either means no transaction; otherwise a fresh, uncompleted transaction at that level |
| Column.New | SQLibre/Common/SQLiteColumn.cs:43-48 | a null name throws ArgumentNullException("name"); otherwise the name and type are kept and the hash is that of the upper-cased name |
| Column.EqualsIsHashEquality | SQLibre/Common/SQLiteColumn.cs:50-57 | == holds exactly when the hash codes are equal, so the column type plays no part; != is its negation; Equals is false for null and for other types |
| Column.EqIsEquivalence | SQLibre/Common/SQLiteColumn.cs:52-55 | == is reflexive, symmetric and transitive |
| Column.NamesIgnoreCase | SQLibre/Common/SQLiteColumn.cs:43-55 | columns whose names differ only in ASCII letter case are equal, whatever their types |
| Column.UpperNameHash | SQLibre/Common/SQLiteColumn.cs:47 | an upper-cased name hashes like the name itself |
| ColumnsCollection.FirstWithHash | SQLibre/Common/Internal/SQLiteColumnsCollection.cs:31-42 | the first position whose stored hash is the one sought, or -1 when no column has it |
| ColumnsCollection.Collection.constructor | SQLibre/Common/Internal/SQLiteColumnsCollection.cs:11-15 | a fresh array of colCount default columns |
| ColumnsCollection.Collection.Get | SQLibre/Common/Internal/SQLiteColumnsCollection.cs:19-21 | the column at the index, or IndexOutOfRangeException outside the array |
| ColumnsCollection.Collection.Set | SQLibre/Common/Internal/SQLiteColumnsCollection.cs:22 | replaces exactly that slot, leaving the others; outside the array it throws and changes nothing |
| ColumnsCollection.Collection.ColumnIndex | SQLibre/Common/Internal/SQLiteColumnsCollection.cs:31-42 | the loop returns the first position whose hash is that of the upper-cased name, or -1 |
| ColumnsCollection.Collection.GetByName | SQLibre/Common/Internal/SQLiteColumnsCollection.cs:25-27 | the column the name finds, or IndexOutOfRangeException for an unknown name |
| ColumnsCollection.Collection.SetByName | SQLibre/Common/Internal/SQLiteColumnsCollection.cs:25-28 | replaces the slot the name finds, or throws for an unknown name and changes nothing |
| ColumnsCollection.Collection.Clear | SQLibre/Common/Internal/SQLiteColumnsCollection.cs:50-54 | the array is replaced by a fresh empty one |
| ColumnsCollection.LookupIgnoresCase | SQLibre/Common/Internal/SQLiteColumnsCollection.cs:31-42 | names that differ only in ASCII letter case find the same position |
| ColumnsCollection.LookupFindsColumn | SQLibre/Common/Internal/SQLiteColumnsCollection.cs:31-42 | a column built from a name is found by that name, at its own position or at an earlier, equal column |
| ColumnsCollection.EmptyFindsNothing | SQLibre/Common/Internal/SQLiteColumnsCollection.cs:50-54 | once cleared, no name is found |
| Reader.PointerText | SQLibre/Common/SQLiteReader.cs:88 | a column name is null exactly for a null pointer, and otherwise the corrected ToString of the pointer's span |
| Reader.ReadCol | SQLibre/Common/SQLiteReader.cs:86-93 | a null column name throws ArgumentOutOfRangeException("index"); otherwise the column carries the name (decoded by the corrected ToString), the engine's type code and the hash of the upper-cased name |
| Reader.ReadColValue | SQLibre/Common/SQLiteReader.cs:95-104 | Integer boxes the int64, Float the double, Text the string decoded from every byte of the column_bytes span (null for an empty span), Blob the bytes (empty for a null pointer), Null gives null, and any other code throws InvalidCastException |
| Reader.TextCellKeepsFinalZero | SQLibre/Core/Raw.cs:148-153 | a TEXT value whose bytes are 61 62 00 reads as "ab" followed by U+0000: the final 0 byte column_bytes counts is decoded too |
| Reader.TextCellRoundTrip | SQLibre/Common/SQLiteReader.cs:95-104 | non-empty text without U+0000 stored as its UTF-8 bytes reads back as the same string |
| Reader.EmptyTextReadsNull | SQLibre/Common/SQLiteReader.cs:100 | an empty TEXT value reads as null, like a NULL |
| Reader.ReadAsWrittenReportsStaleRow | SQLibre/Common/SQLiteReader.cs:46-84 | as written, once Values has been read at one row, the next row reports the earlier row's values |
| Reader.ReadReportsCurrentRow | SQLibre/Common/SQLiteReader.cs:46-84 | with the cache dropped at every row, Values reports the current row |
| Reader.Convert | SQLibre/Common/SQLiteReader.cs:138-251 | the typed getters, once the guard passes, throw only OverflowException, and only the narrowing getters and GetDecimal do; GetString's text is the column's whole span decoded, as ReadColValue's |
| Reader.Narrow | SQLibre/Common/SQLiteReader.cs:144-202 | a narrowing conversion succeeds exactly when the number is in the target's range, keeps the number, and throws OverflowException otherwise |
| Reader.NarrowingGettersKeepNumber | SQLibre/Common/SQLiteReader.cs:144-202 | GetByte, GetSByte, GetInt16, GetUInt16, GetUInt32 and GetUInt64 succeed exactly when the column's number fits the type, and then return it |
| Reader.DateTimeOf | SQLibre/Common/SQLiteReader.cs:265-275 | the exact format is tried first, then a general parse; when both fail InvalidCastException carries the text, or for a NULL cell the default message of an exception built with a null message |
| Reader.TicksToDateTime | SQLibre/Common/SQLiteReader.cs:257-258 | ticks between 0 and DateTime.MaxValue.Ticks make that DateTime, and any other value throws |
| Reader.Reader.constructor | SQLibre/Common/SQLiteReader.cs:27-36 | the reader keeps the statement and the connection's date settings, and has no table and no cached values |
| Reader.Reader.BuildTable | SQLibre/Common/SQLiteReader.cs:53-59 | a fresh table of column_count columns; it succeeds exactly when every column has a name, and then each slot holds ReadCol of its position; otherwise a nameless column throws |
| Reader.Reader.Advance | SQLibre/Common/SQLiteReader.cs:46-67 | steps once; without a row the table and cache are dropped and false is returned; on the first row the table is built; later rows keep the table |
| Reader.Reader.ReadAsWritten | SQLibre/Common/SQLiteReader.cs:46-67 | Read as written: on a row after the first the cached values are kept |
| Reader.Reader.Read | SQLibre/Common/SQLiteReader.cs:46-67 | the corrected Read returns true exactly on a row whose table exists or can be built, throws ArgumentOutOfRange("index") exactly when a new table meets a nameless column, and drops the cache on every row |
| Reader.Reader.Values | SQLibre/Common/SQLiteReader.cs:69-84 | a cached array is returned as it is; without a table the call throws; otherwise each column is read as its recorded type into a fresh array, which is cached |
| Reader.Reader.ItemAt | SQLibre/Common/SQLiteReader.cs:40-41 | refused without a table; otherwise element index of Values, out of range outside it; with no cache yet, Values fills a new cache of the table's length with the row's values (InvalidCastException when a column type is unknown) |
| Reader.Reader.ItemNamed | SQLibre/Common/SQLiteReader.cs:43-44 | refused without a table; otherwise the element of Values at the name's ColumnIndex, so an unknown name is out of range; with no cache yet, Values fills a new cache of the table's length with the row's values, and an unknown column type throws InvalidCastException |
| Reader.Reader.GetValue | SQLibre/Common/SQLiteReader.cs:132-137 | refused without a table; otherwise the column read as its recorded type, out of range outside the table |
| Reader.Reader.Get | SQLibre/Common/SQLiteReader.cs:138-251 | each typed getter is refused, under its own name, without a table, and otherwise converts the column as its C# counterpart does |
| Reader.Reader.GetUtf8String | SQLibre/Common/SQLiteReader.cs:232-237 | refused without a table; otherwise the column_bytes span, which reads as the column's text |
| Reader.Reader.GetDateTimeAsWritten | SQLibre/Common/SQLiteReader.cs:253-263 | as written, without a table the message names GetString |
| Reader.Reader.GetDateTime | SQLibre/Common/SQLiteReader.cs:253-263 | refused under its own name without a table; with ticks stored, the int64 as ticks; otherwise the text parsed |
| Reader.Reader.IsNull | SQLibre/Common/SQLiteReader.cs:277-282 | refused without a table; otherwise whether the recorded type is Null, out of range outside the table |
| Reader.Reader.Dispose | SQLibre/Common/SQLiteReader.cs:119-129 | resets the statement and throws what the reset reports; on success the table is dropped |
| Reader.GetDateTimeAsWrittenMisnamed | SQLibre/Common/SQLiteReader.cs:253-256 | without a table, GetDateTime as written throws GetString's message rather than its own |
| Reader.BoolReadsBack | SQLibre/Common/SQLiteReader.cs:138-143 | a bool bound as its integer reads back as the same bool |
| Reader.DateTimeTicksReadBack | SQLibre/Common/SQLiteReader.cs:253-258 | with ticks stored, a DateTime bound as its ticks reads back as the same ticks |
| Reader.StepErrorSurfacesAtDispose | SQLibre/Common/SQLiteReader.cs:46-67 | a failed step makes Read return false, and the reset in Dispose throws with that step's code |
| Marshal.ToBound | SQLibre/Common/SQLIteCommand.cs:40-111 | each typed Bind overload reaches its sqlite3_bind_* function: NULL exactly for the null overload, the int bind exactly for int and bool, the double bind exactly for double, the blob bind exactly for byte arrays, and never a zero blob |
| Marshal.Dispatch | SQLibre/Common/SQLiteCommandBinding.cs:356-393 | the object overload refuses exactly the values of an unsupported type, with ArgumentException "Parameter of type T not supported", and reaches the null overload exactly for null and DBNull |
| Marshal.IntListRoundTrip | SQLibre/Common/SQLiteCommandBinding.cs:34-35 | the bracketed, comma-separated literal of an int or long list reads back as the same list |
| Marshal.IntAndLongListsAgree | SQLibre/Common/SQLiteCommandBinding.cs:34-35 | a list of ints and the same list as longs bind the same text |
| Marshal.StringListIsQuotedJoin | SQLibre/Common/SQLiteCommandBinding.cs:37 | the string-list literal is the quoted elements joined by commas in brackets, and "[]" for the empty list is the same rule |
| Marshal.StringListUnescaped | SQLibre/Common/SQLiteCommandBinding.cs:37 | elements are not escaped, so one element holding quote, comma, quote binds like two elements |
| Marshal.BoolBindsOneOrZero | SQLibre/Common/SQLiteCommandBinding.cs:29 | a bool binds the int 1 or 0, and that int is non-zero exactly for true |
| Marshal.TimesFollowSetting | SQLibre/Common/SQLiteCommandBinding.cs:40-45 | DateTime and TimeSpan both bind their ticks as int64 exactly when StoreDateTimeAsTicks is on; otherwise a DateTime binds its text in the connection's format, through sqlite3_bind_text |
| Marshal.TextBindCutsAtNul | SQLibre/Core/Raw.cs:125-130 | sqlite3_bind_text passes the zero-terminated encoding with length -1, so the text bound is the text before its first U+0000, all of a text without one |
| Marshal.NullsBindNull | SQLibre/Common/SQLiteCommandBinding.cs:356-381 | the object overload binds NULL exactly for null and DBNull |
| Marshal.UnsupportedRefused | SQLibre/Common/SQLiteCommandBinding.cs:383-393 | exactly the values of an unsupported type are refused, with ArgumentException "Parameter of type T not supported" |
| Marshal.EnumBindsAsUnderlying | SQLibre/Common/SQLiteCommandBinding.cs:362-375 | an enum reports the type code of its underlying type and so binds exactly as that integral value does |
| Marshal.IntegralKeepsNumber | SQLibre/Common/SQLiteCommandBinding.cs:366-374 | every integral value except ulong, and a char, binds as an int or an int64 holding its number |
| Marshal.WideValuesBindDouble | SQLibre/Common/SQLiteCommandBinding.cs:375-378 | decimal, float and ulong values bind through the double overload |
| Context.RefCounter.constructor | SQLibre/Common/SQLIteCommand.cs:15-17 | the process-wide command counter starts at zero |
| Context.RefCounter.Add | SQLibre/Common/SQLIteCommand.cs:18 | the counter becomes its old value plus one with 32-bit wrap-around, and the new value is returned |
| Context.RefCounter.Remove | SQLibre/Common/SQLIteCommand.cs:19 | the counter becomes its old value minus one with 32-bit wrap-around, and the new value is returned |
| Context.AddRemoveCancel | SQLibre/Common/SQLIteCommand.cs:18-19 | an increment followed by a decrement restores every 32-bit counter value, including at the wrap-around edge |
| Context.Without | SQLibre/Common/SQLiteContext.cs:134-144 | removing every entry equal to a command never lengthens the registry |
| Context.WithoutMembers | SQLibre/Common/SQLiteContext.cs:134-144 | after removal, an entry is present exactly when it was present before and is not the removed command |
| Context.WithoutDistinct | SQLibre/Common/SQLiteContext.cs:134-144 | removal keeps a registry without duplicates free of duplicates |
| Context.WithoutAt | SQLibre/Common/SQLiteContext.cs:141 | in a registry without duplicates, removing a command deletes exactly its one position |
| Context.WithoutAbsent | SQLibre/Common/SQLiteContext.cs:134-144 | removing a command that is not registered leaves the registry unchanged |
| Context.WithoutAppended | SQLibre/Common/SQLiteContext.cs:131-144 | registering a command and then removing it restores the registry as it was |
| Context.Bindings | SQLibre/Common/SQLiteContext.cs:53-60 | the parameter list pairs up into half as many (name, value) bindings |
| Context.BindingsPairs | SQLibre/Common/SQLiteContext.cs:53-60 | binding j is the string at position 2j together with the value at position 2j+1 |
| Context.BindingsExtend | SQLibre/Common/SQLiteContext.cs:53-60 | appending a value after an odd-length list adds one binding under the last name; after an even-length list it adds none |
| Context.WalkPrefix | SQLibre/Common/SQLiteContext.cs:53-60 | the walk over the parameters depends only on where it stands, so a successful prefix can be skipped |
| Context.NullNameRefused | SQLibre/Common/SQLiteContext.cs:56 | a null at a name position, with every earlier step succeeding, ends the loop with ArgumentNullException("parameters") |
| Context.NonStringNameRefused | SQLibre/Common/SQLiteContext.cs:56 | a non-string at a name position, with every earlier step succeeding, ends the loop with InvalidCastException |
| Context.TrailingNameUnbound | SQLibre/Common/SQLiteContext.cs:53-60 | a trailing name with no value after it binds nothing and changes neither the outcome nor the bindings |
| Context.BoundAfterIsBindAll | SQLibre/Common/SQLiteContext.cs:53-60 | the parameters bound after the loop's first i steps are the in-order application of the bindings of the first i elements |
| Context.BindAllSnoc | SQLibre/Common/SQLiteContext.cs:53-60 | binding one more pair applies that pair on top of all the earlier ones |
| Context.StepOutcome | SQLibre/Common/SQLIteCommand.cs:271-289 | Execute succeeds exactly when the step code is a success, returns the changed-row count then, and otherwise the error CheckOK raises |
| Context.NoRowOutcome | SQLibre/Common/SQLIteCommand.cs:291-299 | without a row, ExecuteScalar gives the default value exactly when the step succeeded, and otherwise the error the reader raises |
| Context.Command.constructor | SQLibre/Common/SQLIteCommand.cs:30-37 | the command keeps its context and the statement prepare produced |
| Context.Command.BindIndex | SQLibre/Common/SQLIteCommand.cs:40-111 | a typed bind by index applies the marshalled value at that index, returns the command, and leaves the cursor and finalization alone |
| Context.Command.BindName | SQLibre/Common/SQLIteCommand.cs:112-209 | a typed bind by name fails with ArgumentOutOfRangeException("paramName") exactly when the index is not positive, binding nothing; otherwise it binds at the resolved index |
| Context.Command.BindObject | SQLibre/Common/SQLIteCommand.cs:217-257 | binding an object succeeds exactly when its runtime type is supported, binds the overload that type selects, and otherwise throws and binds nothing |
| Context.Command.BindNameObject | SQLibre/Common/SQLIteCommand.cs:210-216 | the name is resolved first, then the object is dispatched; the outcome and the new bindings are those of one Execute loop step |
| Context.Command.ExecuteReader | SQLibre/Common/SQLIteCommand.cs:262-263 | a fresh reader over this statement with the connection's date and time settings and no columns read yet |
| Context.Command.Execute | SQLibre/Common/SQLIteCommand.cs:271-289 | the result is the step's outcome checked against the connection's error state; the statement is reset whatever happens, and its bindings kept |
| Context.Command.ExecuteScalar | SQLibre/Common/SQLIteCommand.cs:291-299 | a null statement gives the default value; a step without a row gives NoRowOutcome; a row gives RowOutcome, column 0 of that row, since the reader's dispose after a row never throws; the statement ends reset |
| Context.RowOutcome | SQLibre/Common/SQLIteCommand.cs:291-299 | with a row, a nameless column makes building the table throw ArgumentOutOfRange("index"), a statement without columns makes GetValue(0) throw IndexOutOfRange, and otherwise column 0 is read as its own type |
| Context.ScalarOfInteger | SQLibre/Common/SQLIteCommand.cs:295-296 | a first cell holding the INTEGER n makes ExecuteScalar return n boxed as a long |
| Context.Command.Dispose | SQLibre/Common/SQLIteCommand.cs:301-308 | the result is the finalize code checked; only on success is the command unregistered from its context and the counter decremented |
| Context.NewCommand | SQLibre/Common/SQLIteCommand.cs:30-37 | construction succeeds exactly when prepare succeeds; a failure raises the code's error without counting, a success counts the command once and gives a fresh unbound statement |
| Context.Context.constructor | SQLibre/Common/SQLiteContext.cs:19-22 | a new context has an empty command registry |
| Context.Context.AddCommand | SQLibre/Common/SQLiteContext.cs:131-132 | one more registry entry, at the end |
| Context.Context.RemoveCommand | SQLibre/Common/SQLiteContext.cs:134-144 | the registry afterwards is the old one without every entry for the command, in the same order, and still without duplicates |
| Context.Context.CreateCommand | SQLibre/Common/SQLiteContext.cs:110-115 | success exactly when prepare succeeds; a new command is appended to the registry and counted, and a failure changes neither |
| Context.Context.ClearCommandsCollection | SQLibre/Common/SQLiteContext.cs:117-129 | when every Dispose succeeds the registry ends empty and every live command's statement is finalized; a failure leaves a prefix of the registry |
| Context.Context.Dispose | SQLibre/Common/SQLiteContext.cs:26-30 | disposing the context clears the registry, or leaves a prefix of it when a command fails to dispose |
| Context.Context.BeginTransaction | SQLibre/Common/SQLiteContext.cs:34 | delegates to the connection: InvalidOperationException while a transaction is active, otherwise the counter goes up and the result is the BEGIN statement's outcome |
| Context.Context.Commit | SQLibre/Common/SQLiteContext.cs:36 | delegates to the connection: InvalidOperationException without a transaction, otherwise the COMMIT statement's outcome, with the counter going down only when it succeeds |
| Context.Context.Rollback | SQLibre/Common/SQLiteContext.cs:38 | delegates to the connection: InvalidOperationException without a transaction, otherwise the ROLLBACK statement's outcome, with the counter going down only when it succeeds (the corrected rollback) |
| Context.Context.ExecuteText | SQLibre/Common/SQLiteContext.cs:40-41 | the text goes to sqlite3_exec once on the connection's handle and the result is that call's outcome |
| Context.Context.BindParameters | SQLibre/Common/SQLiteContext.cs:53-60 | the loop's outcome is the walk over the parameter list; on success every name is a string and the statement holds all bindings applied in order |
| Context.Context.BindParameter | SQLibre/Common/SQLiteContext.cs:55-58 | one loop step: a name position yields the next name or refuses a null or non-string, and a value position binds under the current name |
| Context.Context.ExecuteWith | SQLibre/Common/SQLiteContext.cs:46-63 | a prepare failure, then a binding failure, then the step outcome decides the result; the command is disposed, so the registry and the counter are as before |
| Context.Context.ExecuteScalar | SQLibre/Common/SQLiteContext.cs:65-88 | as ExecuteWith, with the default value for an empty statement, NoRowOutcome for a first step without a row, and RowOutcome of the prepared statement and its first step for a row; the registry and the counter are as before |
| Context.Context.ExecuteReader | SQLibre/Common/SQLiteContext.cs:90-106 | after a successful prepare the command stays registered even when binding fails, and success gives a fresh reader over that command's statement |
| CommandBinding.FirstRefusal | SQLibre/Common/SQLiteCommandBinding.cs:57-64 | the by-index loop stops at the first statement whose bind code is not SQLITE_OK: every earlier statement accepted the bind |
| CommandBinding.FirstNamedRefusal | SQLibre/Common/SQLiteCommandBinding.cs:344-353 | the checked by-name loop stops at the first statement that has the parameter and refuses the bind; statements without the parameter never stop it |
| CommandBinding.SteppedStatementStops | SQLibre/Common/SQLiteCommandBinding.cs:57-64 | a statement that has been stepped and not reset refuses the bind, so the by-index loop throws there at the latest |
| CommandBinding.ReadyStatementsAccept | SQLibre/Common/SQLiteCommandBinding.cs:57-64 | when every statement is open, unstepped and has the parameter position, a by-index bind reaches every statement |
| CommandBinding.UnnamedNeverRefuse | SQLibre/Common/SQLiteCommandBinding.cs:344-353 | a by-name bind on statements that lack the parameter is never refused |
| CommandBinding.Command.constructor | SQLibre/Common/SQLiteCommandBinding.cs:16-17 | the command keeps its list of distinct prepared statements and the connection's settings |
| CommandBinding.Command.BindEach | SQLibre/Common/SQLiteCommandBinding.cs:57-64 | by index: the value is bound in every statement in order up to the first refusal, whose code is thrown; later statements keep their bindings, and no cursor moves |
| CommandBinding.Command.BindIndex | SQLibre/Common/SQLiteCommandBinding.cs:57-182 | the typed Bind(int, T) overloads bind the marshalled value in each statement until the first refusal and fail exactly when one refuses |
| CommandBinding.Command.BindZeroBlob | SQLibre/Common/SQLiteCommandBinding.cs:48-56 | a zero-filled blob of the given size is bound in each statement until the first refusal, which throws |
| CommandBinding.Command.BindObject | SQLibre/Common/SQLiteCommandBinding.cs:183-191 | an empty list binds nothing and succeeds; otherwise an unsupported type throws before anything is bound, and a supported one binds as the typed overload would |
| CommandBinding.Command.BindEachNamed | SQLibre/Common/SQLiteCommandBinding.cs:204-214 | by name: each statement that has the parameter is bound at its own index when it accepts, the native code is ignored, and other statements are untouched |
| CommandBinding.Command.BindName | SQLibre/Common/SQLiteCommandBinding.cs:204-343 | the typed Bind(string, T) overloads never fail; a statement without the parameter keeps its bindings and one that accepts gets the marshalled value |
| CommandBinding.Command.BindZeroBlobNamed | SQLibre/Common/SQLiteCommandBinding.cs:194-203 | a zero-filled blob is bound in every statement that has the parameter and accepts it; the codes are ignored |
| CommandBinding.Command.BindEachNamedChecked | SQLibre/Common/SQLiteCommandBinding.cs:344-353 | the checked by-name loop succeeds exactly when no statement that has the parameter refuses, binding those before the first refusal |
| CommandBinding.Command.AnyNamed | SQLibre/Common/SQLiteCommandBinding.cs:348-350 | true exactly when some statement of the list has a parameter of that name |
| CommandBinding.Command.BindNameObject | SQLibre/Common/SQLiteCommandBinding.cs:344-353 | an unsupported type throws exactly when some statement has the parameter and binds nothing; a supported one binds like the checked by-name loop |
| Blob.Precheck | SQLibre/Common/SQLiteBlob.cs:65-72 | opening succeeds past the checks exactly when the connection is open and both names are non-empty; otherwise InvalidOperationException, then ArgumentNullException for the table name, then for the column name, in that order |
| Blob.StringNamesChecked | SQLibre/Common/SQLiteBlob.cs:37-45 | through the string overload a null table or column name is refused as null, while any non-null name, even an empty one, passes the checks |
| Blob.Clamp | SQLibre/Common/SQLiteBlob.cs:167-171 | the working position is the stream position when it is within the cell and the cell's length when it is past the end |
| Blob.ReadCount | SQLibre/Common/SQLiteBlob.cs:173-177 | a read delivers the smaller of the buffer's size and the bytes left after the clamped position, never reaching past the cell, and nothing at or past the end |
| Blob.SeekTarget | SQLibre/Common/SQLiteBlob.cs:188-204 | Begin targets the offset, Current the position plus the offset, End the length plus the offset, in unchecked long arithmetic (a sum past long.MaxValue wraps to a negative target, one below long.MinValue to a non-negative one), and any other origin throws NotSupportedException("origin") |
| Blob.SeekCurrentOverflowRefused | SQLibre/Common/SQLiteBlob.cs:196-207 | a Current seek past long.MaxValue wraps to a negative target, which is then refused |
| Blob.WriteOutcomeAsWritten | SQLibre/Common/SQLiteBlob.cs:260-285 | the span write without a disposed check: a read-only blob throws NotSupportedException("Write"), a write that would grow the cell throws NotSupportedException("Method Resize not supported"), and success needs the native write to succeed |
| Blob.WriteOutcome | SQLibre/Common/SQLiteBlob.cs:245-248 | with the disposed check added, a disposed blob throws ObjectDisposedException and any other blob behaves as the span write |
| Blob.WriteAfterDisposeAsWritten | SQLibre/Common/SQLiteBlob.cs:260-285 | a one-byte write to a disposed writable blob through the span overload reaches the native call on the empty handle instead of throwing ObjectDisposedException |
| Blob.WriteAfterDisposeRefused | SQLibre/Common/SQLiteBlob.cs:245-248 | with the check, every write to a disposed blob throws ObjectDisposedException |
| Blob.Overwrite | SQLibre/Common/SQLiteBlob.cs:279-283 | a write replaces exactly the bytes at the write position and leaves the cell's length and every other byte as they were |
| Blob.OverwriteWithOwnBytes | SQLibre/Common/SQLiteBlob.cs:279-283 | writing back bytes just read from the same place leaves the cell unchanged |
| Blob.OverwriteTwice | SQLibre/Common/SQLiteBlob.cs:279-283 | of two writes of the same size at the same place, the later one wins |
| Blob.Blob.constructor | SQLibre/Common/SQLiteBlob.cs:74-85 | a new blob is at position 0 with the writability, handle and bytes the open gave, and its length is the cell's size |
| Blob.Blob.SetPosition | SQLibre/Common/SQLiteBlob.cs:95-104 | a negative position throws ArgumentOutOfRangeException("value") and keeps the position; any other value becomes the position |
| Blob.Blob.ReadSpan | SQLibre/Common/SQLiteBlob.cs:160-186 | a disposed blob throws; otherwise the clamped read count of bytes from the clamped position is copied to the front of the span and the position advances by it, or a failing native read throws and changes nothing |
| Blob.Blob.Read | SQLibre/Common/SQLiteBlob.cs:121-145 | null buffer, negative offset, negative count and a window past the buffer are refused in that order (the window test on the 32-bit sum); for a window inside the buffer, a disposed blob throws ObjectDisposedException("SQLiteBlob"), a native error is CheckOK's exception with position and buffer unchanged, and on success min(count, bytes left) bytes from the clamped position land at the offset, the position advances by that count and the count is returned |
| Blob.Blob.WriteSpanAsWritten | SQLibre/Common/SQLiteBlob.cs:260-285 | the cell becomes the old cell overwritten at the clamped position and the position advances by the span's length, or nothing changes and the span write's error is thrown |
| Blob.Blob.WriteSpan | SQLibre/Common/SQLiteBlob.cs:260-285 | as the span write, but a disposed blob throws ObjectDisposedException and nothing changes |
| Blob.Blob.Write | SQLibre/Common/SQLiteBlob.cs:222-251 | null buffer, negative offset, negative count, a window past the buffer and a disposed blob are refused in that order; otherwise the window's bytes overwrite the cell at the clamped position |
| Blob.Blob.Seek | SQLibre/Common/SQLiteBlob.cs:188-210 | an unknown origin throws and a negative target throws IOException("SeekBeforeBegin"), both keeping the position; any other target becomes the position and is returned |
| Blob.Blob.SetLength | SQLibre/Common/SQLiteBlob.cs:212-213 | resizing always throws NotSupportedException |
| Blob.Blob.Dispose | SQLibre/Common/SQLiteBlob.cs:293-304 | the first dispose closes the native blob and clears the handle when the close succeeds, throwing and keeping the handle otherwise; a second dispose does nothing |
| Blob.Open | SQLibre/Common/SQLiteBlob.cs:57-86 | the checks come first; past them the blob opens read-write with flag 1 or read-only with flag 0, succeeds exactly when the native open succeeds, and starts at position 0 over the cell's bytes |
| Blob.OpenMain | SQLibre/Common/SQLiteBlob.cs:37-45 | the string overload opens in the main database with the names as UTF-8, refusing a closed connection, then a null table name, then a null column name |

## Left out

- Concurrency: the pool's `Monitor` lock (and its ignored `TryEnter` result), the `Interlocked` counters and the assembly-unloading hook are left out; every operation is sequential.
- Garbage collection: whether a weak reference's target is alive is a set of live commands passed in by the caller; `GC.SuppressFinalize` has no counterpart.
- Floating point, culture and date/time text: `double`/`float`/`decimal` conversions, the invariant-culture double text, and `DateTime`/`TimeSpan` `ToString`, `TryParseExact` and `TryParse` are uninterpreted fields of `Clr.Conversions`.
- File system: `File.Exists` is a set of existing paths, and `File.Delete` removes from it. `Path.GetFullPath` refuses an empty path or one holding U+0000, as modelled in `DbOpenOptions.Make`; beyond that it is a function parameter.
- Make (DbOpenOptions.Make): a null path (ArgumentNullException) cannot arise, since a Dafny `string` is never null. The platform-specific refusals of `Path.GetFullPath`, such as a path of white space on Windows, are not modelled. The two messages are those of current .NET; other runtime versions word them differently.
- `string.GetHashCode` is randomised per process; the model uses one fixed deterministic `Text.StringHash`, so only facts that hold for any hash function are claimed from it.
- `string.ToUpper` is culture-sensitive; the model upper-cases ASCII letters only.
- The native engine's semantics (SQL execution, prepare, blob storage) are scripted by oracles in `Native`; `sqlite3_errstr` and `sqlite3_errmsg` are oracle functions of the code and the handle, giving the text before the terminator, as the corrected `Utf8z.ToString` reads it.
- The native bindings (`Raw.cs`, `DbHandle.cs`) other than their constants and the open/close behaviour the pool relies on, the JSON extension methods and the test console are not part of this model.
- `Config`, `EnableWriteAhead`, `LastInsertRowId`, `ExecuteAsync` and the `Sql` property are thin forwards to the engine and are not modelled.
- The `SQLiteColumnCollection` enumerator is not modelled; a negative column count from the engine cannot arise, because the count is a `nat`.
- CheckOK (SQLiteException.CheckOK): the native texts are taken as the corrected `Utf8z.ToString` reads them. As written, `(Utf8z)sqlite3_errstr(r)` and `(Utf8z)p` (`SQLiteException.cs:52`, `:59`) become strings through the `Utf8z.ToString` that keeps the terminator (Findings, row 2). So the errstr text is followed by U+0000 before the space and the suffix, and the errmsg text ends in U+0000.
- CheckCode (SQLiteException.CheckCode): it is CheckOK on the empty handle, so as written its errstr text is also followed by U+0000.
- ExecOutcome (Execution.ExecOutcome): the message is decoded by the corrected `Utf8z.ToString`; as written (`SQLiteConnection.cs:162`) the exception's message ends in U+0000 (Findings, row 2).
- ExecuteInternal (Execution.ExecuteInternal): it throws the message ExecOutcome decodes, so it has the same corrected decoding; as written the message ends in U+0000.
- MessageOfEncoded (Execution.MessageOfEncoded): it states the corrected decoding; as written the text is followed by U+0000.
- PointerText (Reader.PointerText): column names are decoded by the corrected `Utf8z.ToString`; as written (`SQLiteReader.cs:88`) every name ends in U+0000, so looking a column up by its plain name misses.
- ReadCol (Reader.ReadCol): it carries PointerText's corrected name and the hash of that name; as written both include the trailing U+0000.
- ToStringAsWritten (Utf8z.ToStringAsWritten) and ToString (Utf8z.ToString) inherit the limits of `Utf8z.Decode`, listed next.
- Decode (Utf8z.Decode): only `Encoding.UTF8` with its default U+FFFD replacement is modelled, not the other decoder fallbacks .NET allows.
- FromString (Utf8z.FromString) and Encode (Utf8z.Encode): a C# string may hold unpaired surrogates, which `Encoding.UTF8` replaces by EF BF BD; Dafny's `char` excludes surrogates, so only well-formed strings are modelled.
- WithDefaults (ConnectionOptions.WithDefaults): it chains to the corrected typed constructor; as written the chained constructor leaves OpenFlags at 0 (Findings, row 6), so `CreateDb`, which opens with `(int)options.OpenFlags`, passes flags 0.
- NewTyped (ConnectionOptions.NewTyped): it builds the settings with the corrected `Typed`; as written OpenFlags stay 0 and the hash code is 0 (`TypedAsWritten`, `TypedAsWrittenHashIsZero`).
- ReadConnectionString (ConnectionOptions.ReadConnectionString): the loop passes over empty items with the corrected `ApplyPair`; as written any empty item, as in "a=b;;c=d", throws NullReferenceException (`ApplyPairAsWritten`, Findings, row 5).
- NewFromConnectionString (ConnectionOptions.NewFromConnectionString): it runs the corrected loop, so it inherits ReadConnectionString's difference.
- Begin (Transaction.Begin): the level is settled by the corrected `Coerce`; as written (`CoerceAsWritten`) ReadUncommitted is dropped for every connection-string option set, and kept for every typed one, whose OpenFlags stay 0 (`TypedAsWrittenKeepsReadUncommitted`).
- Rollback (Context.Context.Rollback): it forwards to the corrected `Connection.Connection.Rollback`; as written the counter stays at 1 after a rollback (`RollbackAsWritten`, Findings, row 1).
- Using (Connection.Connection.Using): its failure path ends with the corrected rollback, so the counter returns to 0; as written it stays at 1. The delegate is modelled by its outcome (success or the exception it throws), not as code run by the connection.
- `Connection.NewConnection`: the journal mode is the enumeration's default, `DELETE`, because the options carry none.
- `ConnectionOptions.ParseInt32`: `int.TryParse` is modelled for the invariant culture's plain decimal form (optional sign, ASCII digits); leading and trailing white space, thousands separators and other number styles are not.
- `Marshal.WideValuesBindDouble`: the conversions of `ulong`, `float` and `decimal` to `double` are uninterpreted, so no claim is made about the number bound.
- `Marshal.EnumBindsAsUnderlying`: `Type.GetTypeCode` of an enum is that of its underlying type, so the `type.IsEnum` branch of the dispatch is unreachable and is not modelled separately.
- `Context.Context.ExecuteScalar`: the cast of the value to `T` is not modelled; the boxed value is returned.
- `Context.Command.ExecuteScalar`: the same; the cast to `T` is not modelled and the boxed value is returned.
- `Context.NonStringNameRefused`: the message of the `InvalidCastException` raised by the runtime is a fixed constant, not the runtime's text.
- `Context.Context.BindParameters`: parameter values are restricted to well-formed boxed values (a `TypeCode` consistent with the payload), which every CLR object is.
- `Blob.Blob.Read`: when `AsSpan` refuses a window whose 32-bit sum wrapped, the runtime's `ArgumentOutOfRangeException` is modelled with an empty parameter name.
- `Blob.Blob.ReadSpan`: on a failing native read the buffer is modelled as unchanged; the engine may have written part of it.
- `Blob.Open`: a native handle returned with a failing open code is not closed, as in the source; the model does not track that leak.
- `CanRead`, `CanSeek` and `Flush` of the blob stream are constants or no-ops and are not modelled.
- `CommandBinding.Command.constructor`: the statement list is required to hold distinct statements; how the library builds that list is not part of this model.

## Findings

| source | as written | input that shows it | evidently intended | confidence | as-written member | corrected member |
|---|---|---|---|---|---|---|
| SQLibre/Common/SQLiteConnection.cs:89-94 | `Rollback` runs the rollback but never decrements the transaction counter | `BeginTransaction(); Rollback(); BeginTransaction();` throws "transaction already active" | Rollback ends the transaction as Commit does, so a new one can begin | not executed | Connection.RollbackAsWrittenBlocksBegin | Connection.RollbackAllowsBegin |
| SQLibre/Core/Utf8z.cs:137-151 | `ToString` decodes every byte of the span, including the zero terminator | the pointer to the bytes of "id" and a 0 byte gives "id" followed by U+0000 | the text before the terminator, so a string survives the round trip | not executed | Utf8z.ToStringAsWrittenCounterexample | Utf8z.ToStringOfString |
| SQLibre/Common/SQLiteTransaction.cs:20-25 | ReadUncommitted is kept only when no flag besides SHAREDCACHE is set | ReadUncommitted with the default flags CREATE, READWRITE, SHAREDCACHE and FULLMUTEX becomes Serializable | keep ReadUncommitted when the shared cache is on, the only mode in which it has an effect | not executed | Transaction.CoerceAsWrittenDropsReadUncommitted | Transaction.CoerceKeeps |
| SQLibre/Common/SQLiteConnection.cs:169-177 | `DropDb` calls `Remove` with the default fullRemove=false | an existing pooled database: its handle stays open in the pool while the file is deleted | close and unpool the handle before deleting the file | not executed | Connection.DropDbAsWritten | Connection.DropDb |
| SQLibre/Common/SQLiteConnectionOptions.cs:173-175 | the loop upper-cases the key of every pair, and an empty item yields the default pair with a null key | the connection string ";" throws NullReferenceException | pass over empty items, as the reader's design allows | not executed | ConnectionOptions.EmptyItemAsWrittenThrows | ConnectionOptions.LeadingSeparatorParsed |
| SQLibre/Common/SQLiteConnectionOptions.cs:141-158 | the typed constructor never assigns `OpenFlags`; only the pool key gets the flags | typed options with READWRITE and CREATE have OpenFlags 0 and hash code 0 | OpenFlags hold the flags given, so the options hash like their pool key | not executed | ConnectionOptions.TypedAsWrittenHashIsZero | ConnectionOptions.TypedHashIsKeyHash |
| SQLibre/Common/SQLiteReader.cs:46-84 | `Read` clears the cached `Values` only when the column table is built | two rows: after the second `Read`, `Values` still holds the first row | `Values` reports the row the cursor is on | not executed | Reader.ReadAsWrittenReportsStaleRow | Reader.ReadReportsCurrentRow |
| SQLibre/Common/SQLiteReader.cs:253-256 | the guard of `GetDateTime` names `GetString` in its exception | `GetDateTime(0)` before any row names the operation "GetString" | the exception names `GetDateTime` | not executed | Reader.GetDateTimeAsWrittenMisnamed | Reader.Reader.GetDateTime |
| SQLibre/Common/SQLiteBlob.cs:260-285 | `Write(ReadOnlySpan)` has no disposed check, unlike `Read(Span)` and `Write(byte[])` | a one-byte write to a disposed writable blob reaches `sqlite3_blob_write` with the empty handle | throw ObjectDisposedException | not executed | Blob.WriteAfterDisposeAsWritten | Blob.WriteAfterDisposeRefused |
