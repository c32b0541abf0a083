// SQLiteConnectionOptions: the options a connection is opened with, built
// either from typed arguments or from a "key=value;key=value" connection
// string, and the pool key (DbOpenOptions) derived from them.
module ConnectionOptions {
  import opened Clr
  import opened Text
  import opened Native
  import opened SpanExtensions
  import DbOpenOptions
  import KeyValuePairReader

  const SQLITE_OPEN_NOFOLLOW: bv32 := 0x0100_0000
  const SQLITE_OPEN_EXRESCODE: bv32 := 0x0200_0000

  const DefaultOpenFlags: bv32 :=
    SQLITE_OPEN_CREATE | SQLITE_OPEN_READWRITE | SQLITE_OPEN_SHAREDCACHE | SQLITE_OPEN_FULLMUTEX

  const DateTimeSqliteDefaultFormat: string := "yyyy'-'MM'-'dd'T'HH':'mm':'ss'.'fff"

  const KeyTypeMessage: string := "Encryption keys must be strings or byte arrays"
  const BadDateTimeTicksMessage: string := "Invalid value for StoreDateTimeAsTicks parameter"
  const BadTimeSpanTicksMessage: string := "Invalid value for StoreTimeSpanAsTicks parameter"

  /** The options fixed at construction (the init-only properties and the pool key). */
  datatype Settings = Settings(
    openOptions: DbOpenOptions.Key,
    openFlags: bv32,
    storeDateTimeAsTicks: bool,
    storeTimeSpanAsTicks: bool,
    dateTimeStringFormat: string,
    dateTimeStyle: DateTimeStyles,
    key: Value)

  /** The date style that goes with a format: round-trip for the "o" and "r" formats. */
  function StyleFor(format: string): DateTimeStyles {
    if EqualsIgnoreCase("o", format) || EqualsIgnoreCase("r", format) then RoundtripKind else NoStyle
  }

  /** An encryption key is null, a string or a byte array. */
  predicate IsEncryptionKey(key: Value) {
    key.NullRef? || key.StringValue? || key.ByteArrayValue?
  }

  /** GetHashCode: the hash of the canonical path masked by the OpenFlags property. */
  function HashCode(s: Settings): bv32 {
    StringHash(s.openOptions.databasePath) & s.openFlags
  }

  // ----- The typed constructor -----

  /**
   * The typed constructor as written: it never assigns the OpenFlags
   * property, which therefore keeps its default 0, although the pool key
   * is built with the flags given. The key check comes first; the pool key,
   * built last, refuses a path Path.GetFullPath refuses.
   */
  function TypedAsWritten(databasePath: string, getFullPath: string -> string, openFlags: bv32,
                          storeDateTimeAsTicks: bool, key: Value, vfsName: Option<string>,
                          dateTimeStringFormat: string, storeTimeSpanAsTicks: bool, pooling: bool): (r: Result<Settings>)
    ensures r.Err? <==> !IsEncryptionKey(key) || !DbOpenOptions.Accepted(databasePath)
    ensures r.Ok? ==> r.value.openFlags == 0 && r.value.openOptions.openFlag == openFlags
  {
    if !IsEncryptionKey(key) then Err(Argument(KeyTypeMessage))
    else
      match DbOpenOptions.Make(databasePath, getFullPath, openFlags, vfsName, pooling)
      case Err(e) => Err(e)
      case Ok(k) =>
        Ok(Settings(k, 0, storeDateTimeAsTicks, storeTimeSpanAsTicks, dateTimeStringFormat,
                    StyleFor(dateTimeStringFormat), key))
  }

  /**
   * The typed constructor: it rejects a key that is neither a string nor a
   * byte array, then a path Path.GetFullPath refuses, and records the flags
   * both as OpenFlags and in the pool key.
   */
  function Typed(databasePath: string, getFullPath: string -> string, openFlags: bv32,
                 storeDateTimeAsTicks: bool, key: Value, vfsName: Option<string>,
                 dateTimeStringFormat: string, storeTimeSpanAsTicks: bool, pooling: bool): (r: Result<Settings>)
    ensures r.Err? <==> !IsEncryptionKey(key) || !DbOpenOptions.Accepted(databasePath)
    ensures !IsEncryptionKey(key) ==> r == Err(Argument(KeyTypeMessage))
    ensures IsEncryptionKey(key) && !DbOpenOptions.Accepted(databasePath) ==>
      r == Err(DbOpenOptions.Make(databasePath, getFullPath, openFlags, vfsName, pooling).error)
    ensures r.Ok? ==> DbOpenOptions.Make(databasePath, getFullPath, openFlags, vfsName, pooling) == Ok(r.value.openOptions)
    ensures r.Ok? ==> r.value.openFlags == openFlags && r.value.key == key
    ensures r.Ok? ==> r.value.storeDateTimeAsTicks == storeDateTimeAsTicks && r.value.storeTimeSpanAsTicks == storeTimeSpanAsTicks
    ensures r.Ok? ==> r.value.dateTimeStringFormat == dateTimeStringFormat
    ensures r.Ok? ==> (r.value.dateTimeStyle == RoundtripKind <==>
                        EqualsIgnoreCase(dateTimeStringFormat, "o") || EqualsIgnoreCase(dateTimeStringFormat, "r"))
  {
    if !IsEncryptionKey(key) then Err(Argument(KeyTypeMessage))
    else
      match DbOpenOptions.Make(databasePath, getFullPath, openFlags, vfsName, pooling)
      case Err(e) => Err(e)
      case Ok(k) =>
        Ok(Settings(k, openFlags, storeDateTimeAsTicks, storeTimeSpanAsTicks, dateTimeStringFormat,
                    StyleFor(dateTimeStringFormat), key))
  }

  /** The shorter constructors: default flags, default format, TimeSpan values stored as ticks. */
  function WithDefaults(databasePath: string, getFullPath: string -> string, storeDateTimeAsTicks: bool,
                        key: Value, vfsName: Option<string>, pooling: bool): (r: Result<Settings>)
    ensures r.Err? <==> !IsEncryptionKey(key) || !DbOpenOptions.Accepted(databasePath)
    ensures r.Ok? ==> r.value.openFlags == DefaultOpenFlags && r.value.storeTimeSpanAsTicks
    ensures r.Ok? ==> r.value.dateTimeStringFormat == DateTimeSqliteDefaultFormat && r.value.dateTimeStyle == NoStyle
  {
    Typed(databasePath, getFullPath, DefaultOpenFlags, storeDateTimeAsTicks, key, vfsName,
          DateTimeSqliteDefaultFormat, true, pooling)
  }

  /** As written, every options object made by the typed constructor has hash code 0. */
  lemma TypedAsWrittenHashIsZero(databasePath: string, getFullPath: string -> string, openFlags: bv32,
                                 storeDateTimeAsTicks: bool, key: Value, vfsName: Option<string>,
                                 dateTimeStringFormat: string, storeTimeSpanAsTicks: bool, pooling: bool)
    requires IsEncryptionKey(key)
    ensures var r := TypedAsWritten(databasePath, getFullPath, openFlags, storeDateTimeAsTicks, key, vfsName,
                                    dateTimeStringFormat, storeTimeSpanAsTicks, pooling);
      (r.Ok? <==> DbOpenOptions.Accepted(databasePath))
      && (r.Ok? ==> HashCode(r.value) == 0
                    && (openFlags != 0 ==> r.value.openFlags != r.value.openOptions.openFlag))
  {
  }

  /**
   * Options whose OpenFlags agree with their pool key hash like the key:
   * the corrected typed constructor keeps that agreement.
   */
  lemma TypedHashIsKeyHash(databasePath: string, getFullPath: string -> string, openFlags: bv32,
                           storeDateTimeAsTicks: bool, key: Value, vfsName: Option<string>,
                           dateTimeStringFormat: string, storeTimeSpanAsTicks: bool, pooling: bool)
    requires IsEncryptionKey(key)
    ensures var r := Typed(databasePath, getFullPath, openFlags, storeDateTimeAsTicks, key, vfsName,
                           dateTimeStringFormat, storeTimeSpanAsTicks, pooling);
      (r.Ok? <==> DbOpenOptions.Accepted(databasePath))
      && (r.Ok? ==> r.value.openFlags == r.value.openOptions.openFlag
                    && HashCode(r.value) == DbOpenOptions.Hash(r.value.openOptions))
  {
  }

  // ----- The connection-string constructor -----

  /** The filter the connection-string reader applies to keys and values: it drops spaces. */
  const NoSpace: char -> bool := c => c != ' '

  /** What the connection-string loop accumulates before the pool key is built. */
  datatype Parsed = Parsed(
    path: string,
    vfsName: Option<string>,
    openFlags: bv32,
    storeDateTimeAsTicks: bool,
    storeTimeSpanAsTicks: bool,
    dateTimeStringFormat: string,
    key: Value,
    commandTimeout: int32)

  /** The values the connection-string constructor starts from. */
  const Initial: Parsed := Parsed("", None, DefaultOpenFlags, false, false, DateTimeSqliteDefaultFormat, NullRef, 0)

  /**
   * bool.TryParse: "True" or "False" in any letter case, once white space
   * and U+0000 characters are trimmed from both ends. (The runtime compares
   * the untrimmed text first; a match there is a match after trimming too.)
   */
  function ParseBool(v: string): (r: Option<bool>)
    ensures r == Some(true) <==> EqualsIgnoreCase(TrimWhiteOrNul(v), "True")
    ensures r == Some(false) <==> EqualsIgnoreCase(TrimWhiteOrNul(v), "False")
  {
    var t := TrimWhiteOrNul(v);
    if EqualsIgnoreCase(t, "True") then Some(true)
    else if EqualsIgnoreCase(t, "False") then Some(false)
    else None
  }

  /** White space and U+0000 around a boolean do not stop it being read. */
  lemma ParseBoolPadded(pre: string, core: string, post: string)
    requires forall i :: 0 <= i < |pre| ==> WhiteOrNul(pre[i])
    requires forall i :: 0 <= i < |post| ==> WhiteOrNul(post[i])
    requires EqualsIgnoreCase(core, "True") || EqualsIgnoreCase(core, "False")
    ensures ParseBool(pre + core + post) == Some(EqualsIgnoreCase(core, "True"))
  {
    assert ToUpper(core)[0] == ToUpperChar(core[0]);
    assert ToUpper(core)[|core| - 1] == ToUpperChar(core[|core| - 1]);
    TrimPadded(pre, core, post);
  }

  /** So "true" followed by a tab reads as true. */
  lemma ParseBoolTab()
    ensures ParseBool("true\t") == Some(true)
  {
    assert [] + "true" + "\t" == "true\t";
    ParseBoolPadded([], "true", "\t");
  }

  /** int.TryParse: an optionally signed decimal integer that fits in 32 bits. */
  function ParseInt32(v: string): (r: Option<int32>)
    ensures r.Some? ==> ParseInteger(v) == Some(r.value as int)
  {
    match ParseInteger(v)
    case Some(n) => if IsInt32(n) then Some(n as int32) else None
    case None => None
  }

  /** The READONLY key: READWRITE is cleared and READONLY set. */
  function ReadOnlyFlags(f: bv32): bv32 {
    (f & !SQLITE_OPEN_READWRITE) | SQLITE_OPEN_READONLY
  }

  /** The keys the constructor acts upon, upper-cased. */
  const ActedUponKeys: set<string> :=
    {"DATABASEPATH", "DATASOURCE", "STOREDATETIMEASTICKS", "DATETIMEFORMAT", "STORETIMESPANASTICKS",
     "DATETIMESTRINGFORMAT", "KEY", "PASSWORD", "VFSNAME", "COMMANDTIMEOUT", "READONLY"}

  /** The keys that are recognised but not implemented yet. */
  const PlaceholderKeys: set<string> := {"JOURNALMODE", "ENCODING", "UTF16ENCODING", "CACHESIZE", "PAGESIZE"}

  /** One case of the switch over the upper-cased key. */
  function ApplyKey(p: Parsed, key: string, value: string): (r: Result<Parsed>)
    ensures ToUpper(key) !in ActedUponKeys ==> r == Ok(p)
    ensures r.Err? ==> r.error == Argument(BadDateTimeTicksMessage) || r.error == Argument(BadTimeSpanTicksMessage)
  {
    var k := ToUpper(key);
    if k == "DATABASEPATH" || k == "DATASOURCE" then Ok(p.(path := value))
    else if k == "STOREDATETIMEASTICKS" then
      match ParseBool(value)
      case Some(b) => Ok(p.(storeDateTimeAsTicks := b))
      case None => Err(Argument(BadDateTimeTicksMessage))
    else if k == "DATETIMEFORMAT" then Ok(p.(storeDateTimeAsTicks := EqualsIgnoreCase("Ticks", value)))
    else if k == "STORETIMESPANASTICKS" then
      match ParseBool(value)
      case Some(b) => Ok(p.(storeTimeSpanAsTicks := b))
      case None => Err(Argument(BadTimeSpanTicksMessage))
    else if k == "DATETIMESTRINGFORMAT" then Ok(p.(dateTimeStringFormat := value))
    else if k == "KEY" || k == "PASSWORD" then Ok(p.(key := StringValue(value)))
    else if k == "VFSNAME" then Ok(p.(vfsName := Some(value)))
    else if k == "COMMANDTIMEOUT" then
      Ok(p.(commandTimeout := match ParseInt32(value) case Some(i) => i case None => 0))
    else if k == "READONLY" then Ok(p.(openFlags := ReadOnlyFlags(p.openFlags)))
    else Ok(p)
  }

  /** A pair as the reader yields it: the default pair, or a key with its value. */
  predicate WellFormedPair(pair: KeyValuePairReader.Pair) {
    pair.key.Some? ==> pair.value.Some?
  }

  /**
   * The loop body as written: the default pair that an empty item yields
   * has a null key, and upper-casing it throws NullReferenceException.
   */
  function ApplyPairAsWritten(p: Parsed, pair: KeyValuePairReader.Pair): (r: Result<Parsed>)
    requires WellFormedPair(pair)
    ensures pair.key.None? ==> r == Err(NullReference)
    ensures pair.key.Some? ==> r == ApplyKey(p, pair.key.value, pair.value.value)
  {
    if pair.key.None? then Err(NullReference) else ApplyKey(p, pair.key.value, pair.value.value)
  }

  /** The loop body: the default pair carries nothing and is passed over. */
  function ApplyPair(p: Parsed, pair: KeyValuePairReader.Pair): (r: Result<Parsed>)
    requires WellFormedPair(pair)
    ensures pair.key.None? ==> r == Ok(p)
    ensures pair.key.Some? ==> r == ApplyPairAsWritten(p, pair)
  {
    if pair.key.None? then Ok(p) else ApplyKey(p, pair.key.value, pair.value.value)
  }

  /** The reader over a connection string: the pair at `offset`. */
  function ReadPair(cs: string, offset: nat): Result<KeyValuePairReader.Outcome> {
    KeyValuePairReader.ReadAt(cs, ";", "=", NoSpace, NoSpace, offset)
  }

  /** Every pair the reader yields is the default pair or a key with a value, and neither holds a space. */
  lemma ReadPairShape(cs: string, offset: nat)
    ensures var r := ReadPair(cs, offset);
      r.Ok? ==> (WellFormedPair(r.value.pair)
        && (r.value.pair.key.Some? ==> ' ' !in r.value.pair.key.value && ' ' !in r.value.pair.value.value)
        && (r.value.more ==> offset < r.value.next <= |cs| + 1))
  {
    var r := ReadPair(cs, offset);
    if offset < |cs| {
      KeyValuePairReader.TokenAtBounds(cs, ";", offset);
      var t := KeyValuePairReader.TokenAt(cs, ";", offset);
      if r.Ok? && t != [] {
        KeyValuePairReader.ReadAtPair(cs, ";", "=", NoSpace, NoSpace, offset);
        var pos := IndexOf(t, "=");
        FilterSound(t[..pos], NoSpace);
        FilterSound(t[pos + 1..], NoSpace);
      }
    }
  }

  /**
   * The connection-string loop from `offset` on, starting from `p`: a
   * reader error or a rejected value stops it with that exception.
   */
  function ParseFrom(cs: string, offset: nat, p: Parsed): (r: Result<Parsed>)
    requires offset <= |cs| + 1
    ensures offset >= |cs| ==> r == Ok(p)
    ensures r.Err? ==>
      r.error == InvalidOperation("Wrong string format")
      || r.error == Argument(BadDateTimeTicksMessage) || r.error == Argument(BadTimeSpanTicksMessage)
    decreases |cs| + 1 - offset
  {
    match ReadPair(cs, offset)
    case Err(e) => Err(e)
    case Ok(o) =>
      if !o.more then Ok(p)
      else
        ReadPairShape(cs, offset);
        match ApplyPair(p, o.pair)
        case Err(e) => Err(e)
        case Ok(p') => ParseFrom(cs, o.next, p')
  }

  /** The connection-string constructor's loop over the pairs of the string. */
  method ReadConnectionString(cs: string) returns (r: Result<Parsed>)
    ensures r == ParseFrom(cs, 0, Initial)
  {
    var pairs := new KeyValuePairReader.Reader(cs, ";", "=", Some(NoSpace), Some(NoSpace));
    var p := Initial;
    while true
      invariant pairs.buffer == cs && pairs.itemSep == ";" && pairs.keyValueSep == "="
      invariant pairs.keyFilter == NoSpace && pairs.valueFilter == NoSpace
      invariant pairs.offset <= |cs| + 1
      invariant ParseFrom(cs, pairs.offset, p) == ParseFrom(cs, 0, Initial)
      decreases |cs| + 1 - pairs.offset
    {
      ReadPairShape(cs, pairs.offset);
      var read := pairs.Read();
      if read.Err? {
        return Err(read.error);
      }
      if !read.value.0 {
        return Ok(p);
      }
      var pair := read.value.1;
      if pair.key.Some? {
        var applied := ApplyKey(p, pair.key.value, pair.value.value);
        if applied.Err? {
          return Err(applied.error);
        }
        p := applied.value;
      }
    }
  }

  /**
   * The settings the connection-string constructor ends with: style from
   * the format, key from path and flags. Building the key refuses a path
   * Path.GetFullPath refuses, the initial empty path among them, so a
   * connection string that names no data source is refused.
   */
  function Finish(p: Parsed, getFullPath: string -> string, pooling: bool): (r: Result<Settings>)
    ensures r.Ok? <==> DbOpenOptions.Accepted(p.path)
    ensures r.Err? ==> r == Err(DbOpenOptions.Make(p.path, getFullPath, p.openFlags, p.vfsName, pooling).error)
    ensures r.Ok? ==> DbOpenOptions.Make(p.path, getFullPath, p.openFlags, p.vfsName, pooling) == Ok(r.value.openOptions)
    ensures r.Ok? ==> r.value.openFlags == p.openFlags && r.value.key == p.key
    ensures r.Ok? ==> r.value.storeDateTimeAsTicks == p.storeDateTimeAsTicks && r.value.storeTimeSpanAsTicks == p.storeTimeSpanAsTicks
  {
    match DbOpenOptions.Make(p.path, getFullPath, p.openFlags, p.vfsName, pooling)
    case Err(e) => Err(e)
    case Ok(k) =>
      Ok(Settings(k, p.openFlags, p.storeDateTimeAsTicks, p.storeTimeSpanAsTicks, p.dateTimeStringFormat,
                  StyleFor(p.dateTimeStringFormat), p.key))
  }

  /** An options object: the settings fixed at construction and the two settable properties. */
  class Options {
    const settings: Settings
    var usingAutoCommit: bool
    var commandTimeout: int32

    constructor (settings: Settings, commandTimeout: int32)
      ensures this.settings == settings && this.commandTimeout == commandTimeout && !usingAutoCommit
    {
      this.settings := settings;
      this.commandTimeout := commandTimeout;
      usingAutoCommit := false;
    }

    function DatabasePath(): string {
      settings.openOptions.databasePath
    }

    function GetHashCode(): bv32 {
      HashCode(settings)
    }
  }

  /** new SQLiteConnectionOptions(databasePath, openFlags, ...): the typed constructor. */
  method NewTyped(databasePath: string, getFullPath: string -> string, openFlags: bv32,
                  storeDateTimeAsTicks: bool, key: Value, vfsName: Option<string>,
                  dateTimeStringFormat: string, storeTimeSpanAsTicks: bool, pooling: bool) returns (r: Result<Options>)
    ensures var s := Typed(databasePath, getFullPath, openFlags, storeDateTimeAsTicks, key, vfsName,
                           dateTimeStringFormat, storeTimeSpanAsTicks, pooling);
      && (s.Err? ==> r == Err(s.error))
      && (s.Ok? ==> r.Ok? && fresh(r.value) && r.value.settings == s.value
                    && r.value.commandTimeout == 0 && !r.value.usingAutoCommit)
  {
    var s := Typed(databasePath, getFullPath, openFlags, storeDateTimeAsTicks, key, vfsName,
                   dateTimeStringFormat, storeTimeSpanAsTicks, pooling);
    if s.Err? {
      return Err(s.error);
    }
    var o := new Options(s.value, 0);
    return Ok(o);
  }

  /** new SQLiteConnectionOptions(connectionString). */
  method NewFromConnectionString(cs: string, getFullPath: string -> string, pooling: bool) returns (r: Result<Options>)
    ensures var p := ParseFrom(cs, 0, Initial);
      && (p.Err? ==> r == Err(p.error))
      && (p.Ok? ==> var s := Finish(p.value, getFullPath, pooling);
                    && (s.Err? ==> r == Err(s.error))
                    && (s.Ok? ==> r.Ok? && fresh(r.value) && r.value.settings == s.value
                                  && r.value.commandTimeout == p.value.commandTimeout && !r.value.usingAutoCommit))
  {
    var p := ReadConnectionString(cs);
    if p.Err? {
      return Err(p.error);
    }
    var s := Finish(p.value, getFullPath, pooling);
    if s.Err? {
      return Err(s.error);
    }
    var o := new Options(s.value, p.value.commandTimeout);
    return Ok(o);
  }

  // ----- Properties of the connection-string constructor -----

  /**
   * An empty connection string gives the initial values (default flags,
   * nothing stored as ticks, an empty path), and the empty path makes the
   * constructor throw ArgumentException when it builds the pool key.
   */
  lemma EmptyConnectionString(getFullPath: string -> string, pooling: bool)
    ensures ParseFrom("", 0, Initial) == Ok(Initial)
    ensures Initial.openFlags == DefaultOpenFlags && Initial.path == ""
    ensures Finish(Initial, getFullPath, pooling) == Err(Argument(DbOpenOptions.EmptyPathMessage))
  {
  }

  /** READONLY clears READWRITE, sets READONLY and keeps every other flag bit. */
  lemma ReadOnlyFlagBits(f: bv32)
    ensures ReadOnlyFlags(f) & SQLITE_OPEN_READONLY == SQLITE_OPEN_READONLY
    ensures ReadOnlyFlags(f) & SQLITE_OPEN_READWRITE == 0
    ensures ReadOnlyFlags(f) & !(SQLITE_OPEN_READONLY | SQLITE_OPEN_READWRITE)
         == f & !(SQLITE_OPEN_READONLY | SQLITE_OPEN_READWRITE)
  {
  }

  /** Marking the flags read-only twice is marking them once. */
  lemma ReadOnlyIdempotent(f: bv32)
    ensures ReadOnlyFlags(ReadOnlyFlags(f)) == ReadOnlyFlags(f)
  {
  }

  /** Keys are matched whatever their letter case. */
  lemma KeysIgnoreCase(p: Parsed, k1: string, k2: string, v: string)
    requires EqualsIgnoreCase(k1, k2)
    ensures ApplyKey(p, k1, v) == ApplyKey(p, k2, v)
  {
  }

  /** The placeholder keys, like unknown ones, change nothing. */
  lemma PlaceholderKeysIgnored(p: Parsed, k: string, v: string)
    requires ToUpper(k) in PlaceholderKeys
    ensures ApplyKey(p, k, v) == Ok(p)
  {
    assert ToUpper(k) !in ActedUponKeys;
  }

  /** A later occurrence of a key overrides an earlier one. */
  lemma LastOccurrenceWins(p: Parsed, k: string, v1: string, v2: string)
    requires ApplyKey(p, k, v1).Ok?
    ensures ApplyKey(ApplyKey(p, k, v1).value, k, v2) == ApplyKey(p, k, v2)
  {
    if ToUpper(k) == "READONLY" {
      ReadOnlyIdempotent(p.openFlags);
    }
  }

  /** A value that is not a boolean is rejected for the two ticks keys. */
  lemma NonBooleanTicksRejected(p: Parsed, k: string, v: string)
    requires ParseBool(v).None?
    ensures ToUpper(k) == "STOREDATETIMEASTICKS" ==> ApplyKey(p, k, v) == Err(Argument(BadDateTimeTicksMessage))
    ensures ToUpper(k) == "STORETIMESPANASTICKS" ==> ApplyKey(p, k, v) == Err(Argument(BadTimeSpanTicksMessage))
  {
  }

  /**
   * DATETIMEFORMAT stores DateTime values as ticks exactly when its value is
   * "Ticks" in any letter case; COMMANDTIMEOUT falls back to 0 when its value
   * is not a 32-bit integer.
   */
  lemma DateTimeFormatAndTimeout(p: Parsed, k: string, v: string)
    ensures ToUpper(k) == "DATETIMEFORMAT" ==>
      ApplyKey(p, k, v) == Ok(p.(storeDateTimeAsTicks := EqualsIgnoreCase(v, "Ticks")))
    ensures ToUpper(k) == "COMMANDTIMEOUT" && ParseInt32(v).None? ==> ApplyKey(p, k, v) == Ok(p.(commandTimeout := 0))
  {
  }

  /** The text of any 32-bit integer is a valid COMMANDTIMEOUT and is read back as that integer. */
  lemma CommandTimeoutOfText(p: Parsed, k: string, i: int32)
    requires ToUpper(k) == "COMMANDTIMEOUT"
    ensures ApplyKey(p, k, IntToString(i)) == Ok(p.(commandTimeout := i))
  {
    ParseIntegerOfText(i);
  }

  /** The round-trip format "o" (in any case) selects the round-trip date style, the default format does not. */
  lemma StyleOfFormats(p: Parsed, getFullPath: string -> string, pooling: bool)
    ensures var s := Finish(p, getFullPath, pooling);
      s.Ok? ==> (s.value.dateTimeStyle == RoundtripKind <==>
                   EqualsIgnoreCase(p.dateTimeStringFormat, "o") || EqualsIgnoreCase(p.dateTimeStringFormat, "r"))
    ensures StyleFor(DateTimeSqliteDefaultFormat) == NoStyle
  {
  }

  /** The options built from a connection string hash like their pool key. */
  lemma ParsedHashIsKeyHash(p: Parsed, getFullPath: string -> string, pooling: bool)
    ensures var s := Finish(p, getFullPath, pooling);
      s.Ok? ==> HashCode(s.value) == DbOpenOptions.Hash(s.value.openOptions)
  {
  }

  /** A single item "<k>=<path>;" whose key names the data source sets the path and nothing else. */
  lemma DataSourceOnly(k: string, path: string)
    requires ToUpper(k) == "DATASOURCE" || ToUpper(k) == "DATABASEPATH"
    requires '=' !in k && ';' !in k && ' ' !in k
    requires ';' !in path && ' ' !in path
    ensures ParseFrom(k + "=" + path + ";", 0, Initial) == Ok(Initial.(path := path))
  {
    var cs := k + "=" + path + ";";
    NoSpaceKeeps(k);
    NoSpaceKeeps(path);
    KeyValuePairReader.ReadItem([], k, path, [], NoSpace, NoSpace);
    assert [] + (k + "=" + path) + ";" + [] == cs;
    var pair := KeyValuePairReader.Pair(Some(k), Some(path));
    assert ReadPair(cs, 0) == Ok(KeyValuePairReader.Outcome(true, pair, |cs|));
    assert ApplyPair(Initial, pair) == Ok(Initial.(path := path));
    KeyValuePairReader.ReadAtEnd(cs, ";", "=", NoSpace, NoSpace, |cs|);
    assert ParseFrom(cs, |cs|, Initial.(path := path)) == Ok(Initial.(path := path));
  }

  lemma NoSpaceKeeps(s: string)
    requires ' ' !in s
    ensures forall i :: 0 <= i < |s| ==> NoSpace(s[i])
  {
    forall i | 0 <= i < |s| ensures NoSpace(s[i]) {
      assert s[i] in s;
    }
  }

  /**
   * The empty item between two ';' (or before a leading one) yields the
   * default pair; as written, the loop then upper-cases its null key.
   */
  lemma EmptyItemAsWrittenThrows(p: Parsed)
    ensures ReadPair(";", 0) == Ok(KeyValuePairReader.Outcome(true, KeyValuePairReader.DefaultPair, 1))
    ensures ApplyPairAsWritten(p, KeyValuePairReader.DefaultPair) == Err(NullReference)
    ensures ApplyPair(p, KeyValuePairReader.DefaultPair) == Ok(p)
  {
    KeyValuePairReader.TokenAtBounds(";", ";", 0);
    assert OccursAt(";"[0..], ";", 0);
  }

  /** So a connection string with an empty item is rejected as written, and read past with the correction. */
  lemma LeadingSeparatorParsed()
    ensures ParseFrom(";", 0, Initial) == Ok(Initial)
  {
    EmptyItemAsWrittenThrows(Initial);
    KeyValuePairReader.ReadAtEnd(";", ";", "=", NoSpace, NoSpace, 1);
  }
}
