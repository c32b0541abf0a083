// DbOpenOptions: the key under which the connection pool stores a handle.
// It holds the canonical, upper-cased database path, the open flags and the
// VFS name; two keys are equal when their flags and paths are.
module DbOpenOptions {
  import opened Clr
  import Text

  /**
   * The key. `pooling` is the Pooling property the pool consults; it is
   * chosen by whoever builds the key.
   */
  datatype Key = Key(databasePath: string, vfsName: Option<string>, openFlag: bv32, pooling: bool)

  const EmptyPathMessage: string := "The path is empty."
  const NulInPathMessage: string := "Null character in path."

  /** The paths Path.GetFullPath accepts: not empty and free of U+0000. */
  predicate Accepted(path: string) {
    path != [] && '\0' !in path
  }

  /**
   * new DbOpenOptions(path, flag, vfsName): Path.GetFullPath refuses an
   * empty path and a path holding U+0000 with ArgumentException; any other
   * path is canonicalised by `getFullPath` (which depends on the file
   * system and the current directory) and then upper-cased.
   */
  function Make(path: string, getFullPath: string -> string, flag: bv32, vfsName: Option<string>, pooling: bool): (r: Result<Key>)
    ensures r.Ok? <==> Accepted(path)
    ensures path == [] ==> r == Err(Argument(EmptyPathMessage))
    ensures path != [] && '\0' in path ==> r == Err(Argument(NulInPathMessage))
    ensures r.Ok? ==> r.value.databasePath == Text.ToUpper(getFullPath(path))
    ensures r.Ok? ==> r.value.openFlag == flag && r.value.vfsName == vfsName && r.value.pooling == pooling
  {
    if path == [] then Err(Argument(EmptyPathMessage))
    else if '\0' in path then Err(Argument(NulInPathMessage))
    else Ok(Key(Text.ToUpper(getFullPath(path)), vfsName, flag, pooling))
  }

  /** The Hash property: the path's hash masked by the open flags. GetHashCode returns it. */
  function Hash(k: Key): bv32 {
    Text.StringHash(k.databasePath) & k.openFlag
  }

  /** Equals(DbOpenOptions): same open flags and same canonical path. */
  predicate Equals(a: Key, b: Key) {
    a.openFlag == b.openFlag && a.databasePath == b.databasePath
  }

  /** What Equals(object?) may be handed. */
  datatype Boxed = NullObject | OptionsObject(key: Key) | OtherObject

  /** Equals(object?): false for null and for anything that is not a DbOpenOptions. */
  predicate EqualsObject(a: Key, obj: Boxed) {
    obj != NullObject && obj.OptionsObject? && Equals(a, obj.key)
  }

  lemma EqualsObjectOnlyForKeys(a: Key, obj: Boxed)
    ensures EqualsObject(a, obj) <==> obj.OptionsObject? && Equals(a, obj.key)
    ensures EqualsObject(a, NullObject) == false && EqualsObject(a, OtherObject) == false
  {
  }

  /** The VFS name and the pooling choice play no part in equality. */
  lemma EqualsIgnoresVfs(a: Key, b: Key)
    ensures Equals(a, b) <==> a.openFlag == b.openFlag && a.databasePath == b.databasePath
    ensures Equals(a, b) <==> Equals(a.(vfsName := b.vfsName, pooling := b.pooling), b)
  {
  }

  lemma EqualsIsEquivalence(a: Key, b: Key, c: Key)
    ensures Equals(a, a)
    ensures Equals(a, b) ==> Equals(b, a)
    ensures Equals(a, b) && Equals(b, c) ==> Equals(a, c)
  {
  }

  /** Equal keys hash alike, so the hash is fit to be used alongside Equals. */
  lemma EqualKeysEqualHashes(a: Key, b: Key)
    requires Equals(a, b)
    ensures Hash(a) == Hash(b)
  {
  }

  /** No bit is set in the hash that is not set in the open flags. */
  lemma HashWithinFlags(k: Key)
    ensures Hash(k) & !k.openFlag == 0
    ensures Hash(k) | k.openFlag == k.openFlag
  {
  }

  /** Paths whose canonical forms differ only in letter case give equal keys. */
  lemma CaseInsensitivePaths(p: string, q: string, getFullPath: string -> string, flag: bv32,
                             v: Option<string>, w: Option<string>, pooling: bool, pooling': bool)
    requires Text.EqualsIgnoreCase(getFullPath(p), getFullPath(q))
    ensures Make(p, getFullPath, flag, v, pooling).Ok? && Make(q, getFullPath, flag, w, pooling').Ok? ==>
      Equals(Make(p, getFullPath, flag, v, pooling).value, Make(q, getFullPath, flag, w, pooling').value)
  {
  }

  /** The stored path is already upper-case: building a key from it again changes nothing. */
  lemma PathIsCanonical(p: string, getFullPath: string -> string, flag: bv32, v: Option<string>, pooling: bool)
    ensures var r := Make(p, getFullPath, flag, v, pooling);
      r.Ok? ==> Text.ToUpper(r.value.databasePath) == r.value.databasePath
  {
    Text.ToUpperIdempotent(getFullPath(p));
  }
}
