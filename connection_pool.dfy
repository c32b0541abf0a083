// SQLiteConnectionPool: the process-wide registry of open database handles.
// Pooled handles are kept in `pool`, each beside the key it was opened
// under in `options`; handles opened without pooling are kept in `nonPooled`.
module ConnectionPool {
  import opened Clr
  import opened Native
  import opened DbOpenOptions
  import SQLiteException
  import Execution

  /** List.IndexOf over keys, with DbOpenOptions.Equals as the equality. */
  function IndexOfKey(keys: seq<Key>, o: Key): (r: int)
    ensures -1 <= r < |keys|
    ensures r >= 0 ==> Equals(keys[r], o) && forall j :: 0 <= j < r ==> !Equals(keys[j], o)
    ensures r == -1 ==> forall j :: 0 <= j < |keys| ==> !Equals(keys[j], o)
    decreases |keys|
  {
    if |keys| == 0 then -1
    else if Equals(keys[0], o) then 0
    else
      var r := IndexOfKey(keys[1..], o);
      if r < 0 then -1 else r + 1
  }

  /** List.IndexOf over handles. */
  function IndexOfHandle(handles: seq<Handle>, h: Handle): (r: int)
    ensures -1 <= r < |handles|
    ensures r >= 0 ==> handles[r] == h && h !in handles[..r]
    ensures r == -1 <==> h !in handles
    decreases |handles|
  {
    if |handles| == 0 then -1
    else if handles[0] == h then 0
    else
      var r := IndexOfHandle(handles[1..], h);
      assert r >= 0 ==> handles[..r + 1] == [handles[0]] + handles[1..][..r];
      if r < 0 then -1 else r + 1
  }

  /** List.RemoveAt. */
  function RemoveAt<T>(s: seq<T>, i: nat): seq<T>
    requires i < |s|
  {
    s[..i] + s[i + 1..]
  }

  /** RemoveAt drops exactly the element at i: the others keep their order, and nothing else is lost. */
  lemma RemoveAtKeepsOthers<T>(s: seq<T>, i: nat)
    requires i < |s|
    ensures |RemoveAt(s, i)| == |s| - 1
    ensures forall j :: 0 <= j < i ==> RemoveAt(s, i)[j] == s[j]
    ensures forall j :: i <= j < |s| - 1 ==> RemoveAt(s, i)[j] == s[j + 1]
    ensures multiset(RemoveAt(s, i)) + multiset{s[i]} == multiset(s)
  {
    assert s == s[..i] + [s[i]] + s[i + 1..];
  }

  /** No handle occurs twice. */
  predicate Distinct(s: seq<Handle>) {
    forall i, j :: 0 <= i < j < |s| ==> s[i] != s[j]
  }

  /** Removing an entry keeps the others distinct, adds nothing, and the removed handle is gone. */
  lemma DistinctRemoveAt(s: seq<Handle>, i: nat)
    requires i < |s| && Distinct(s)
    ensures Distinct(RemoveAt(s, i))
    ensures forall h :: h in RemoveAt(s, i) ==> h in s
    ensures s[i] !in RemoveAt(s, i)
  {
    RemoveAtKeepsOthers(s, i);
    var t := RemoveAt(s, i);
    forall a, b | 0 <= a < b < |t|
      ensures t[a] != t[b]
    {
      var a' := if a < i then a else a + 1;
      var b' := if b < i then b else b + 1;
      assert t[a] == s[a'] && t[b] == s[b'] && a' < b';
    }
    forall h | h in t
      ensures h in s && h != s[i]
    {
      var k :| 0 <= k < |t| && t[k] == h;
      var k' := if k < i then k else k + 1;
      assert t[k] == s[k'] && k' != i;
    }
  }

  /** Appending a handle not yet present keeps the list distinct. */
  lemma DistinctAppend(s: seq<Handle>, h: Handle)
    requires Distinct(s) && h !in s
    ensures Distinct(s + [h])
  {
    var t := s + [h];
    forall a, b | 0 <= a < b < |t|
      ensures t[a] != t[b]
    {
      if b == |s| {
        assert t[a] == s[a];
      }
    }
  }

  /** What the pool runs on a handle it has just opened: the connection asks it to execute a PRAGMA. */
  datatype OpenCallback = NoCallback | ExecuteOnOpen(sql: string)

  /** The three lists, which the source holds in static fields. */
  class Pool {
    var pool: seq<Handle>
    var options: seq<Key>
    var nonPooled: seq<Handle>

    /** `pool` and `options` are parallel lists. */
    ghost predicate Valid()
      reads this
    {
      |pool| == |options|
    }

    /**
     * Every recorded handle was issued by the engine, and none is recorded
     * twice: not twice in a list, and not in both lists.
     */
    ghost predicate Issued(engine: Engine)
      reads this, engine
    {
      && Distinct(pool) && Distinct(nonPooled)
      && (forall h :: h in pool ==> h !in nonPooled)
      && (forall h :: h in pool ==> 0 < h < engine.nextHandle)
      && (forall h :: h in nonPooled ==> 0 < h < engine.nextHandle)
    }

    constructor ()
      ensures Valid() && pool == [] && options == [] && nonPooled == []
    {
      pool := [];
      options := [];
      nonPooled := [];
    }

    /**
     * GetConnection: a pooled request whose key is already stored gets the
     * stored handle. Otherwise a handle is opened (an open error throws),
     * the callback runs on it (its exception propagates, and the handle is
     * then recorded nowhere), and it is appended to `pool` with its key
     * when pooling is asked for, to `nonPooled` when not.
     */
    method GetConnection(o: Key, callback: OpenCallback, engine: Engine) returns (r: Result<Handle>)
      requires Valid() && engine.Valid() && Issued(engine)
      modifies this, engine`nextHandle, engine`live, engine`execLog
      ensures Valid() && engine.Valid() && Issued(engine)
      ensures var index := IndexOfKey(old(options), o);
        o.pooling && index >= 0 ==>
          r == Ok(old(pool)[index]) && unchanged(this) && unchanged(engine)
      ensures !(o.pooling && IndexOfKey(old(options), o) >= 0) ==>
        var rc := engine.openResult(o.databasePath, o.openFlag, o.vfsName);
        var db := old(engine.nextHandle);
        && engine.nextHandle == old(engine.nextHandle) + 1 && engine.live == old(engine.live) + {db}
        && (!IsSuccess(rc) ==>
              r == Err(SQLiteException.CheckCode(rc, engine.errstr).error) && unchanged(this)
              && engine.execLog == old(engine.execLog))
        && (IsSuccess(rc) && callback.ExecuteOnOpen? ==>
              engine.execLog == old(engine.execLog) + [(db, callback.sql)])
        && (IsSuccess(rc) && callback.NoCallback? ==> engine.execLog == old(engine.execLog))
        && (var failed := IsSuccess(rc) && callback.ExecuteOnOpen?
                          && Execution.ExecOutcome(engine.execResult(db, callback.sql)).Err?;
            && (failed ==> r == Err(Execution.ExecOutcome(engine.execResult(db, callback.sql)).error) && unchanged(this))
            && (IsSuccess(rc) && !failed ==>
                 r == Ok(db)
                 && (o.pooling ==> pool == old(pool) + [db] && options == old(options) + [o] && nonPooled == old(nonPooled))
                 && (!o.pooling ==> nonPooled == old(nonPooled) + [db] && pool == old(pool) && options == old(options))))
    {
      if o.pooling {
        var index := IndexOfKey(options, o);
        if index > -1 {
          return Ok(pool[index]);
        }
      }
      // DbHandle.Open: sqlite3_open_v2, then CheckOK on its code.
      var rc, db := engine.OpenV2(o.databasePath, o.openFlag, o.vfsName);
      var checked := SQLiteException.CheckCode(rc, engine.errstr);
      if checked.Err? {
        return Err(checked.error);
      }
      if callback.ExecuteOnOpen? {
        var executed := Execution.ExecuteInternal(engine, db, callback.sql);
        if executed.Err? {
          return Err(executed.error);
        }
      }
      if o.pooling {
        DistinctAppend(pool, db);
        pool := pool + [db];
        options := options + [o];
      } else {
        DistinctAppend(nonPooled, db);
        nonPooled := nonPooled + [db];
      }
      return Ok(db);
    }

    /**
     * RemoveInternal: closes the handle at `index` of the chosen list and
     * removes that entry (and its key, for the pooled list). A close error
     * throws before anything is removed.
     */
    method RemoveInternal(index: nat, pooled: bool, engine: Engine) returns (r: Result<()>)
      requires Valid() && engine.Valid() && Issued(engine)
      requires pooled ==> index < |pool|
      requires !pooled ==> index < |nonPooled|
      modifies this, engine`live, engine`closeLog
      ensures Valid() && engine.Valid() && Issued(engine)
      ensures var h := if pooled then old(pool)[index] else old(nonPooled)[index];
        && engine.closeLog == old(engine.closeLog) + [h]
        && engine.live == (if engine.closeResult(h) == SQLITE_OK then old(engine.live) - {h} else old(engine.live))
        && r == SQLiteException.CheckCode(engine.closeResult(h), engine.errstr)
      ensures r.Err? ==> unchanged(this)
      ensures r.Ok? && pooled ==>
        pool == RemoveAt(old(pool), index) && options == RemoveAt(old(options), index) && nonPooled == old(nonPooled)
      ensures r.Ok? && !pooled ==>
        nonPooled == RemoveAt(old(nonPooled), index) && pool == old(pool) && options == old(options)
    {
      var handle := if pooled then pool[index] else nonPooled[index];
      var rc := engine.CloseV2(handle);
      r := SQLiteException.CheckCode(rc, engine.errstr);
      if r.Err? {
        return;
      }
      if pooled {
        DistinctRemoveAt(pool, index);
        pool := RemoveAt(pool, index);
        options := RemoveAt(options, index);
      } else {
        DistinctRemoveAt(nonPooled, index);
        nonPooled := RemoveAt(nonPooled, index);
      }
    }

    /**
     * Remove(handle, fullRemove): a non-pooled handle is closed and dropped
     * whatever fullRemove says; a pooled one only when fullRemove is set.
     */
    method Remove(handle: Handle, fullRemove: bool, engine: Engine) returns (r: Result<()>)
      requires Valid() && engine.Valid() && Issued(engine)
      modifies this, engine`live, engine`closeLog
      ensures Valid() && engine.Valid() && Issued(engine)
      ensures var i := IndexOfHandle(old(nonPooled), handle);
        i >= 0 ==>
          engine.closeLog == old(engine.closeLog) + [handle]
          && r == SQLiteException.CheckCode(engine.closeResult(handle), engine.errstr)
          && pool == old(pool) && options == old(options)
          && nonPooled == (if r.Ok? then RemoveAt(old(nonPooled), i) else old(nonPooled))
      ensures var i := IndexOfHandle(old(pool), handle);
        handle !in old(nonPooled) && fullRemove && i >= 0 ==>
          engine.closeLog == old(engine.closeLog) + [handle]
          && r == SQLiteException.CheckCode(engine.closeResult(handle), engine.errstr)
          && nonPooled == old(nonPooled)
          && pool == (if r.Ok? then RemoveAt(old(pool), i) else old(pool))
          && options == (if r.Ok? then RemoveAt(old(options), i) else old(options))
      ensures handle !in old(nonPooled) && (!fullRemove || handle !in old(pool)) ==>
        r == Ok(()) && unchanged(this) && unchanged(engine)
      ensures r.Ok? && (handle in old(nonPooled) || fullRemove) ==> handle !in pool && handle !in nonPooled
    {
      var index := IndexOfHandle(nonPooled, handle);
      if index > -1 {
        DistinctRemoveAt(nonPooled, index);
        r := RemoveInternal(index, false, engine);
      } else if fullRemove {
        index := IndexOfHandle(pool, handle);
        if index > -1 {
          DistinctRemoveAt(pool, index);
          r := RemoveInternal(index, true, engine);
        } else {
          r := Ok(());
        }
      } else {
        r := Ok(());
      }
    }

    /**
     * RemoveAll: closes and drops every pooled handle, first to last, then
     * every non-pooled one. A close error stops it, leaving the handles not
     * yet closed in place.
     */
    method RemoveAll(engine: Engine) returns (r: Result<()>)
      requires Valid() && engine.Valid() && Issued(engine)
      modifies this, engine`live, engine`closeLog
      ensures Valid() && engine.Valid() && Issued(engine)
      ensures r.Ok? ==> pool == [] && options == [] && nonPooled == []
      ensures r.Ok? ==> engine.closeLog == old(engine.closeLog) + old(pool) + old(nonPooled)
      ensures r.Err? ==>
        exists k :: (0 <= k <= |old(pool)| + |old(nonPooled)|
                     && engine.closeLog == old(engine.closeLog) + (old(pool) + old(nonPooled))[..k])
    {
      ghost var k;
      r, k := ClosePooled(engine);
      if r.Err? {
        assert (old(pool) + old(nonPooled))[..k] == old(pool)[..k];
        return;
      }
      r, k := CloseNonPooled(engine);
      if r.Err? {
        assert (old(pool) + old(nonPooled))[..|old(pool)| + k] == old(pool) + old(nonPooled)[..k];
        return;
      }
    }

    /** RemoveAll's first loop: closes and removes the pooled handles, head first. */
    method ClosePooled(engine: Engine) returns (r: Result<()>, ghost closed: nat)
      requires Valid() && engine.Valid() && Issued(engine)
      modifies this, engine`live, engine`closeLog
      ensures Valid() && engine.Valid() && Issued(engine)
      ensures nonPooled == old(nonPooled)
      ensures r.Ok? ==> pool == [] && options == [] && engine.closeLog == old(engine.closeLog) + old(pool)
      ensures r.Err? ==> closed <= |old(pool)| && engine.closeLog == old(engine.closeLog) + old(pool)[..closed]
    {
      r, closed := Ok(()), 0;
      while |pool| > 0
        invariant r.Ok? && Valid() && engine.Valid() && Issued(engine)
        invariant |pool| <= |old(pool)|
        invariant pool == old(pool)[|old(pool)| - |pool|..]
        invariant options == old(options)[|old(options)| - |options|..]
        invariant nonPooled == old(nonPooled)
        invariant engine.closeLog == old(engine.closeLog) + old(pool)[..|old(pool)| - |pool|]
        decreases |pool|
      {
        closed := |old(pool)| - |pool|;
        r := RemoveInternal(0, true, engine);
        assert old(pool)[..closed] + [old(pool)[closed]] == old(pool)[..closed + 1];
        if r.Err? {
          closed := closed + 1;
          return;
        }
        assert pool == old(pool)[closed + 1..];
      }
      assert old(pool)[..|old(pool)|] == old(pool);
    }

    /** RemoveAll's second loop: closes and removes the handles opened outside the pool. */
    method CloseNonPooled(engine: Engine) returns (r: Result<()>, ghost closed: nat)
      requires Valid() && engine.Valid() && Issued(engine)
      modifies this, engine`live, engine`closeLog
      ensures Valid() && engine.Valid() && Issued(engine)
      ensures pool == old(pool) && options == old(options)
      ensures r.Ok? ==> nonPooled == [] && engine.closeLog == old(engine.closeLog) + old(nonPooled)
      ensures r.Err? ==> closed <= |old(nonPooled)| && engine.closeLog == old(engine.closeLog) + old(nonPooled)[..closed]
    {
      r, closed := Ok(()), 0;
      while |nonPooled| > 0
        invariant r.Ok? && Valid() && engine.Valid() && Issued(engine)
        invariant pool == old(pool) && options == old(options)
        invariant |nonPooled| <= |old(nonPooled)|
        invariant nonPooled == old(nonPooled)[|old(nonPooled)| - |nonPooled|..]
        invariant engine.closeLog == old(engine.closeLog) + old(nonPooled)[..|old(nonPooled)| - |nonPooled|]
        decreases |nonPooled|
      {
        closed := |old(nonPooled)| - |nonPooled|;
        r := RemoveInternal(0, false, engine);
        assert old(nonPooled)[..closed] + [old(nonPooled)[closed]] == old(nonPooled)[..closed + 1];
        if r.Err? {
          closed := closed + 1;
          return;
        }
        assert nonPooled == old(nonPooled)[closed + 1..];
      }
      assert old(nonPooled)[..|old(nonPooled)|] == old(nonPooled);
    }
  }

  /** A stored key finds the first stored key equal to it, and only an equal key finds anything. */
  lemma LookupFindsEqualKey(keys: seq<Key>, o: Key, i: nat)
    requires i < |keys| && Equals(keys[i], o)
    ensures 0 <= IndexOfKey(keys, o) <= i
  {
  }

  /** The VFS name plays no part in the lookup: keys differing only there find the same entry. */
  lemma LookupIgnoresVfs(keys: seq<Key>, o: Key, vfs: Option<string>)
    ensures IndexOfKey(keys, o) == IndexOfKey(keys, o.(vfsName := vfs))
    decreases |keys|
  {
    if |keys| > 0 {
      LookupIgnoresVfs(keys[1..], o, vfs);
    }
  }
}
