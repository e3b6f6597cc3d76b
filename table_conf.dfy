/** Table metadata of src/sample/model/dbTableConf.go: the `db_table_conf`
    rows saying, per table, whether it lives on the master or on the shards
    and how it is sharded; the whole table is cached, as a map from table name
    to row, in package `model`'s TTL cache under ("db_table_conf", "all"). */
module TableConf {
  import opened Wrappers
  import opened GoValues
  import opened ModelCache
  import Err
  import DbSpec

  /** `useTypeNone`, `useTypeMaster`, `useTypeShard` (iota). */
  const UseTypeNone: int := 0
  const UseTypeMaster: int := 1
  const UseTypeShard: int := 2

  /** `shardTypeNone`, `shardTypeUser`, `shardTypeGroup` (iota). */
  const ShardTypeNone: int := 0
  const ShardTypeUser: int := 1
  const ShardTypeGroup: int := 2

  /** The repository's table name, also the cache key, and the cache member. */
  const Table: string := "db_table_conf"
  const AllMember: string := "all"

  const EmptyMsg: string := "db_table_conf is empty!!"
  const NotFoundMsg: string := "not found db_table_conf record!!"

  const ConfFile: string := DbSpec.GoPath + "/src/sample/model/dbTableConf.go"

  /** The caller items of an error written in method `fn` of
      `dbTableConfRepo` at `line`. */
  function Site(fn: string, line: int): Err.Caller {
    Err.Caller("sample/model.(*dbTableConfRepo)." + fn, ConfFile, line)
  }

  /** A `db_table_conf` row. */
  datatype DbTableConf = DbTableConf(id: int, tableName: string, useType: int, shardType: int)

  type ConfMap = map<string, DbTableConf>

  predicate IsUseTypeMaster(d: DbTableConf) {
    d.useType == UseTypeMaster
  }

  predicate IsUseTypeShard(d: DbTableConf) {
    d.useType == UseTypeShard
  }

  predicate IsShardTypeUser(d: DbTableConf) {
    d.shardType == ShardTypeUser
  }

  predicate IsShardTypeGroup(d: DbTableConf) {
    d.shardType == ShardTypeGroup
  }

  /** The codes are 0, 1, 2 in declaration order; a row is never both master
      and shard, nor sharded both by user and by group, and the "none" code
      satisfies neither predicate of its kind. */
  lemma TypePredicates(d: DbTableConf)
    ensures UseTypeNone == 0 && UseTypeMaster == 1 && UseTypeShard == 2
    ensures ShardTypeNone == 0 && ShardTypeUser == 1 && ShardTypeGroup == 2
    ensures IsUseTypeMaster(d) <==> d.useType == 1
    ensures IsUseTypeShard(d) <==> d.useType == 2
    ensures IsShardTypeUser(d) <==> d.shardType == 1
    ensures IsShardTypeGroup(d) <==> d.shardType == 2
    ensures !(IsUseTypeMaster(d) && IsUseTypeShard(d))
    ensures !(IsShardTypeUser(d) && IsShardTypeGroup(d))
    ensures d.useType == UseTypeNone ==> !IsUseTypeMaster(d) && !IsUseTypeShard(d)
    ensures d.shardType == ShardTypeNone ==> !IsShardTypeUser(d) && !IsShardTypeGroup(d)
  {
  }

  /** The map the setter's loop builds: rows in order, each stored under its
      table name, so a later row replaces an earlier one of the same name. */
  function RowMap(rows: seq<DbTableConf>): ConfMap
    decreases |rows|
  {
    if rows == [] then map[]
    else RowMap(rows[..|rows| - 1])[rows[|rows| - 1].tableName := rows[|rows| - 1]]
  }

  /** A name is in the map iff some row carries it, and it maps to the last
      such row. */
  lemma {:induction false} RowMapMeaning(rows: seq<DbTableConf>, name: string)
    ensures name in RowMap(rows) <==> exists i :: 0 <= i < |rows| && rows[i].tableName == name
    ensures name in RowMap(rows) ==>
              exists i :: 0 <= i < |rows| && rows[i] == RowMap(rows)[name] && rows[i].tableName == name &&
                forall j :: i < j < |rows| ==> rows[j].tableName != name
    decreases |rows|
  {
    if rows != [] {
      var n := |rows|;
      var init := rows[..n - 1];
      RowMapMeaning(init, name);
      assert forall i :: 0 <= i < n - 1 ==> rows[i] == init[i];
      if rows[n - 1].tableName != name && name in RowMap(init) {
        var i :| 0 <= i < |init| && init[i] == RowMap(init)[name] && init[i].tableName == name &&
                 forall j :: i < j < |init| ==> init[j].tableName != name;
        assert rows[i] == RowMap(rows)[name];
      }
      if rows[n - 1].tableName != name && name !in RowMap(init) {
        assert forall i :: 0 <= i < n - 1 ==> rows[i].tableName != name;
      }
    }
  }

  /** The setter's loop, `dataMap[v.TableName] = v` over the rows. */
  method BuildRowMap(rows: seq<DbTableConf>) returns (dataMap: ConfMap)
    ensures dataMap == RowMap(rows)
  {
    dataMap := map[];
    var i := 0;
    while i < |rows|
      invariant 0 <= i <= |rows|
      invariant dataMap == RowMap(rows[..i])
    {
      assert rows[..i + 1][..i] == rows[..i];
      dataMap := dataMap[rows[i].tableName := rows[i]];
      i := i + 1;
    }
    assert rows[..i] == rows;
  }

  /** The key the whole table is cached under. */
  function CacheKey(): string {
    UniqueKey(Table, AllMember)
  }

  /** `cacheSetter`, given what `finds` returned (the rows, or its error
      stack): the new cache state and the map or an error stack. A failed or
      empty read leaves the cache alone. */
  function Setter(st: Store<ConfMap>, finds: Result<seq<DbTableConf>, Err.ErrWriter>, now: int)
    : (Store<ConfMap>, Result<ConfMap, Err.ErrWriter>)
  {
    if finds.Err? then (st, Err(Err.Write(finds.error, [], Site("cacheSetter", 143))))
    else if |finds.value| < 1 then (st, Err(Err.Write(DbSpec.NoErr, [Str(EmptyMsg)], Site("cacheSetter", 146))))
    else
      var m := RowMap(finds.value);
      (Put(st, Some(m), CacheKey(), now), Ok(m))
  }

  /** The last step of `Find`: the row stored under the name, or the
      not-found error. */
  function Pick(m: ConfMap, tableName: string): (r: Result<DbTableConf, Err.ErrWriter>) {
    if tableName in m then Ok(m[tableName])
    else Err(Err.Write(DbSpec.NoErr, [Str(NotFoundMsg)], Site("Find", 95)))
  }

  /** `Find(tableName)` at time `now`: the cached map when the cache holds
      one, otherwise the setter's (which also fills the cache); a cache or
      setter error gets Find's caller items appended. The cache's own error
      string becomes a one-message stack. */
  function FindSpec(st: Store<ConfMap>, tableName: string, finds: Result<seq<DbTableConf>, Err.ErrWriter>, now: int)
    : (Store<ConfMap>, Result<DbTableConf, Err.ErrWriter>)
  {
    var got := Lookup(st, CacheKey(), now);
    if got.Err? then (st, Err(Err.Write(Err.ErrWriter([Str(got.error)]), [], Site("Find", 89))))
    else if got.value.Some? then (st, Pick(got.value.value, tableName))
    else
      var made := Setter(st, finds, now);
      if made.1.Err? then (made.0, Err(Err.Write(made.1.error, [], Site("Find", 89))))
      else (made.0, Pick(made.1.value, tableName))
  }

  /** With nothing cached and a non-empty table read, Find caches the map
      built from the rows for ten seconds and picks the name from it. */
  lemma FindLoads(st: Store<ConfMap>, tableName: string, rows: seq<DbTableConf>, now: int)
    requires Lookup(st, CacheKey(), now) == Ok(None)
    requires |rows| > 0
    ensures FindSpec(st, tableName, Ok(rows), now) == (Put(st, Some(RowMap(rows)), CacheKey(), now), Pick(RowMap(rows), tableName))
  {
    var made := Setter(st, Ok(rows), now);
    assert made.1 == Ok(RowMap(rows));
  }

  /** Picking from the rows' map returns the last row of that name, or the
      not-found error when no row has it. */
  lemma PickFromRows(rows: seq<DbTableConf>, tableName: string)
    ensures var r := Pick(RowMap(rows), tableName);
            (r.Ok? <==> exists i :: 0 <= i < |rows| && rows[i].tableName == tableName) &&
            (r.Ok? ==> r.value.tableName == tableName &&
                       exists i :: 0 <= i < |rows| && rows[i] == r.value &&
                         forall j :: i < j < |rows| ==> rows[j].tableName != tableName) &&
            (r.Err? ==> r.error.errMsgs[0] == Str(NotFoundMsg))
  {
    RowMapMeaning(rows, tableName);
    if tableName !in RowMap(rows) {
      var w := Err.Write(DbSpec.NoErr, [Str(NotFoundMsg)], Site("Find", 95));
      assert w.errMsgs[..1] == [Str(NotFoundMsg)];
    }
  }

  /** A failed or empty table read is reported, with Find's caller items
      last, and nothing is cached, so the next Find reads again. */
  lemma FindReadFails(st: Store<ConfMap>, tableName: string, finds: Result<seq<DbTableConf>, Err.ErrWriter>, now: int)
    requires Lookup(st, CacheKey(), now) == Ok(None)
    requires finds.Err? || |finds.value| == 0
    ensures var (st1, r) := FindSpec(st, tableName, finds, now);
            st1 == st && r.Err? && Err.HasErr(r.error) &&
            (finds.Err? ==> r.error.errMsgs[..|finds.error.errMsgs|] == finds.error.errMsgs) &&
            (finds.Ok? ==> r.error.errMsgs[0] == Str(EmptyMsg))
  {
    var (st1, r) := FindSpec(st, tableName, finds, now);
    if finds.Ok? {
      var w := Err.Write(DbSpec.NoErr, [Str(EmptyMsg)], Site("cacheSetter", 146));
      assert w.errMsgs[..1] == [Str(EmptyMsg)];
      assert r.error.errMsgs[..|w.errMsgs|] == w.errMsgs;
    } else {
      var w := Err.Write(finds.error, [], Site("cacheSetter", 143));
      assert r.error.errMsgs[..|w.errMsgs|] == w.errMsgs;
      assert w.errMsgs[..|finds.error.errMsgs|] == finds.error.errMsgs;
    }
  }

  /** Once the map is cached, Find neither reads the table nor changes the
      cache: any two table reads give the same answer. */
  lemma FindCached(st: Store<ConfMap>, m: ConfMap, tableName: string, f1: Result<seq<DbTableConf>, Err.ErrWriter>,
                   f2: Result<seq<DbTableConf>, Err.ErrWriter>, now: int)
    requires Lookup(st, CacheKey(), now) == Ok(Some(m))
    ensures FindSpec(st, tableName, f1, now) == FindSpec(st, tableName, f2, now) == (st, Pick(m, tableName))
  {
  }

  /** A Find that loaded the table at `t` serves every Find up to `t + 10`
      from the cache, for any table name and whatever the table would now
      return. */
  lemma FindServedFromCache(st: Store<ConfMap>, name1: string, rows: seq<DbTableConf>, t: int,
                            name2: string, f2: Result<seq<DbTableConf>, Err.ErrWriter>, t2: int)
    requires Lookup(st, CacheKey(), t) == Ok(None)
    requires |rows| > 0
    requires t <= t2 <= t + ExpireSeconds
    ensures var st1 := FindSpec(st, name1, Ok(rows), t).0;
            FindSpec(st1, name2, f2, t2) == (st1, Pick(RowMap(rows), name2))
  {
    var st1 := Put(st, Some(RowMap(rows)), CacheKey(), t);
    assert Setter(st, Ok(rows), t).0 == st1;
    assert FindSpec(st, name1, Ok(rows), t).0 == st1;
    PutThenLookup(st, Some(RowMap(rows)), CacheKey(), t, t2);
    assert Lookup(st1, CacheKey(), t2) == Ok(Some(RowMap(rows)));
  }

  /** The repository: the package-level cache it reads and fills. */
  class DbTableConfRepo {
    const cache: CacheRepo<ConfMap>

    constructor (cache: CacheRepo<ConfMap>)
      ensures this.cache == cache
    {
      this.cache := cache;
    }

    /** `cacheSetter`, with `finds` what the table read returned. */
    method CacheSetter(finds: Result<seq<DbTableConf>, Err.ErrWriter>, now: int)
      returns (r: Result<ConfMap, Err.ErrWriter>)
      modifies cache
      ensures (cache.State(), r) == Setter(old(cache.State()), finds, now)
    {
      if finds.Err? {
        return Err(Err.Write(finds.error, [], Site("cacheSetter", 143)));
      }
      if |finds.value| < 1 {
        return Err(Err.Write(DbSpec.NoErr, [Str(EmptyMsg)], Site("cacheSetter", 146)));
      }
      var dataMap := BuildRowMap(finds.value);
      cache.SetCache(Some(dataMap), Table, AllMember, now);
      return Ok(dataMap);
    }

    /** `Find(tableName)` at time `now`, with `finds` what the table read
        would return if the setter runs. */
    method Find(tableName: string, finds: Result<seq<DbTableConf>, Err.ErrWriter>, now: int)
      returns (r: Result<DbTableConf, Err.ErrWriter>)
      modifies cache
      ensures (cache.State(), r) == FindSpec(old(cache.State()), tableName, finds, now)
    {
      var got := cache.GetCache(Table, AllMember, now);
      var allData: ConfMap;
      if got.Err? {
        return Err(Err.Write(Err.ErrWriter([Str(got.error)]), [], Site("Find", 89)));
      } else if got.value.Some? {
        allData := got.value.value;
      } else {
        var made := CacheSetter(finds, now);
        if made.Err? {
          return Err(Err.Write(made.error, [], Site("Find", 89)));
        }
        allData := made.value;
      }
      if tableName !in allData {
        return Err(Err.Write(DbSpec.NoErr, [Str(NotFoundMsg)], Site("Find", 95)));
      }
      return Ok(allData[tableName]);
    }
  }
}
