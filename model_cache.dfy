/** The process-local TTL cache of package `model` (src/sample/model/cache.go):
    two package-level maps keyed by `key + "_" + member`, one holding the data
    (an `interface{}` that may be nil) and one holding the entry's info
    (`type`, `expire`, `expired_at`). The clock is the explicit `now` (Unix
    seconds). The pure `Store` functions below are shared with package
    `cache` (module Cache), whose maps behave the same way. */
module ModelCache {
  import opened Wrappers
  import Strings

  /** The only cache type, `local` (iota 0). */
  const LocalType: int := 0
  /** Seconds an entry stays fresh. */
  const ExpireSeconds: int := 10

  const TypeKey: string := "type"
  const ExpireKey: string := "expire"
  const ExpiredAtKey: string := "expired_at"

  /** `getUniqueKey`: `strings.Join([]string{key, member}, "_")`. */
  function UniqueKey(key: string, member: string): (r: string)
    ensures r == key + "_" + member
  {
    assert [key, member][1..] == [member];
    assert Strings.Join([member], "_") == member;
    Strings.Join([key, member], "_")
  }

  /** The two maps: data entries (None is a stored nil) and info entries. */
  datatype Store<T> = Store(data: map<string, Option<T>>, info: map<string, map<string, int>>)

  /** The info map written for an entry cached at `now`. */
  function InfoAt(now: int): map<string, int> {
    map[TypeKey := LocalType, ExpireKey := ExpireSeconds, ExpiredAtKey := now + ExpireSeconds]
  }

  /** Storing `data` under the unique key `uk` at time `now`: both maps are
      overwritten at `uk`. */
  function Put<T>(st: Store<T>, data: Option<T>, uk: string, now: int): Store<T> {
    Store(st.data[uk := data], st.info[uk := InfoAt(now)])
  }

  /** An info entry exists for `uk` and its `expired_at` is not in the past. */
  predicate Live<T>(st: Store<T>, uk: string, now: int) {
    uk in st.info && ExpiredAtKey in st.info[uk] && now <= st.info[uk][ExpiredAtKey]
  }

  /** The error GetCache reports for an info entry without data. */
  function InvalidKeyMsg(uk: string): string {
    "unique key [" + uk + "] is invalid!!"
  }

  /** Reading `uk` at `now`: `Ok(None)` is Go's `(nil, nil)`, for a missing
      or expired entry as well as for a stored nil. */
  function Lookup<T>(st: Store<T>, uk: string, now: int): Result<Option<T>, string> {
    if uk !in st.info then Ok(None)
    else if !(ExpiredAtKey in st.info[uk] && now <= st.info[uk][ExpiredAtKey]) then Ok(None)
    else if uk !in st.data then Err(InvalidKeyMsg(uk))
    else Ok(st.data[uk])
  }

  /** `GetCacheWithSetter` given what GetCache returned and what the setter
      would return: an error is passed on, a non-nil value is returned, and
      only a nil result consults the setter. */
  function WithSetter<T>(got: Result<Option<T>, string>, setter: Result<Option<T>, string>): Result<Option<T>, string> {
    if got.Err? then got
    else if got.value.None? then (if setter.Err? then setter else Ok(setter.value))
    else got
  }

  /** Every info entry has its data entry: what the cache's own writes
      maintain. */
  predicate Consistent<T>(st: Store<T>) {
    st.info.Keys <= st.data.Keys
  }

  /** Without an underscore in `key`, the first underscore of the unique
      key is the separator. */
  lemma FirstUnderscore(key: string, member: string)
    requires '_' !in key
    ensures forall i :: 0 <= i < |key| ==> UniqueKey(key, member)[i] != '_'
    ensures UniqueKey(key, member)[|key|] == '_'
  {
    var u := UniqueKey(key, member);
    forall i | 0 <= i < |key| ensures u[i] != '_' {
      assert u[i] == key[i];
    }
  }

  /** Keys without an underscore make the join unambiguous. */
  lemma UniqueKeyInjective(k1: string, m1: string, k2: string, m2: string)
    requires '_' !in k1 && '_' !in k2
    ensures UniqueKey(k1, m1) == UniqueKey(k2, m2) <==> k1 == k2 && m1 == m2
  {
    var u1 := UniqueKey(k1, m1);
    var u2 := UniqueKey(k2, m2);
    if u1 == u2 {
      FirstUnderscore(k1, m1);
      FirstUnderscore(k2, m2);
      assert |k1| == |k2|;
      assert k1 == u1[..|k1|];
      assert k2 == u2[..|k2|];
      assert m1 == u1[|k1| + 1..];
      assert m2 == u2[|k2| + 1..];
    }
  }

  /** With underscores allowed, two different pairs share one entry. */
  lemma UniqueKeyCollision()
    ensures UniqueKey("a_b", "c") == UniqueKey("a", "b_c")
  {
  }

  /** A stored entry reads back unchanged up to ten seconds after it was
      stored, and reads as a miss afterwards. */
  lemma PutThenLookup<T>(st: Store<T>, data: Option<T>, uk: string, t: int, t2: int)
    ensures t2 <= t + ExpireSeconds ==> Lookup(Put(st, data, uk, t), uk, t2) == Ok(data)
    ensures t2 > t + ExpireSeconds ==> Lookup(Put(st, data, uk, t), uk, t2) == Ok(None)
  {
  }

  /** Storing under one key leaves every other key's reading unchanged. */
  lemma PutOther<T>(st: Store<T>, data: Option<T>, uk: string, t: int, uk2: string, t2: int)
    requires uk2 != uk
    ensures Lookup(Put(st, data, uk, t), uk2, t2) == Lookup(st, uk2, t2)
  {
  }

  /** A second store under the same key replaces the first entirely. */
  lemma PutOverwrites<T>(st: Store<T>, d1: Option<T>, t1: int, d2: Option<T>, t2: int, uk: string)
    ensures Put(Put(st, d1, uk, t1), d2, uk, t2) == Put(st, d2, uk, t2)
  {
  }

  /** A reading is a miss exactly when the entry is absent or expired, or
      holds nil; it is an error exactly when a live info entry has no data;
      a hit returns the stored value. */
  lemma LookupMeaning<T>(st: Store<T>, uk: string, now: int)
    ensures Lookup(st, uk, now).Err? <==> Live(st, uk, now) && uk !in st.data
    ensures Lookup(st, uk, now).Err? ==> Lookup(st, uk, now).error == "unique key [" + uk + "] is invalid!!"
    ensures !Live(st, uk, now) ==> Lookup(st, uk, now) == Ok(None)
    ensures Lookup(st, uk, now).Ok? && Lookup(st, uk, now).value.Some? <==>
              Live(st, uk, now) && uk in st.data && st.data[uk].Some?
    ensures Lookup(st, uk, now).Ok? && Lookup(st, uk, now).value.Some? ==>
              Lookup(st, uk, now).value == st.data[uk]
  {
  }

  /** The empty cache is consistent, every store keeps it so, and a
      consistent cache never reports the invalid-key error. */
  lemma ConsistentKept<T>(st: Store<T>, data: Option<T>, uk: string, t: int, uk2: string, t2: int)
    ensures Consistent<T>(Store(map[], map[]))
    ensures Consistent(st) ==> Consistent(Put(st, data, uk, t))
    ensures Consistent(st) ==> Lookup(st, uk2, t2).Ok?
  {
  }

  /** GetCacheWithSetter consults the setter only on a nil reading: with an
      error or a value cached, any two setters give the same result, and on
      a nil reading the result is exactly the setter's. */
  lemma SetterOnlyOnMiss<T>(got: Result<Option<T>, string>, s1: Result<Option<T>, string>, s2: Result<Option<T>, string>)
    ensures !(got.Ok? && got.value.None?) ==> WithSetter(got, s1) == WithSetter(got, s2) == got
    ensures got.Ok? && got.value.None? ==> WithSetter(got, s1) == s1
  {
  }

  /** The package-level maps `cacheData` and `cacheInfo`, behind the
      `cacheRepo` receiver. */
  class CacheRepo<T> {
    var cacheData: map<string, Option<T>>
    var cacheInfo: map<string, map<string, int>>

    function State(): Store<T>
      reads this
    {
      Store(cacheData, cacheInfo)
    }

    /** The maps as the program starts: both empty. */
    constructor ()
      ensures State() == Store(map[], map[])
    {
      cacheData := map[];
      cacheInfo := map[];
    }

    /** `SetCache(data, key, member)` at time `now`: the info entry, then the
        data entry, under the unique key. */
    method SetCache(data: Option<T>, key: string, member: string, now: int)
      modifies this
      ensures State() == Put(old(State()), data, UniqueKey(key, member), now)
    {
      var uniqueKey := UniqueKey(key, member);
      var ci := map[TypeKey := LocalType, ExpireKey := ExpireSeconds, ExpiredAtKey := now + ExpireSeconds];
      cacheInfo := cacheInfo[uniqueKey := ci];
      cacheData := cacheData[uniqueKey := data];
    }

    /** `GetCache(key, member)` at time `now`. */
    method GetCache(key: string, member: string, now: int) returns (r: Result<Option<T>, string>)
      ensures r == Lookup(State(), UniqueKey(key, member), now)
    {
      var uniqueKey := UniqueKey(key, member);
      if uniqueKey !in cacheInfo {
        return Ok(None);
      }
      var ci := cacheInfo[uniqueKey];
      if !(ExpiredAtKey in ci && now <= ci[ExpiredAtKey]) {
        return Ok(None);
      }
      if uniqueKey !in cacheData {
        return Err("unique key [" + uniqueKey + "] is invalid!!");
      }
      return Ok(cacheData[uniqueKey]);
    }

    /** `GetCacheWithSetter(key, member, setter)` at time `now`, with
        `setter` the result the setter callback would return. It changes
        nothing: the setter's value is returned, not stored. */
    method GetCacheWithSetter(key: string, member: string, now: int, setter: Result<Option<T>, string>)
      returns (r: Result<Option<T>, string>)
      ensures r == WithSetter(Lookup(State(), UniqueKey(key, member), now), setter)
    {
      var cData := GetCache(key, member, now);
      if cData.Err? {
        return cData;
      }
      if cData.value.None? {
        if setter.Err? {
          return setter;
        }
        cData := Ok(setter.value);
      }
      return cData;
    }
  }
}
