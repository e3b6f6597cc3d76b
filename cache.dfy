/** The process-local TTL cache of package `cache` (src/sample/cache/cache.go):
    the same pair of package-level maps as package `model`'s cache, keyed by
    `category + "_" + key`, written by `Set` and read by `Get`. Its entries
    obey the Store laws of module ModelCache (read-back within ten seconds,
    miss after expiry, overwrite, invalid-key error only for info without
    data). */
module Cache {
  import opened Wrappers
  import opened ModelCache

  /** The package-level maps `__cache_data` and `__cache_info`. */
  class GlobalCache<T> {
    var cacheData: map<string, Option<T>>
    var cacheInfo: map<string, map<string, int>>

    function State(): Store<T>
      reads this
    {
      Store(cacheData, cacheInfo)
    }

    /** Both maps empty, as the package is loaded. */
    constructor ()
      ensures State() == Store(map[], map[])
    {
      cacheData := map[];
      cacheInfo := map[];
    }

    /** `Set(category, key, data)` at time `now`: info `{type: 0, expire: 10,
        expired_at: now + 10}` and the data, under `category_key`, replacing
        whatever was there. */
    method Set(category: string, key: string, data: Option<T>, now: int)
      modifies this
      ensures State() == Put(old(State()), data, UniqueKey(category, key), now)
      ensures cacheInfo[UniqueKey(category, key)][ExpiredAtKey] == now + ExpireSeconds
      ensures cacheData[UniqueKey(category, key)] == data
    {
      var uniqueKey := UniqueKey(category, key);
      var ci := map[TypeKey := LocalType, ExpireKey := ExpireSeconds, ExpiredAtKey := now + ExpireSeconds];
      cacheInfo := cacheInfo[uniqueKey := ci];
      cacheData := cacheData[uniqueKey := data];
    }

    /** `Get(category, key)` at time `now`: `Ok(None)` for a missing or
        expired entry (or a stored nil), the invalid-key error for info
        without data, the data otherwise. */
    method Get(category: string, key: string, now: int) returns (r: Result<Option<T>, string>)
      ensures r == Lookup(State(), UniqueKey(category, key), now)
    {
      var uniqueKey := UniqueKey(category, key);
      if uniqueKey !in cacheInfo {
        return Ok(None);
      }
      var ci := cacheInfo[uniqueKey];
      if !(ExpiredAtKey in ci && now <= ci[ExpiredAtKey]) {
        return Ok(None);
      }
      if uniqueKey !in cacheData {
        return Err("unique key [" + uniqueKey + "] is invalid!!");
      }
      return Ok(cacheData[uniqueKey]);
    }
  }

  /** A Set followed, within ten seconds, by a Get of the same category and
      key returns the data just set; any later Get finds nothing. */
  method SetThenGet<T>(g: GlobalCache<T>, category: string, key: string, data: Option<T>, t: int, t2: int)
    returns (r: Result<Option<T>, string>)
    modifies g
    ensures t2 <= t + ExpireSeconds ==> r == Ok(data)
    ensures t2 > t + ExpireSeconds ==> r == Ok(None)
  {
    g.Set(category, key, data, t);
    PutThenLookup(old(g.State()), data, UniqueKey(category, key), t, t2);
    r := g.Get(category, key, t2);
  }
}
