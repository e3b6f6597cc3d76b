/** What the two transaction coordinators (src/sample/DBI/DBI.go and
    src/sample/common/db/db.go) share: the database modes, the handles the
    global context holds after startup, the four request-scoped transaction
    slots with their started flags (the keys of conf/context/key.go), and the
    loops that visit every entry of a per-shard map. */
module TxContext {
  import opened Wrappers
  import opened GoValues

  /** The database modes. */
  const ModeW: string := "W"
  const ModeR: string := "R"
  const ModeBak: string := "BAK"

  /** An open database handle (`*gorp.DbMap`). */
  datatype Handle = Handle(id: nat)

  /** The transaction (`*gorp.Transaction`) begun on a handle. */
  datatype Tx = Tx(db: Handle)

  /** The handles the global context holds: the write master, the write shard
      map, and per replica ("slave") a read master and a read shard map. No
      handle is held for the backup mode. */
  datatype Topology = Topology(
    masterW: Handle,
    shardW: map<int, Handle>,
    masterRs: seq<Handle>,
    shardRs: seq<map<int, Handle>>)

  /** The request's slave index selects an existing replica. */
  predicate ReadableAt(topo: Topology, slaveIndex: nat) {
    slaveIndex < |topo.masterRs| && slaveIndex < |topo.shardRs|
  }

  /** A master slot: the transaction under `txMaster?` and the flag under
      `isMaster?TxStart`. An absent or nil key reads as `None` / false. */
  datatype MasterSlot = MasterSlot(tx: Option<Tx>, started: bool)

  /** A shard slot: the per-shard transaction map and its flag. */
  datatype ShardSlot = ShardSlot(txs: Option<map<int, Tx>>, started: bool)

  /** The four slots of a request context. */
  datatype Slots = Slots(masterW: MasterSlot, masterR: MasterSlot, shardW: ShardSlot, shardR: ShardSlot)

  const NoMaster: MasterSlot := MasterSlot(None, false)
  const NoShard: ShardSlot := ShardSlot(None, false)

  /** A fresh request context: nothing started. */
  const Empty: Slots := Slots(NoMaster, NoMaster, NoShard, NoShard)

  /** Every mode other than "W" selects the read keys. */
  function IsW(mode: string): bool {
    mode == ModeW
  }

  function Master(s: Slots, w: bool): MasterSlot {
    if w then s.masterW else s.masterR
  }

  function Shard(s: Slots, w: bool): ShardSlot {
    if w then s.shardW else s.shardR
  }

  /** `c.Set(txKey, …)` and `c.Set(isKey, …)` on one master slot. */
  function WithMaster(s: Slots, w: bool, v: MasterSlot): (r: Slots)
    ensures Master(r, w) == v && Master(r, !w) == Master(s, !w)
    ensures r.shardW == s.shardW && r.shardR == s.shardR
  {
    if w then s.(masterW := v) else s.(masterR := v)
  }

  /** `c.Set(txKey, …)` and `c.Set(isKey, …)` on one shard slot. */
  function WithShard(s: Slots, w: bool, v: ShardSlot): (r: Slots)
    ensures Shard(r, w) == v && Shard(r, !w) == Shard(s, !w)
    ensures r.masterW == s.masterW && r.masterR == s.masterR
  {
    if w then s.(shardW := v) else s.(shardR := v)
  }

  /** `isTransactonStart(c, isKey)`: the flag stored under the key. */
  function IsTransactonStart(s: Slots, shard: bool, w: bool): bool {
    if shard then Shard(s, w).started else Master(s, w).started
  }

  /** Each flag is set exactly when its slot holds a transaction (map). */
  predicate Consistent(s: Slots) {
    (s.masterW.started <==> s.masterW.tx.Some?) && (s.masterR.started <==> s.masterR.tx.Some?) &&
    (s.shardW.started <==> s.shardW.txs.Some?) && (s.shardR.started <==> s.shardR.txs.Some?)
  }

  /** On a consistent context the flag tells whether the slot holds a
      transaction; a fresh context is consistent and has nothing started. */
  lemma StartedIffHeld(s: Slots, shard: bool, w: bool)
    requires Consistent(s)
    ensures IsTransactonStart(s, shard, w) <==> (if shard then Shard(s, w).txs.Some? else Master(s, w).tx.Some?)
    ensures Consistent(Empty) && !IsTransactonStart(Empty, shard, w)
  {
  }

  /** `order` lists the keys of a Go map in one iteration order: each key
      exactly once. */
  predicate IsOrder(order: seq<int>, keys: set<int>) {
    (forall i, j :: 0 <= i < j < |order| ==> order[i] != order[j]) &&
    (forall k :: k in order ==> k in keys) && (forall k :: k in keys ==> k in order)
  }

  /** The outcome of one call per shard (Begin, Commit or Rollback): the
      shards whose call returns an error, with that error, and the order in
      which the loop visits the map. */
  datatype ShardOutcome = ShardOutcome(errs: map<int, Value>, order: seq<int>)

  /** A shard whose call returns nil is a success and has no entry in
      `errs`: every recorded error is non-nil. */
  predicate ErrsNonNil(errs: map<int, Value>) {
    forall k :: k in errs ==> errs[k] != Nil
  }

  /** `o` describes a loop over the map held in `slot`, if any. */
  predicate Fits(o: ShardOutcome, slot: ShardSlot) {
    ErrsNonNil(o.errs) && (slot.txs.Some? ==> IsOrder(o.order, slot.txs.value.Keys))
  }

  /** The error of one shard's call; `None` is nil. */
  function StepErr(errs: map<int, Value>, k: int): Option<Value> {
    if k in errs then Some(errs[k]) else None
  }

  /** Some visited shard failed. */
  predicate AnyFailed(errs: map<int, Value>, order: seq<int>) {
    exists i :: 0 <= i < |order| && order[i] in errs
  }

  /** The error variable after the loop: the result of the last call, nil
      too when earlier calls failed. */
  function LastErr(errs: map<int, Value>, order: seq<int>): (r: Option<Value>)
    ensures r.Some? ==> AnyFailed(errs, order)
    ensures order != [] ==> r == StepErr(errs, order[|order| - 1])
  {
    if order == [] then None else StepErr(errs, order[|order| - 1])
  }

  /** The first failing call in visiting order, if any. */
  function FirstErr(errs: map<int, Value>, order: seq<int>): (r: Option<Value>)
    ensures r.Some? <==> AnyFailed(errs, order)
    ensures r.Some? ==> exists i :: 0 <= i < |order| && order[i] in errs && r == Some(errs[order[i]]) &&
                                     forall j :: 0 <= j < i ==> order[j] !in errs
    decreases |order|
  {
    if order == [] then None
    else if order[0] in errs then Some(errs[order[0]])
    else
      var r := FirstErr(errs, order[1..]);
      assert forall i :: 0 <= i < |order| - 1 ==> order[1..][i] == order[i + 1];
      if r.Some? then
        assert exists i :: 0 <= i < |order| - 1 && order[1..][i] in errs && r == Some(errs[order[1..][i]]) &&
                           forall j :: 0 <= j < i ==> order[1..][j] !in errs;
        r
      else r
  }

  /** The transactions whose call failed: what the in-place deletion of the
      succeeded ones leaves in the map. */
  function Survivors(m: map<int, Tx>, errs: map<int, Value>): (r: map<int, Tx>)
    ensures forall k :: k in r <==> k in m && k in errs
    ensures forall k :: k in r ==> r[k] == m[k]
  {
    map k | k in m && k in errs :: m[k]
  }

  /** Once the loop has visited every key, the map is empty exactly when no
      call failed. */
  lemma SurvivorsEmptyIff(m: map<int, Tx>, o: ShardOutcome)
    requires IsOrder(o.order, m.Keys)
    ensures Survivors(m, o.errs) == map[] <==> !AnyFailed(o.errs, o.order)
  {
    if AnyFailed(o.errs, o.order) {
      var i :| 0 <= i < |o.order| && o.order[i] in o.errs;
      assert o.order[i] in Survivors(m, o.errs);
    } else {
      forall k | k in Survivors(m, o.errs)
        ensures false
      {
      }
    }
  }

  /** The last call's error can hide an earlier failure: two shards, the
      first visited one failing, leave a nil error behind. */
  lemma LastErrMasksFailure(e: Value)
    ensures AnyFailed(map[1 := e], [1, 2]) && LastErr(map[1 := e], [1, 2]) == None
  {
    assert [1, 2][0] in map[1 := e];
  }

  /** The map after the loop has visited `visited`: the entries not visited
      yet and those whose call failed. */
  function Remaining(m: map<int, Tx>, errs: map<int, Value>, visited: seq<int>): map<int, Tx> {
    map k | k in m && (k in visited ==> k in errs) :: m[k]
  }

  lemma RemainingStep(m: map<int, Tx>, errs: map<int, Value>, visited: seq<int>, k: int)
    ensures Remaining(m, errs, visited + [k]) ==
              if k in errs then Remaining(m, errs, visited) else Remaining(m, errs, visited) - {k}
  {
    var a := Remaining(m, errs, visited + [k]);
    var b := if k in errs then Remaining(m, errs, visited) else Remaining(m, errs, visited) - {k};
    forall x ensures x in a <==> x in b {
      assert x in visited + [k] <==> x in visited || x == k;
    }
    assert a == b;
  }

  lemma RemainingAll(m: map<int, Tx>, errs: map<int, Value>, order: seq<int>)
    requires IsOrder(order, m.Keys)
    ensures Remaining(m, errs, order) == Survivors(m, errs)
  {
    var a := Remaining(m, errs, order);
    var b := Survivors(m, errs);
    forall x | x in m ensures x in order {
      assert x in m.Keys;
    }
    assert a.Keys == b.Keys;
  }

  lemma AnyFailedStep(errs: map<int, Value>, order: seq<int>, i: nat)
    requires i < |order|
    ensures AnyFailed(errs, order[..i + 1]) <==> AnyFailed(errs, order[..i]) || order[i] in errs
  {
    var p := order[..i + 1];
    assert forall j :: 0 <= j < i ==> p[j] == order[..i][j];
    if AnyFailed(errs, p) && order[i] !in errs {
      var j :| 0 <= j < |p| && p[j] in errs;
      assert order[..i][j] in errs;
    }
    if AnyFailed(errs, order[..i]) {
      var j :| 0 <= j < i && order[..i][j] in errs;
      assert p[j] in errs;
    }
    if order[i] in errs {
      assert p[i] in errs;
    }
  }

  /** `for k, v := range txMap { e = v.Commit() / v.Rollback(); if e == nil
      { delete(txMap, k) } else { hasError = true } }`: the surviving map,
      the error left in `e`, and whether any call failed. */
  method FinishShards(txMap: map<int, Tx>, o: ShardOutcome) returns (rest: map<int, Tx>, last: Option<Value>, failed: bool)
    requires IsOrder(o.order, txMap.Keys)
    ensures rest == Survivors(txMap, o.errs)
    ensures last == LastErr(o.errs, o.order)
    ensures failed <==> AnyFailed(o.errs, o.order)
  {
    rest, last, failed := txMap, None, false;
    assert o.order[..0] == [];
    assert rest == Remaining(txMap, o.errs, o.order[..0]);
    var i := 0;
    while i < |o.order|
      invariant 0 <= i <= |o.order|
      invariant rest == Remaining(txMap, o.errs, o.order[..i])
      invariant last == LastErr(o.errs, o.order[..i])
      invariant failed <==> AnyFailed(o.errs, o.order[..i])
    {
      var k := o.order[i];
      assert o.order[..i + 1] == o.order[..i] + [k];
      RemainingStep(txMap, o.errs, o.order[..i], k);
      AnyFailedStep(o.errs, o.order, i);
      var e := StepErr(o.errs, k);
      last := e;
      if e.None? {
        rest := rest - {k};
      } else {
        failed := true;
      }
      i := i + 1;
    }
    assert o.order[..i] == o.order;
    RemainingAll(txMap, o.errs, o.order);
  }

  /** What beginning a transaction on every handle of `dbMap` yields: the
      first failure in visiting order, or one transaction per handle. */
  function BeginAll(dbMap: map<int, Handle>, o: ShardOutcome): (r: Result<map<int, Tx>, Value>)
    requires IsOrder(o.order, dbMap.Keys)
    ensures r.Ok? <==> forall k :: k in dbMap ==> k !in o.errs
    ensures r.Err? ==> exists k :: k in dbMap && k in o.errs && r.error == o.errs[k]
    ensures r.Ok? ==> r.value.Keys == dbMap.Keys && forall k :: k in dbMap ==> r.value[k] == Tx(dbMap[k])
  {
    match FirstErr(o.errs, o.order)
    case Some(e) => Err(e)
    case None => Ok(map k | k in dbMap :: Tx(dbMap[k]))
  }

  /** FirstErr reports the call at the first failing position. */
  lemma FirstErrAt(errs: map<int, Value>, order: seq<int>, i: nat)
    requires i < |order| && order[i] in errs
    requires forall j :: 0 <= j < i ==> order[j] !in errs
    ensures FirstErr(errs, order) == Some(errs[order[i]])
  {
    var r := FirstErr(errs, order);
    assert AnyFailed(errs, order);
    var i0 :| 0 <= i0 < |order| && order[i0] in errs && r == Some(errs[order[i0]]) &&
              forall j :: 0 <= j < i0 ==> order[j] !in errs;
    assert i0 == i;
  }

  /** `for k, v := range dbMap { tx, e := v.Begin(); if e != nil { return e };
      txMap[k] = tx }`. */
  method BeginShards(dbMap: map<int, Handle>, o: ShardOutcome) returns (r: Result<map<int, Tx>, Value>)
    requires IsOrder(o.order, dbMap.Keys)
    ensures r == BeginAll(dbMap, o)
  {
    var txMap: map<int, Tx> := map[];
    var i := 0;
    while i < |o.order|
      invariant 0 <= i <= |o.order|
      invariant forall j :: 0 <= j < i ==> o.order[j] !in o.errs
      invariant forall k :: k in txMap <==> k in o.order[..i]
      invariant forall k :: k in txMap ==> k in dbMap && txMap[k] == Tx(dbMap[k])
    {
      var k := o.order[i];
      assert o.order[..i + 1] == o.order[..i] + [k];
      if k in o.errs {
        FirstErrAt(o.errs, o.order, i);
        return Err(o.errs[k]);
      }
      txMap := txMap[k := Tx(dbMap[k])];
      i := i + 1;
    }
    assert o.order[..i] == o.order;
    assert !AnyFailed(o.errs, o.order);
    forall k | k in dbMap
      ensures k in txMap
    {
      assert k in dbMap.Keys;
    }
    var want := map k | k in dbMap :: Tx(dbMap[k]);
    assert forall k :: k in txMap <==> k in want;
    assert forall k :: k in txMap ==> txMap[k] == want[k];
    assert txMap == want;
    assert FirstErr(o.errs, o.order) == None;
    return Ok(txMap);
  }

  /** The request context's transaction keys. The global-context handles and
      the slave index fixed for the request are constants of it. */
  class RequestContext {
    const topo: Topology
    const slaveIndex: nat
    var txMasterW: Option<Tx>
    var isMasterWTxStart: bool
    var txMasterR: Option<Tx>
    var isMasterRTxStart: bool
    var txShardWMap: Option<map<int, Tx>>
    var isShardWTxStart: bool
    var txShardRMap: Option<map<int, Tx>>
    var isShardRTxStart: bool

    /** The slots the keys hold. */
    function State(): Slots
      reads this
    {
      Slots(MasterSlot(txMasterW, isMasterWTxStart), MasterSlot(txMasterR, isMasterRTxStart),
            ShardSlot(txShardWMap, isShardWTxStart), ShardSlot(txShardRMap, isShardRTxStart))
    }

    /** A request whose slave index was fixed on entry, with nothing stored. */
    constructor (topo: Topology, slaveIndex: nat)
      ensures this.topo == topo && this.slaveIndex == slaveIndex
      ensures State() == Empty
    {
      this.topo := topo;
      this.slaveIndex := slaveIndex;
      txMasterW, isMasterWTxStart, txMasterR, isMasterRTxStart := None, false, None, false;
      txShardWMap, isShardWTxStart, txShardRMap, isShardRTxStart := None, false, None, false;
    }

    /** `c.Set(txKey, tx)` and `c.Set(isKey, flag)` for a master slot. */
    method SetMaster(w: bool, v: MasterSlot)
      modifies this
      ensures State() == WithMaster(old(State()), w, v)
    {
      if w {
        txMasterW, isMasterWTxStart := v.tx, v.started;
      } else {
        txMasterR, isMasterRTxStart := v.tx, v.started;
      }
    }

    /** `c.Set(txKey, txMap)` and `c.Set(isKey, flag)` for a shard slot. */
    method SetShard(w: bool, v: ShardSlot)
      modifies this
      ensures State() == WithShard(old(State()), w, v)
    {
      if w {
        txShardWMap, isShardWTxStart := v.txs, v.started;
      } else {
        txShardRMap, isShardRTxStart := v.txs, v.started;
      }
    }
  }
}
