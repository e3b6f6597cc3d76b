/** The per-request transaction coordinator of src/sample/DBI/DBI.go, as
    transitions of the request context's slots. Every Begin, Commit and
    Rollback outcome is an input; errors are `error` values (`None` is nil). */
module DBISpec {
  import opened Wrappers
  import opened GoValues
  import opened TxContext
  import Weights

  const ConnectionIsNil: string := "connection is nil!!"
  const ShardMapIsNil: string := "shardMap is nil!!"
  const NotFoundTransaction: string := "not found transaction!!"

  /** `DecideUseSlave`: the entry of the expanded slave-weight list at the
      drawn position `rand.Intn(len(slaveWeights))`; `draw` is that draw,
      within the list whenever it is non-empty. On the empty list (no
      replica with a positive weight) `rand.Intn(0)` panics. */
  function DecideUseSlave(slaveWeights: seq<int>, draw: nat): (r: Outcome<int>)
    requires |slaveWeights| > 0 ==> draw < |slaveWeights|
    ensures r.Panic? <==> |slaveWeights| == 0
    ensures !r.Fail?
    ensures r.Done? ==> r.value in slaveWeights
  {
    if |slaveWeights| == 0 then Panic else Done(slaveWeights[draw])
  }

  /** `GetDBMasterConnection`: the write master for "W", the request's
      replica for "R". The backup mode leaves the connection nil, and the
      error of any other mode is overwritten by the nil-connection error. */
  function GetDBMasterConnection(topo: Topology, slaveIndex: nat, mode: string): (r: Result<Handle, Value>)
    requires mode == ModeR ==> ReadableAt(topo, slaveIndex)
    ensures r.Ok? <==> mode == ModeW || mode == ModeR
    ensures mode == ModeW ==> r == Ok(topo.masterW)
    ensures mode == ModeR ==> r == Ok(topo.masterRs[slaveIndex])
    ensures r.Err? ==> r.error == GoErr(ConnectionIsNil)
  {
    var conn: Option<Handle> :=
      if mode == ModeW then Some(topo.masterW)
      else if mode == ModeR then Some(topo.masterRs[slaveIndex])
      else None;
    if conn.None? then Err(GoErr(ConnectionIsNil)) else Ok(conn.value)
  }

  /** `GetDBShardMap`: the write shard map for "W", the request's replica map
      for "R", and the nil-map error for any other mode. */
  function GetDBShardMap(topo: Topology, slaveIndex: nat, mode: string): (r: Result<map<int, Handle>, Value>)
    requires mode == ModeR ==> ReadableAt(topo, slaveIndex)
    ensures r.Ok? <==> mode == ModeW || mode == ModeR
    ensures mode == ModeW ==> r == Ok(topo.shardW)
    ensures mode == ModeR ==> r == Ok(topo.shardRs[slaveIndex])
    ensures r.Err? ==> r.error == GoErr(ShardMapIsNil)
  {
    var shardMap: Option<map<int, Handle>> :=
      if mode == ModeW then Some(topo.shardW)
      else if mode == ModeR then Some(topo.shardRs[slaveIndex])
      else None;
    if shardMap.None? then Err(GoErr(ShardMapIsNil)) else Ok(shardMap.value)
  }

  /** The begin outcome describes a loop over the shard map the mode
      selects. */
  predicate BeginFits(topo: Topology, slaveIndex: nat, mode: string, begin: ShardOutcome)
    requires mode == ModeR ==> ReadableAt(topo, slaveIndex)
  {
    ErrsNonNil(begin.errs) &&
    (GetDBShardMap(topo, slaveIndex, mode).Ok? ==> IsOrder(begin.order, GetDBShardMap(topo, slaveIndex, mode).value.Keys))
  }

  /** `MasterTxStart`: nothing when the slot's flag is set; otherwise the
      connection's error or Begin's error with the context untouched, or the
      new transaction stored with its flag. */
  function MasterTxStart(topo: Topology, slaveIndex: nat, s: Slots, mode: string, beginErr: Option<Value>): (r: (Slots, Option<Value>))
    requires mode == ModeR ==> ReadableAt(topo, slaveIndex)
    ensures Master(s, IsW(mode)).started ==> r == (s, None)
    ensures r.1.Some? ==> r.0 == s
    ensures !Master(s, IsW(mode)).started ==>
              (r.1.None? <==> (mode == ModeW || mode == ModeR) && beginErr.None?)
    ensures !Master(s, IsW(mode)).started && mode != ModeW && mode != ModeR ==> r.1 == Some(GoErr(ConnectionIsNil))
    ensures !Master(s, IsW(mode)).started && (mode == ModeW || mode == ModeR) ==> r.1 == beginErr
    ensures !Master(s, IsW(mode)).started && r.1.None? ==>
              r.0 == WithMaster(s, IsW(mode), MasterSlot(Some(Tx(GetDBMasterConnection(topo, slaveIndex, mode).value)), true))
  {
    var w := IsW(mode);
    if IsTransactonStart(s, false, w) then (s, None)
    else match GetDBMasterConnection(topo, slaveIndex, mode)
      case Err(e) => (s, Some(e))
      case Ok(db) =>
        if beginErr.Some? then (s, beginErr)
        else (WithMaster(s, w, MasterSlot(Some(Tx(db)), true)), None)
  }

  /** `ShardAllTxStart`: nothing when the flag is set; otherwise the map's
      error, or the first failing Begin's error with nothing stored, or one
      transaction per shard handle stored with the flag. */
  function ShardAllTxStart(topo: Topology, slaveIndex: nat, s: Slots, mode: string, begin: ShardOutcome): (r: (Slots, Option<Value>))
    requires mode == ModeR ==> ReadableAt(topo, slaveIndex)
    requires BeginFits(topo, slaveIndex, mode, begin)
    ensures Shard(s, IsW(mode)).started ==> r == (s, None)
    ensures r.1.Some? ==> r.0 == s
    ensures !Shard(s, IsW(mode)).started && mode != ModeW && mode != ModeR ==> r.1 == Some(GoErr(ShardMapIsNil))
    ensures !Shard(s, IsW(mode)).started && (mode == ModeW || mode == ModeR) ==>
              var dbMap := GetDBShardMap(topo, slaveIndex, mode).value;
              (r.1.None? <==> forall k :: k in dbMap ==> k !in begin.errs) &&
              (r.1.Some? ==> exists k :: k in dbMap && k in begin.errs && r.1 == Some(begin.errs[k])) &&
              (r.1.None? ==> r.0 == WithShard(s, IsW(mode), ShardSlot(Some(map k | k in dbMap :: Tx(dbMap[k])), true)))
  {
    var w := IsW(mode);
    if IsTransactonStart(s, true, w) then (s, None)
    else match GetDBShardMap(topo, slaveIndex, mode)
      case Err(e) => (s, Some(e))
      case Ok(dbMap) =>
        match BeginAll(dbMap, begin)
        case Err(e) => (s, Some(e))
        case Ok(txMap) => (WithShard(s, w, ShardSlot(Some(txMap), true)), None)
  }

  /** `masterCommit`: Commit's error when a write-master transaction is held;
      the slot and flag are cleared only when the commit succeeds. */
  function MasterCommit(s: Slots, err: Option<Value>): (r: (Slots, Option<Value>))
    ensures s.masterW.tx.None? ==> r == (s, None)
    ensures s.masterW.tx.Some? ==> r.1 == err
    ensures r.0.masterW == if s.masterW.tx.Some? && err.None? then NoMaster else s.masterW
    ensures r.0.masterR == s.masterR && r.0.shardW == s.shardW && r.0.shardR == s.shardR
  {
    if s.masterW.tx.Some? then
      if err.None? then (s.(masterW := NoMaster), None) else (s, err)
    else (s, None)
  }

  /** `masterRollback`: the same for the master slot the mode selects. */
  function MasterRollback(s: Slots, mode: string, err: Option<Value>): (r: (Slots, Option<Value>))
    ensures Master(s, IsW(mode)).tx.None? ==> r == (s, None)
    ensures Master(s, IsW(mode)).tx.Some? ==> r.1 == err
    ensures Master(r.0, IsW(mode)) == if Master(s, IsW(mode)).tx.Some? && err.None? then NoMaster else Master(s, IsW(mode))
    ensures Master(r.0, !IsW(mode)) == Master(s, !IsW(mode)) && r.0.shardW == s.shardW && r.0.shardR == s.shardR
  {
    var w := IsW(mode);
    if Master(s, w).tx.Some? then
      if err.None? then (WithMaster(s, w, NoMaster), None) else (s, err)
    else (s, None)
  }

  /** `shardCommit`: `hasError` is never set, so a held write map is always
      dropped with its flag, failed transactions included, and the error is
      the last visited shard's (nil when that one succeeded). */
  function ShardCommit(s: Slots, o: ShardOutcome): (r: (Slots, Option<Value>))
    requires Fits(o, s.shardW)
    ensures s.shardW.txs.None? ==> r == (s, None)
    ensures s.shardW.txs.Some? ==> r.1 == LastErr(o.errs, o.order)
    ensures r.0.shardW == if s.shardW.txs.Some? then NoShard else s.shardW
    ensures r.0.shardR == s.shardR && r.0.masterW == s.masterW && r.0.masterR == s.masterR
  {
    if s.shardW.txs.Some? then (s.(shardW := NoShard), LastErr(o.errs, o.order))
    else (s, None)
  }

  /** `shardRollback`: the same for the shard slot the mode selects. */
  function ShardRollback(s: Slots, mode: string, o: ShardOutcome): (r: (Slots, Option<Value>))
    requires Fits(o, Shard(s, IsW(mode)))
    ensures Shard(s, IsW(mode)).txs.None? ==> r == (s, None)
    ensures Shard(s, IsW(mode)).txs.Some? ==> r.1 == LastErr(o.errs, o.order)
    ensures Shard(r.0, IsW(mode)) == if Shard(s, IsW(mode)).txs.Some? then NoShard else Shard(s, IsW(mode))
    ensures Shard(r.0, !IsW(mode)) == Shard(s, !IsW(mode)) && r.0.masterW == s.masterW && r.0.masterR == s.masterR
  {
    var w := IsW(mode);
    if Shard(s, w).txs.Some? then (WithShard(s, w, NoShard), LastErr(o.errs, o.order))
    else (s, None)
  }

  /** `Commit`: master-W commit, shard-W commit, then rollback of the read
      master and read shards; only the last step's error is returned. */
  function Commit(s: Slots, mw: Option<Value>, sw: ShardOutcome, mr: Option<Value>, sr: ShardOutcome): (r: (Slots, Option<Value>))
    requires Fits(sw, s.shardW) && Fits(sr, s.shardR)
    ensures r.0.shardW == (if s.shardW.txs.Some? then NoShard else s.shardW)
    ensures r.0.shardR == (if s.shardR.txs.Some? then NoShard else s.shardR)
    ensures r.0.masterW == if s.masterW.tx.Some? && mw.None? then NoMaster else s.masterW
    ensures r.0.masterR == if s.masterR.tx.Some? && mr.None? then NoMaster else s.masterR
    ensures r.1 == if s.shardR.txs.Some? then LastErr(sr.errs, sr.order) else None
  {
    var (s1, _) := MasterCommit(s, mw);
    var (s2, _) := ShardCommit(s1, sw);
    var (s3, _) := MasterRollback(s2, ModeR, mr);
    ShardRollback(s3, ModeR, sr)
  }

  /** `RollBack`: both masters, then both shard maps; only the read-shard
      rollback's error is returned. */
  function RollBack(s: Slots, mw: Option<Value>, mr: Option<Value>, sw: ShardOutcome, sr: ShardOutcome): (r: (Slots, Option<Value>))
    requires Fits(sw, s.shardW) && Fits(sr, s.shardR)
    ensures r.0.shardW == (if s.shardW.txs.Some? then NoShard else s.shardW)
    ensures r.0.shardR == (if s.shardR.txs.Some? then NoShard else s.shardR)
    ensures r.0.masterW == if s.masterW.tx.Some? && mw.None? then NoMaster else s.masterW
    ensures r.0.masterR == if s.masterR.tx.Some? && mr.None? then NoMaster else s.masterR
    ensures r.1 == if s.shardR.txs.Some? then LastErr(sr.errs, sr.order) else None
  {
    var (s1, _) := MasterRollback(s, ModeW, mw);
    var (s2, _) := MasterRollback(s1, ModeR, mr);
    var (s3, _) := ShardRollback(s2, ModeW, sw);
    ShardRollback(s3, ModeR, sr)
  }

  /** `GetTransaction`: start the slot the mode selects if needed, then read
      the transaction (for a shard, the map's entry); a start error is
      returned as is, and a missing transaction is "not found transaction!!". */
  function GetTransaction(topo: Topology, slaveIndex: nat, s: Slots, mode: string, isShard: bool, shardId: int,
                          beginErr: Option<Value>, begin: ShardOutcome): (r: (Slots, Result<Tx, Value>))
    requires mode == ModeR ==> ReadableAt(topo, slaveIndex)
    requires BeginFits(topo, slaveIndex, mode, begin)
  {
    var w := IsW(mode);
    if isShard then
      var (s1, err) := ShardAllTxStart(topo, slaveIndex, s, mode, begin);
      if err.Some? then (s1, Err(err.value))
      else
        var tx := if Shard(s1, w).txs.Some? && shardId in Shard(s1, w).txs.value
                  then Some(Shard(s1, w).txs.value[shardId]) else None;
        (s1, if tx.None? then Err(GoErr(NotFoundTransaction)) else Ok(tx.value))
    else
      var (s1, err) := MasterTxStart(topo, slaveIndex, s, mode, beginErr);
      if err.Some? then (s1, Err(err.value))
      else (s1, if Master(s1, w).tx.None? then Err(GoErr(NotFoundTransaction)) else Ok(Master(s1, w).tx.value))
  }

  // ---------------------------------------------------------------------
  // Properties relating the operations

  /** Starting a master transaction keeps each flag in step with its slot. */
  lemma ConsistentByMasterStart(topo: Topology, slaveIndex: nat, s: Slots, mode: string, err: Option<Value>)
    requires mode == ModeR ==> ReadableAt(topo, slaveIndex)
    requires Consistent(s)
    ensures Consistent(MasterTxStart(topo, slaveIndex, s, mode, err).0)
  {
  }

  /** Starting the shard transactions keeps each flag in step with its slot. */
  lemma ConsistentByShardStart(topo: Topology, slaveIndex: nat, s: Slots, mode: string, begin: ShardOutcome)
    requires mode == ModeR ==> ReadableAt(topo, slaveIndex)
    requires BeginFits(topo, slaveIndex, mode, begin)
    requires Consistent(s)
    ensures Consistent(ShardAllTxStart(topo, slaveIndex, s, mode, begin).0)
  {
  }

  /** Committing or rolling back a master keeps each flag in step with its
      slot. */
  lemma ConsistentByMasterFinish(s: Slots, mode: string, err: Option<Value>)
    requires Consistent(s)
    ensures Consistent(MasterCommit(s, err).0) && Consistent(MasterRollback(s, mode, err).0)
  {
  }

  /** A shard commit keeps each flag in step with its slot. */
  lemma ConsistentByShardCommit(s: Slots, o: ShardOutcome)
    requires Consistent(s) && Fits(o, s.shardW)
    ensures Consistent(ShardCommit(s, o).0)
  {
  }

  /** The same for a shard rollback. */
  lemma ConsistentByShardRollback(s: Slots, mode: string, o: ShardOutcome)
    requires Consistent(s) && Fits(o, Shard(s, IsW(mode)))
    ensures Consistent(ShardRollback(s, mode, o).0)
  {
  }

  /** Starting a started slot again is a no-op, with any Begin outcome. */
  lemma {:induction false} StartIdempotent(topo: Topology, slaveIndex: nat, s: Slots, mode: string,
                                           e1: Option<Value>, e2: Option<Value>, b1: ShardOutcome, b2: ShardOutcome)
    requires mode == ModeR ==> ReadableAt(topo, slaveIndex)
    requires BeginFits(topo, slaveIndex, mode, b1) && BeginFits(topo, slaveIndex, mode, b2)
    ensures var (s1, r1) := MasterTxStart(topo, slaveIndex, s, mode, e1);
            r1.None? ==> MasterTxStart(topo, slaveIndex, s1, mode, e2) == (s1, None)
    ensures var (s1, r1) := ShardAllTxStart(topo, slaveIndex, s, mode, b1);
            r1.None? ==> ShardAllTxStart(topo, slaveIndex, s1, mode, b2) == (s1, None)
  {
    var (s1, r1) := MasterTxStart(topo, slaveIndex, s, mode, e1);
    if r1.None? {
      assert Master(s1, IsW(mode)).started;
    }
    var (t1, q1) := ShardAllTxStart(topo, slaveIndex, s, mode, b1);
    if q1.None? {
      assert Shard(t1, IsW(mode)).started;
    }
  }

  /** GetTransaction on the master returns the slot's transaction, begun on
      the mode's connection, once the start succeeds; a failed start is
      returned with the context unchanged. */
  lemma GetMasterTransaction(topo: Topology, slaveIndex: nat, s: Slots, mode: string, shardId: int,
                             beginErr: Option<Value>, begin: ShardOutcome)
    requires mode == ModeR ==> ReadableAt(topo, slaveIndex)
    requires BeginFits(topo, slaveIndex, mode, begin)
    requires Consistent(s)
    ensures var (s1, r) := GetTransaction(topo, slaveIndex, s, mode, false, shardId, beginErr, begin);
            var (t1, e) := MasterTxStart(topo, slaveIndex, s, mode, beginErr);
            s1 == t1 && (e.Some? ==> r == Err(e.value)) &&
            (e.None? ==> r.Ok? && Master(s1, IsW(mode)).tx == Some(r.value)) &&
            (e.None? && !Master(s, IsW(mode)).started ==> r == Ok(Tx(GetDBMasterConnection(topo, slaveIndex, mode).value)))
  {
  }

  /** GetTransaction on a shard yields the transaction of that shard when its
      id is one of the map's keys, and "not found transaction!!" otherwise,
      the started map then staying in place. */
  lemma GetShardTransaction(topo: Topology, slaveIndex: nat, s: Slots, mode: string, shardId: int,
                            beginErr: Option<Value>, begin: ShardOutcome)
    requires mode == ModeW || mode == ModeR
    requires mode == ModeR ==> ReadableAt(topo, slaveIndex)
    requires BeginFits(topo, slaveIndex, mode, begin)
    requires Shard(s, IsW(mode)) == NoShard
    requires forall k :: k in GetDBShardMap(topo, slaveIndex, mode).value ==> k !in begin.errs
    ensures var dbMap := GetDBShardMap(topo, slaveIndex, mode).value;
            var (s1, r) := GetTransaction(topo, slaveIndex, s, mode, true, shardId, beginErr, begin);
            Shard(s1, IsW(mode)).started &&
            r == if shardId in dbMap then Ok(Tx(dbMap[shardId])) else Err(GoErr(NotFoundTransaction))
  {
  }

  /** GetTransaction on a shard, in every case: a start error is passed on
      as is; otherwise it succeeds exactly when the shard id is a key of the
      slot's map, with that entry, and fails with "not found transaction!!"
      when it is not. A slot started earlier is reused untouched, and a fresh
      one holds a transaction on each handle of the mode's shard map. */
  lemma GetShardTransactionResult(topo: Topology, slaveIndex: nat, s: Slots, mode: string, shardId: int,
                                  beginErr: Option<Value>, begin: ShardOutcome)
    requires mode == ModeR ==> ReadableAt(topo, slaveIndex)
    requires BeginFits(topo, slaveIndex, mode, begin)
    ensures var (s1, r) := GetTransaction(topo, slaveIndex, s, mode, true, shardId, beginErr, begin);
            var (t1, e) := ShardAllTxStart(topo, slaveIndex, s, mode, begin);
            var txs := Shard(t1, IsW(mode)).txs;
            s1 == t1 &&
            (e.Some? ==> r == Err(e.value) && s1 == s) &&
            (e.None? ==> (r.Ok? <==> txs.Some? && shardId in txs.value)) &&
            (e.None? && r.Ok? ==> r.value == txs.value[shardId]) &&
            (e.None? && r.Err? ==> r.error == GoErr(NotFoundTransaction)) &&
            (Shard(s, IsW(mode)).started ==> s1 == s && e.None?) &&
            (!Shard(s, IsW(mode)).started && e.None? ==>
               (mode == ModeW || mode == ModeR) && txs.Some? &&
               txs.value == map k | k in GetDBShardMap(topo, slaveIndex, mode).value :: Tx(GetDBShardMap(topo, slaveIndex, mode).value[k]))
  {
  }

  /** Commit always drops both shard slots, even after a failed shard
      commit whose error the later steps hide; a failed commit of the write
      master keeps that slot. */
  lemma {:induction false} CommitDropsFailedShards(s: Slots, m: map<int, Tx>, e: Value, tx: Tx)
    requires s.shardW == ShardSlot(Some(m), true) && m.Keys == {1, 2} && e != Nil
    requires s.masterW == MasterSlot(Some(tx), true) && s.shardR == NoShard
    ensures var o := ShardOutcome(map[1 := e], [1, 2]);
            var (s1, err) := Commit(s, Some(e), o, None, ShardOutcome(map[], []));
            AnyFailed(o.errs, o.order) && s1.shardW == NoShard && err == None && s1.masterW == s.masterW
  {
    var o := ShardOutcome(map[1 := e], [1, 2]);
    assert IsOrder(o.order, m.Keys) by {
      assert forall k :: k in o.order ==> k == 1 || k == 2;
    }
    LastErrMasksFailure(e);
  }

  /** RollBack with nothing started touches nothing and returns nil. */
  lemma RollBackNothingStarted(mw: Option<Value>, mr: Option<Value>, sw: ShardOutcome, sr: ShardOutcome)
    requires ErrsNonNil(sw.errs) && ErrsNonNil(sr.errs)
    ensures RollBack(Empty, mw, mr, sw, sr) == (Empty, None)
    ensures Commit(Empty, mw, sw, mr, sr) == (Empty, None)
  {
  }

  /** A rollback in which every call succeeds leaves a fresh context. */
  lemma RollBackClearsAll(s: Slots, sw: ShardOutcome, sr: ShardOutcome)
    requires Consistent(s)
    requires Fits(sw, s.shardW) && Fits(sr, s.shardR)
    ensures RollBack(s, None, None, sw, sr).0 == Empty
  {
  }

  /** The slave-weight list only ever selects a replica whose weight is
      positive, and it panics exactly when no replica has one. */
  lemma DecideUseSlaveWeighted(weights: seq<int>, draw: nat)
    requires |Weights.Expand(Weights.Indexed(weights))| > 0 ==> draw < |Weights.Expand(Weights.Indexed(weights))|
    ensures var r := DecideUseSlave(Weights.Expand(Weights.Indexed(weights)), draw);
            (r.Panic? <==> forall k :: 0 <= k < |weights| ==> weights[k] <= 0) &&
            (r.Done? ==> 0 <= r.value < |weights| && weights[r.value] > 0)
  {
    var rows := Weights.Indexed(weights);
    var list := Weights.Expand(rows);
    var r := DecideUseSlave(list, draw);
    if r.Done? {
      Weights.ExpandMember(rows, r.value);
    } else {
      forall k | 0 <= k < |weights| ensures weights[k] <= 0 {
        Weights.ExpandMember(rows, k);
        assert rows[k].0 == k;
      }
    }
  }
}

/** The DBI.go functions over a request context. */
module DBI {
  import opened Wrappers
  import opened GoValues
  import opened TxContext
  import Weights
  import DBISpec

  /** The shard-id loop of `BuildInstances`: `shardIds` grows by 1..shard. */
  method BuildShardIds(shardIds: seq<int>, shard: int) returns (r: seq<int>)
    ensures r == shardIds + Weights.ShardRange(shard)
  {
    r := shardIds;
    var i := 0;
    while i < shard
      invariant 0 <= i <= if shard > 0 then shard else 0
      invariant r == shardIds + Weights.ShardRange(i)
    {
      r := r + [i + 1];
      i := i + 1;
    }
  }

  /** The weight loop inside the slave loop of `BuildInstances`: the slave's
      index appended once per unit of its weight. */
  method AppendSlaveWeight(slaveWeights: seq<int>, slaveIndex: int, weight: int) returns (r: seq<int>)
    ensures r == slaveWeights + Weights.Repeat(slaveIndex, weight)
  {
    r := slaveWeights;
    var i := 0;
    while i < weight
      invariant 0 <= i <= if weight > 0 then weight else 0
      invariant r == slaveWeights + Weights.Repeat(slaveIndex, i)
    {
      r := r + [slaveIndex];
      i := i + 1;
    }
  }

  /** Running the weight loop for every configured slave in order builds the
      expanded list of the indexed weights. */
  method BuildSlaveWeights(weights: seq<int>) returns (r: seq<int>)
    ensures r == Weights.Expand(Weights.Indexed(weights))
  {
    r := [];
    var j := 0;
    while j < |weights|
      invariant 0 <= j <= |weights|
      invariant r == Weights.Expand(Weights.Indexed(weights[..j]))
    {
      assert Weights.Indexed(weights[..j + 1])[..j] == Weights.Indexed(weights[..j]);
      r := AppendSlaveWeight(r, j, weights[j]);
      j := j + 1;
    }
    assert weights[..j] == weights;
  }

  method MasterTxStart(c: RequestContext, mode: string, beginErr: Option<Value>) returns (err: Option<Value>)
    requires mode == ModeR ==> ReadableAt(c.topo, c.slaveIndex)
    modifies c
    ensures (c.State(), err) == DBISpec.MasterTxStart(c.topo, c.slaveIndex, old(c.State()), mode, beginErr)
  {
    var w := IsW(mode);
    if IsTransactonStart(c.State(), false, w) {
      return None;
    }
    var db := DBISpec.GetDBMasterConnection(c.topo, c.slaveIndex, mode);
    if db.Err? {
      return Some(db.error);
    }
    if beginErr.Some? {
      return beginErr;
    }
    c.SetMaster(w, MasterSlot(Some(Tx(db.value)), true));
    return None;
  }

  method ShardAllTxStart(c: RequestContext, mode: string, begin: ShardOutcome) returns (err: Option<Value>)
    requires mode == ModeR ==> ReadableAt(c.topo, c.slaveIndex)
    requires DBISpec.BeginFits(c.topo, c.slaveIndex, mode, begin)
    modifies c
    ensures (c.State(), err) == DBISpec.ShardAllTxStart(c.topo, c.slaveIndex, old(c.State()), mode, begin)
  {
    var w := IsW(mode);
    if IsTransactonStart(c.State(), true, w) {
      return None;
    }
    var dbMap := DBISpec.GetDBShardMap(c.topo, c.slaveIndex, mode);
    if dbMap.Err? {
      return Some(dbMap.error);
    }
    var txMap := BeginShards(dbMap.value, begin);
    if txMap.Err? {
      return Some(txMap.error);
    }
    c.SetShard(w, ShardSlot(Some(txMap.value), true));
    return None;
  }

  method MasterCommit(c: RequestContext, commitErr: Option<Value>) returns (err: Option<Value>)
    modifies c
    ensures (c.State(), err) == DBISpec.MasterCommit(old(c.State()), commitErr)
  {
    err := None;
    if c.txMasterW.Some? {
      err := commitErr;
      if err.None? {
        c.SetMaster(true, NoMaster);
      }
    }
  }

  method MasterRollback(c: RequestContext, mode: string, rollbackErr: Option<Value>) returns (err: Option<Value>)
    modifies c
    ensures (c.State(), err) == DBISpec.MasterRollback(old(c.State()), mode, rollbackErr)
  {
    err := None;
    var w := IsW(mode);
    if Master(c.State(), w).tx.Some? {
      err := rollbackErr;
      if err.None? {
        c.SetMaster(w, NoMaster);
      }
    }
  }

  method ShardCommit(c: RequestContext, o: ShardOutcome) returns (err: Option<Value>)
    requires Fits(o, c.State().shardW)
    modifies c
    ensures (c.State(), err) == DBISpec.ShardCommit(old(c.State()), o)
  {
    err := None;
    var hasError := false;
    if c.txShardWMap.Some? {
      var rest, last, failed := FinishShards(c.txShardWMap.value, o);
      err := last;
      c.SetShard(true, ShardSlot(Some(rest), c.isShardWTxStart));
      if !hasError {
        c.SetShard(true, NoShard);
      }
    }
  }

  method ShardRollback(c: RequestContext, mode: string, o: ShardOutcome) returns (err: Option<Value>)
    requires Fits(o, Shard(c.State(), IsW(mode)))
    modifies c
    ensures (c.State(), err) == DBISpec.ShardRollback(old(c.State()), mode, o)
  {
    err := None;
    var hasError := false;
    var w := IsW(mode);
    var txMap := Shard(c.State(), w);
    if txMap.txs.Some? {
      var rest, last, failed := FinishShards(txMap.txs.value, o);
      err := last;
      c.SetShard(w, ShardSlot(Some(rest), txMap.started));
      if !hasError {
        c.SetShard(w, NoShard);
      }
    }
  }

  method Commit(c: RequestContext, mw: Option<Value>, sw: ShardOutcome, mr: Option<Value>, sr: ShardOutcome)
    returns (err: Option<Value>)
    requires Fits(sw, c.State().shardW) && Fits(sr, c.State().shardR)
    modifies c
    ensures (c.State(), err) == DBISpec.Commit(old(c.State()), mw, sw, mr, sr)
  {
    err := MasterCommit(c, mw);
    err := ShardCommit(c, sw);
    err := MasterRollback(c, ModeR, mr);
    err := ShardRollback(c, ModeR, sr);
  }

  method RollBack(c: RequestContext, mw: Option<Value>, mr: Option<Value>, sw: ShardOutcome, sr: ShardOutcome)
    returns (err: Option<Value>)
    requires Fits(sw, c.State().shardW) && Fits(sr, c.State().shardR)
    modifies c
    ensures (c.State(), err) == DBISpec.RollBack(old(c.State()), mw, mr, sw, sr)
  {
    err := MasterRollback(c, ModeW, mw);
    err := MasterRollback(c, ModeR, mr);
    err := ShardRollback(c, ModeW, sw);
    err := ShardRollback(c, ModeR, sr);
  }

  method GetTransaction(c: RequestContext, mode: string, isShard: bool, shardId: int,
                        beginErr: Option<Value>, begin: ShardOutcome) returns (tx: Result<Tx, Value>)
    requires mode == ModeR ==> ReadableAt(c.topo, c.slaveIndex)
    requires DBISpec.BeginFits(c.topo, c.slaveIndex, mode, begin)
    modifies c
    ensures (c.State(), tx) == DBISpec.GetTransaction(c.topo, c.slaveIndex, old(c.State()), mode, isShard, shardId, beginErr, begin)
  {
    var w := IsW(mode);
    var found: Option<Tx> := None;
    if isShard {
      var err := ShardAllTxStart(c, mode, begin);
      if err.Some? {
        return Err(err.value);
      }
      var sMap := Shard(c.State(), w).txs;
      if sMap.Some? && shardId in sMap.value {
        found := Some(sMap.value[shardId]);
      }
    } else {
      var err := MasterTxStart(c, mode, beginErr);
      if err.Some? {
        return Err(err.value);
      }
      found := Master(c.State(), w).tx;
    }
    if found.None? {
      return Err(GoErr(DBISpec.NotFoundTransaction));
    }
    return Ok(found.value);
  }
}
