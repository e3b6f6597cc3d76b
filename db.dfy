/** The per-request transaction coordinator of src/sample/common/db/db.go,
    the ErrWriter-based successor of DBI.go, as transitions of the request
    context's slots. Errors are error stacks (`Err.ErrWriter`) whose caller
    items name the db.go function and line that wrote them. */
module DbSpec {
  import opened Wrappers
  import opened GoValues
  import opened TxContext
  import Err

  /** The directory the binary was built in; `runtime.Caller` reports
      absolute paths below it. */
  const GoPath: string := "/go"
  const DbFile: string := GoPath + "/src/sample/common/db/db.go"

  /** The caller items of an error written in db.go function `fn` at `line`. */
  function Site(fn: string, line: int): Err.Caller {
    Err.Caller("sample/common/db." + fn, DbFile, line)
  }

  const InvalidMode: string := "invalid mode!!"
  const ConnectionIsNil: string := "connection is nil!!"
  const ShardMapIsNil: string := "shardMap is nil!!"
  const NotFoundTransaction: string := "not found transaction!!"
  const ShardStartFailed: string := "shard transaction start failed!!"
  const MasterStartFailed: string := "master transaction start failed!!"

  /** The empty error stack. */
  const NoErr: Err.ErrWriter := Err.ErrWriter([])

  /** An `error` passed as a message: nil stays a (nil) message. */
  function NilOr(e: Option<Value>): Value {
    if e.Some? then e.value else Nil
  }

  /** `DecideUseSlave`: the entry of the expanded slave-weight list at the
      drawn position `rand.Intn(len(slaveWeights))`, which panics on the
      empty list. */
  function DecideUseSlave(slaveWeights: seq<int>, draw: nat): (r: Outcome<int>)
    requires |slaveWeights| > 0 ==> draw < |slaveWeights|
    ensures r.Panic? <==> |slaveWeights| == 0
    ensures !r.Fail?
    ensures r.Done? ==> exists i :: 0 <= i < |slaveWeights| && slaveWeights[i] == r.value
  {
    if |slaveWeights| == 0 then Panic else Done(slaveWeights[draw])
  }

  /** `GetDBMasterConnection`: the write master for "W", the request's
      replica for "R"; the backup mode ends in "connection is nil!!", and any
      other mode returns at once with "invalid mode!!". */
  function GetDBMasterConnection(topo: Topology, slaveIndex: nat, mode: string): (r: Result<Handle, Err.ErrWriter>)
    requires mode == ModeR ==> ReadableAt(topo, slaveIndex)
    ensures r.Ok? <==> mode == ModeW || mode == ModeR
    ensures mode == ModeW ==> r == Ok(topo.masterW)
    ensures mode == ModeR ==> r == Ok(topo.masterRs[slaveIndex])
    ensures mode == ModeBak ==> r.Err? && Err.HasErr(r.error) && r.error.errMsgs[0] == Str(ConnectionIsNil)
    ensures mode != ModeW && mode != ModeR && mode != ModeBak ==> r.Err? && Err.HasErr(r.error) && r.error.errMsgs[0] == Str(InvalidMode)
    ensures r.Err? ==> Err.HasErr(r.error)
  {
    var ew := Err.NewErrWriter([], Site("GetDBMasterConnection", 738));
    if mode == ModeW then Ok(topo.masterW)
    else if mode == ModeR then Ok(topo.masterRs[slaveIndex])
    else if mode == ModeBak then Err(Err.Write(ew, [Str(ConnectionIsNil)], Site("GetDBMasterConnection", 760)))
    else Err(Err.Write(ew, [Str(InvalidMode)], Site("GetDBMasterConnection", 755)))
  }

  /** `GetDBShardMap`: the same selection for shard maps, with
      "shardMap is nil!!" for the backup mode. */
  function GetDBShardMap(topo: Topology, slaveIndex: nat, mode: string): (r: Result<map<int, Handle>, Err.ErrWriter>)
    requires mode == ModeR ==> ReadableAt(topo, slaveIndex)
    ensures r.Ok? <==> mode == ModeW || mode == ModeR
    ensures mode == ModeW ==> r == Ok(topo.shardW)
    ensures mode == ModeR ==> r == Ok(topo.shardRs[slaveIndex])
    ensures mode == ModeBak ==> r.Err? && Err.HasErr(r.error) && r.error.errMsgs[0] == Str(ShardMapIsNil)
    ensures mode != ModeW && mode != ModeR && mode != ModeBak ==> r.Err? && Err.HasErr(r.error) && r.error.errMsgs[0] == Str(InvalidMode)
    ensures r.Err? ==> Err.HasErr(r.error)
  {
    var ew := Err.NewErrWriter([], Site("GetDBShardMap", 798));
    if mode == ModeW then Ok(topo.shardW)
    else if mode == ModeR then Ok(topo.shardRs[slaveIndex])
    else if mode == ModeBak then Err(Err.Write(ew, [Str(ShardMapIsNil)], Site("GetDBShardMap", 821)))
    else Err(Err.Write(ew, [Str(InvalidMode)], Site("GetDBShardMap", 816)))
  }

  /** The begin outcome describes a loop over the shard map the mode
      selects. */
  predicate BeginFits(topo: Topology, slaveIndex: nat, mode: string, begin: ShardOutcome)
    requires mode == ModeR ==> ReadableAt(topo, slaveIndex)
  {
    ErrsNonNil(begin.errs) &&
    (GetDBShardMap(topo, slaveIndex, mode).Ok? ==> IsOrder(begin.order, GetDBShardMap(topo, slaveIndex, mode).value.Keys))
  }

  /** `MasterTxStart`: an empty stack when the slot is already started;
      otherwise the connection's stack or Begin's error, with the context
      untouched, or the new transaction stored with its flag. */
  function MasterTxStart(topo: Topology, slaveIndex: nat, s: Slots, mode: string, beginErr: Option<Value>): (r: (Slots, Err.ErrWriter))
    requires mode == ModeR ==> ReadableAt(topo, slaveIndex)
    ensures Master(s, IsW(mode)).started ==> r == (s, NoErr)
    ensures Err.HasErr(r.1) ==> r.0 == s
    ensures !Master(s, IsW(mode)).started ==>
              (Err.HasErr(r.1) <==> (mode != ModeW && mode != ModeR) || beginErr.Some?)
    ensures !Master(s, IsW(mode)).started && (mode == ModeW || mode == ModeR) && beginErr.Some? ==>
              r.1.errMsgs[0] == beginErr.value
    ensures !Master(s, IsW(mode)).started && !Err.HasErr(r.1) ==>
              r.0 == WithMaster(s, IsW(mode), MasterSlot(Some(Tx(GetDBMasterConnection(topo, slaveIndex, mode).value)), true))
  {
    var w := IsW(mode);
    if IsTransactonStart(s, false, w) then (s, Err.NewErrWriter([], Site("MasterTxStart", 352)))
    else match GetDBMasterConnection(topo, slaveIndex, mode)
      case Err(ew) => (s, Err.Write(ew, [], Site("MasterTxStart", 358)))
      case Ok(db) =>
        if beginErr.Some? then (s, Err.Write(NoErr, [beginErr.value], Site("MasterTxStart", 364)))
        else (WithMaster(s, w, MasterSlot(Some(Tx(db)), true)), NoErr)
  }

  /** `ShardAllTxStart`: an empty stack when already started; otherwise the
      map's stack, or the first failing Begin's error with nothing stored,
      or one transaction per shard handle stored with the flag. */
  function ShardAllTxStart(topo: Topology, slaveIndex: nat, s: Slots, mode: string, begin: ShardOutcome): (r: (Slots, Err.ErrWriter))
    requires mode == ModeR ==> ReadableAt(topo, slaveIndex)
    requires BeginFits(topo, slaveIndex, mode, begin)
    ensures Shard(s, IsW(mode)).started ==> r == (s, NoErr)
    ensures Err.HasErr(r.1) ==> r.0 == s
    ensures !Shard(s, IsW(mode)).started && mode != ModeW && mode != ModeR ==> Err.HasErr(r.1)
    ensures r.0 == WithShard(s, IsW(mode), Shard(r.0, IsW(mode)))
    ensures !Shard(s, IsW(mode)).started && !Err.HasErr(r.1) ==>
              Shard(r.0, IsW(mode)).started && Shard(r.0, IsW(mode)).txs.Some?
  {
    var w := IsW(mode);
    if IsTransactonStart(s, true, w) then (s, Err.NewErrWriter([], Site("ShardAllTxStart", 391)))
    else match GetDBShardMap(topo, slaveIndex, mode)
      case Err(ew) => (s, Err.Write(ew, [], Site("ShardAllTxStart", 397)))
      case Ok(dbMap) =>
        match BeginAll(dbMap, begin)
        case Err(e) =>
          var ew := Err.Write(NoErr, [e], Site("ShardAllTxStart", 407));
          assert ew.errMsgs[..1] == [e];
          (s, ew)
        case Ok(txMap) => (WithShard(s, w, ShardSlot(Some(txMap), true)), NoErr)
  }

  /** A fresh start on a shard map either reports a failing shard's Begin
      error and stores nothing, or stores one transaction per handle. */
  lemma ShardStartOutcome(topo: Topology, slaveIndex: nat, s: Slots, mode: string, begin: ShardOutcome)
    requires mode == ModeR ==> ReadableAt(topo, slaveIndex)
    requires BeginFits(topo, slaveIndex, mode, begin)
    requires !Shard(s, IsW(mode)).started && (mode == ModeW || mode == ModeR)
    ensures var r := ShardAllTxStart(topo, slaveIndex, s, mode, begin);
            var dbMap := GetDBShardMap(topo, slaveIndex, mode).value;
            (Err.HasErr(r.1) <==> exists k :: k in dbMap && k in begin.errs) &&
            (Err.HasErr(r.1) ==> exists k :: k in dbMap && k in begin.errs && r.1.errMsgs[0] == begin.errs[k]) &&
            (!Err.HasErr(r.1) ==> r.0 == WithShard(s, IsW(mode), ShardSlot(Some(map k | k in dbMap :: Tx(dbMap[k])), true)))
  {
    var dbMap := GetDBShardMap(topo, slaveIndex, mode).value;
    var b := BeginAll(dbMap, begin);
    if b.Err? {
      var ew := Err.Write(NoErr, [b.error], Site("ShardAllTxStart", 407));
      assert ShardAllTxStart(topo, slaveIndex, s, mode, begin) == (s, ew);
    } else {
      assert b.value == map k | k in dbMap :: Tx(dbMap[k]);
    }
  }

  /** `masterCommit`: when a write-master transaction is held, a failed
      commit keeps the slot and returns a stack headed by the error; a
      successful one clears the slot and flag. */
  function MasterCommit(s: Slots, err: Option<Value>): (r: (Slots, Err.ErrWriter))
    ensures s.masterW.tx.None? ==> r == (s, NoErr)
    ensures Err.HasErr(r.1) <==> s.masterW.tx.Some? && err.Some?
    ensures Err.HasErr(r.1) ==> r.1.errMsgs[0] == err.value
    ensures r.0.masterW == if s.masterW.tx.Some? && err.None? then NoMaster else s.masterW
    ensures r.0.masterR == s.masterR && r.0.shardW == s.shardW && r.0.shardR == s.shardR
  {
    if s.masterW.tx.Some? then
      if err.None? then (s.(masterW := NoMaster), Err.NewErrWriter([], Site("masterCommit", 463)))
      else (s, Err.NewErrWriter([err.value], Site("masterCommit", 460)))
    else (s, Err.NewErrWriter([], Site("masterCommit", 463)))
  }

  /** `masterRollback`: the same for the master slot the mode selects. */
  function MasterRollback(s: Slots, mode: string, err: Option<Value>): (r: (Slots, Err.ErrWriter))
    ensures Master(s, IsW(mode)).tx.None? ==> r == (s, NoErr)
    ensures Err.HasErr(r.1) <==> Master(s, IsW(mode)).tx.Some? && err.Some?
    ensures Err.HasErr(r.1) ==> r.1.errMsgs[0] == err.value
    ensures Master(r.0, IsW(mode)) == if Master(s, IsW(mode)).tx.Some? && err.None? then NoMaster else Master(s, IsW(mode))
    ensures Master(r.0, !IsW(mode)) == Master(s, !IsW(mode)) && r.0.shardW == s.shardW && r.0.shardR == s.shardR
  {
    var w := IsW(mode);
    if Master(s, w).tx.Some? then
      if err.None? then (WithMaster(s, w, NoMaster), Err.NewErrWriter([], Site("masterRollback", 554)))
      else (s, Err.NewErrWriter([err.value], Site("masterRollback", 551)))
    else (s, Err.NewErrWriter([], Site("masterRollback", 554)))
  }

  /** `shardCommit`: every successful commit deletes its entry. If any
      failed, the slot and flag stay, holding just the failed transactions,
      and the stack is headed by the last visited shard's error, nil when
      that one succeeded; otherwise the slot and flag are cleared. */
  function ShardCommit(s: Slots, o: ShardOutcome): (r: (Slots, Err.ErrWriter))
    requires Fits(o, s.shardW)
    ensures s.shardW.txs.None? ==> r == (s, NoErr)
    ensures s.shardW.txs.Some? ==> (Err.HasErr(r.1) <==> AnyFailed(o.errs, o.order))
    ensures s.shardW.txs.Some? && !AnyFailed(o.errs, o.order) ==> r.0.shardW == NoShard
    ensures s.shardW.txs.Some? && AnyFailed(o.errs, o.order) ==>
              r.0.shardW == ShardSlot(Some(Survivors(s.shardW.txs.value, o.errs)), s.shardW.started) &&
              r.1.errMsgs[0] == NilOr(LastErr(o.errs, o.order))
    ensures r.0.shardR == s.shardR && r.0.masterW == s.masterW && r.0.masterR == s.masterR
  {
    if s.shardW.txs.Some? then
      if !AnyFailed(o.errs, o.order) then (s.(shardW := NoShard), Err.NewErrWriter([], Site("shardCommit", 501)))
      else (s.(shardW := ShardSlot(Some(Survivors(s.shardW.txs.value, o.errs)), s.shardW.started)),
            Err.NewErrWriter([NilOr(LastErr(o.errs, o.order))], Site("shardCommit", 498)))
    else (s, Err.NewErrWriter([], Site("shardCommit", 501)))
  }

  /** `shardRollback`: the same for the shard slot the mode selects. */
  function ShardRollback(s: Slots, mode: string, o: ShardOutcome): (r: (Slots, Err.ErrWriter))
    requires Fits(o, Shard(s, IsW(mode)))
    ensures Shard(s, IsW(mode)).txs.None? ==> r == (s, NoErr)
    ensures Shard(s, IsW(mode)).txs.Some? ==> (Err.HasErr(r.1) <==> AnyFailed(o.errs, o.order))
    ensures Shard(s, IsW(mode)).txs.Some? && !AnyFailed(o.errs, o.order) ==> Shard(r.0, IsW(mode)) == NoShard
    ensures Shard(s, IsW(mode)).txs.Some? && AnyFailed(o.errs, o.order) ==>
              Shard(r.0, IsW(mode)) == ShardSlot(Some(Survivors(Shard(s, IsW(mode)).txs.value, o.errs)), Shard(s, IsW(mode)).started) &&
              r.1.errMsgs[0] == NilOr(LastErr(o.errs, o.order))
    ensures Shard(r.0, !IsW(mode)) == Shard(s, !IsW(mode)) && r.0.masterW == s.masterW && r.0.masterR == s.masterR
  {
    var w := IsW(mode);
    var slot := Shard(s, w);
    if slot.txs.Some? then
      if !AnyFailed(o.errs, o.order) then (WithShard(s, w, NoShard), Err.NewErrWriter([], Site("shardRollback", 598)))
      else (WithShard(s, w, ShardSlot(Some(Survivors(slot.txs.value, o.errs)), slot.started)),
            Err.NewErrWriter([NilOr(LastErr(o.errs, o.order))], Site("shardRollback", 595)))
    else (s, Err.NewErrWriter([], Site("shardRollback", 598)))
  }

  /** `Commit`: master-W commit, shard-W commit, then rollback of the read
      master and read shards; the stack returned is the last step's alone. */
  function Commit(s: Slots, mw: Option<Value>, sw: ShardOutcome, mr: Option<Value>, sr: ShardOutcome): (r: (Slots, Err.ErrWriter))
    requires Fits(sw, s.shardW) && Fits(sr, s.shardR)
    ensures r.0.masterW == MasterCommit(s, mw).0.masterW
    ensures r.0.shardW == ShardCommit(s, sw).0.shardW
    ensures r.0.masterR == MasterRollback(s, ModeR, mr).0.masterR
    ensures r == (r.0, ShardRollback(s, ModeR, sr).1) && r.0.shardR == ShardRollback(s, ModeR, sr).0.shardR
  {
    var (s1, _) := MasterCommit(s, mw);
    var (s2, _) := ShardCommit(s1, sw);
    var (s3, _) := MasterRollback(s2, ModeR, mr);
    ShardRollback(s3, ModeR, sr)
  }

  /** `RollBack`: both masters, then both shard maps; the stack returned is
      the read-shard rollback's alone. */
  function RollBack(s: Slots, mw: Option<Value>, mr: Option<Value>, sw: ShardOutcome, sr: ShardOutcome): (r: (Slots, Err.ErrWriter))
    requires Fits(sw, s.shardW) && Fits(sr, s.shardR)
    ensures r.0.masterW == MasterRollback(s, ModeW, mw).0.masterW
    ensures r.0.masterR == MasterRollback(s, ModeR, mr).0.masterR
    ensures r.0.shardW == ShardRollback(s, ModeW, sw).0.shardW
    ensures r == (r.0, ShardRollback(s, ModeR, sr).1) && r.0.shardR == ShardRollback(s, ModeR, sr).0.shardR
  {
    var (s1, _) := MasterRollback(s, ModeW, mw);
    var (s2, _) := MasterRollback(s1, ModeR, mr);
    var (s3, _) := ShardRollback(s2, ModeW, sw);
    ShardRollback(s3, ModeR, sr)
  }

  /** `GetTransaction`: a failed start is reported with one more message,
      a missing transaction with "not found transaction!!". */
  function GetTransaction(topo: Topology, slaveIndex: nat, s: Slots, mode: string, isShard: bool, shardId: int,
                          beginErr: Option<Value>, begin: ShardOutcome): (r: (Slots, Result<Tx, Err.ErrWriter>))
    requires mode == ModeR ==> ReadableAt(topo, slaveIndex)
    requires BeginFits(topo, slaveIndex, mode, begin)
  {
    var w := IsW(mode);
    var notFound := Err.Write(Err.NewErrWriter([], Site("GetTransaction", 665)), [Str(NotFoundTransaction)], Site("GetTransaction", 667));
    if isShard then
      var (s1, ew) := ShardAllTxStart(topo, slaveIndex, s, mode, begin);
      if Err.HasErr(ew) then (s1, Err(Err.Write(ew, [Str(ShardStartFailed)], Site("GetTransaction", 624))))
      else
        var txs := Shard(s1, w).txs;
        (s1, if txs.Some? && shardId in txs.value then Ok(txs.value[shardId]) else Err(notFound))
    else
      var (s1, ew) := MasterTxStart(topo, slaveIndex, s, mode, beginErr);
      if Err.HasErr(ew) then (s1, Err(Err.Write(ew, [Str(MasterStartFailed)], Site("GetTransaction", 646))))
      else (s1, if Master(s1, w).tx.Some? then Ok(Master(s1, w).tx.value) else Err(notFound))
  }

  // ---------------------------------------------------------------------
  // Properties relating the operations

  /** Starting a master transaction keeps each flag in step with its slot. */
  lemma ConsistentByMasterStart(topo: Topology, slaveIndex: nat, s: Slots, mode: string, err: Option<Value>)
    requires mode == ModeR ==> ReadableAt(topo, slaveIndex)
    requires Consistent(s)
    ensures Consistent(MasterTxStart(topo, slaveIndex, s, mode, err).0)
  {
  }

  /** Starting the shard transactions keeps each flag in step with its slot. */
  lemma ConsistentByShardStart(topo: Topology, slaveIndex: nat, s: Slots, mode: string, begin: ShardOutcome)
    requires mode == ModeR ==> ReadableAt(topo, slaveIndex)
    requires BeginFits(topo, slaveIndex, mode, begin)
    requires Consistent(s)
    ensures Consistent(ShardAllTxStart(topo, slaveIndex, s, mode, begin).0)
  {
  }

  /** Committing or rolling back a master keeps each flag in step with its
      slot. */
  lemma ConsistentByMasterFinish(s: Slots, mode: string, err: Option<Value>)
    requires Consistent(s)
    ensures Consistent(MasterCommit(s, err).0) && Consistent(MasterRollback(s, mode, err).0)
  {
  }

  /** A shard commit keeps each flag in step with its slot: a failed one
      keeps the map of failed transactions together with its flag. */
  lemma ConsistentByShardCommit(s: Slots, o: ShardOutcome)
    requires Consistent(s) && Fits(o, s.shardW)
    ensures Consistent(ShardCommit(s, o).0)
  {
  }

  /** The same for a shard rollback. */
  lemma ConsistentByShardRollback(s: Slots, mode: string, o: ShardOutcome)
    requires Consistent(s) && Fits(o, Shard(s, IsW(mode)))
    ensures Consistent(ShardRollback(s, mode, o).0)
  {
  }

  /** After a failed shard commit the slot holds exactly the transactions
      whose commit failed, none of them lost: a later rollback reaches
      them. */
  lemma {:induction false} ShardCommitKeepsFailed(s: Slots, o: ShardOutcome)
    requires Fits(o, s.shardW) && s.shardW.txs.Some?
    requires AnyFailed(o.errs, o.order)
    ensures var m := ShardCommit(s, o).0.shardW.txs;
            m.Some? && m.value != map[] &&
            (forall k :: k in m.value <==> k in s.shardW.txs.value && k in o.errs)
  {
    SurvivorsEmptyIff(s.shardW.txs.value, o);
  }

  /** Unlike DBI.go, a failure is reported even when the last visited shard
      succeeded: the stack then holds a nil error. */
  lemma {:induction false} ShardCommitReportsMaskedFailure(s: Slots, m: map<int, Tx>, e: Value)
    requires s.shardW == ShardSlot(Some(m), true) && m.Keys == {1, 2} && e != Nil
    ensures var (s1, ew) := ShardCommit(s, ShardOutcome(map[1 := e], [1, 2]));
            Err.HasErr(ew) && ew.errMsgs[0] == Nil && s1.shardW.started && s1.shardW.txs.value.Keys == {1}
  {
    var o := ShardOutcome(map[1 := e], [1, 2]);
    assert IsOrder(o.order, m.Keys) by {
      assert forall k :: k in o.order ==> k == 1 || k == 2;
    }
    LastErrMasksFailure(e);
    assert Survivors(m, o.errs).Keys == {1};
  }

  /** Starting a started slot again returns an empty stack and changes
      nothing. */
  lemma {:induction false} StartIdempotent(topo: Topology, slaveIndex: nat, s: Slots, mode: string,
                                           e1: Option<Value>, e2: Option<Value>, b1: ShardOutcome, b2: ShardOutcome)
    requires mode == ModeR ==> ReadableAt(topo, slaveIndex)
    requires BeginFits(topo, slaveIndex, mode, b1) && BeginFits(topo, slaveIndex, mode, b2)
    ensures var (s1, r1) := MasterTxStart(topo, slaveIndex, s, mode, e1);
            !Err.HasErr(r1) ==> MasterTxStart(topo, slaveIndex, s1, mode, e2) == (s1, NoErr)
    ensures var (s1, r1) := ShardAllTxStart(topo, slaveIndex, s, mode, b1);
            !Err.HasErr(r1) ==> ShardAllTxStart(topo, slaveIndex, s1, mode, b2) == (s1, NoErr)
  {
    var (s1, r1) := MasterTxStart(topo, slaveIndex, s, mode, e1);
    if !Err.HasErr(r1) {
      assert Master(s1, IsW(mode)).started;
    }
    var (t1, q1) := ShardAllTxStart(topo, slaveIndex, s, mode, b1);
    if !Err.HasErr(q1) {
      assert Shard(t1, IsW(mode)).started;
    }
  }

  /** GetTransaction succeeds exactly when the start succeeds and the slot
      (or the shard's entry) holds a transaction; a missing one is reported
      as "not found transaction!!" after an empty stack. */
  lemma GetTransactionResult(topo: Topology, slaveIndex: nat, s: Slots, mode: string, isShard: bool, shardId: int,
                             beginErr: Option<Value>, begin: ShardOutcome)
    requires mode == ModeR ==> ReadableAt(topo, slaveIndex)
    requires BeginFits(topo, slaveIndex, mode, begin)
    ensures var (s1, r) := GetTransaction(topo, slaveIndex, s, mode, isShard, shardId, beginErr, begin);
            var (t1, ew) := if isShard then ShardAllTxStart(topo, slaveIndex, s, mode, begin)
                            else MasterTxStart(topo, slaveIndex, s, mode, beginErr);
            var held := if isShard then Shard(t1, IsW(mode)).txs.Some? && shardId in Shard(t1, IsW(mode)).txs.value
                        else Master(t1, IsW(mode)).tx.Some?;
            s1 == t1 &&
            (r.Ok? <==> !Err.HasErr(ew) && held) &&
            (Err.HasErr(ew) ==> r.Err? && r.error.errMsgs[..|ew.errMsgs| + 1] == ew.errMsgs + [Str(if isShard then ShardStartFailed else MasterStartFailed)]) &&
            (!Err.HasErr(ew) && !held ==> r.Err? && Err.HasErr(r.error) && r.error.errMsgs[0] == Str(NotFoundTransaction))
  {
  }

  /** RollBack with nothing started touches nothing and returns an empty
      stack; so does Commit. */
  lemma RollBackNothingStarted(mw: Option<Value>, mr: Option<Value>, sw: ShardOutcome, sr: ShardOutcome)
    requires ErrsNonNil(sw.errs) && ErrsNonNil(sr.errs)
    ensures RollBack(Empty, mw, mr, sw, sr) == (Empty, NoErr)
    ensures Commit(Empty, mw, sw, mr, sr) == (Empty, NoErr)
  {
  }
}

/** The db.go functions over a request context, and the list construction
    and write-shard setup of BuildInstances. */
module Db {
  import opened Wrappers
  import opened GoValues
  import opened TxContext
  import Weights
  import Strings
  import Err
  import DbSpec

  /** The shard-id loop of `BuildInstances`: `shardIds` grows by 1..shard. */
  method BuildShardIds(shardIds: seq<int>, shard: int) returns (r: seq<int>)
    ensures r == shardIds + Weights.ShardRange(shard)
  {
    r := shardIds;
    var i := 0;
    while i < shard
      invariant 0 <= i <= if shard > 0 then shard else 0
      invariant r == shardIds + Weights.ShardRange(i)
    {
      r := r + [i + 1];
      i := i + 1;
    }
  }

  /** The slave-weight loops of `BuildInstances`: for every configured slave
      in order, its index once per unit of its weight. */
  method BuildSlaveWeights(slaveWeights: seq<int>, weights: seq<int>) returns (r: seq<int>)
    ensures r == slaveWeights + Weights.Expand(Weights.Indexed(weights))
  {
    r := slaveWeights;
    var j := 0;
    while j < |weights|
      invariant 0 <= j <= |weights|
      invariant r == slaveWeights + Weights.Expand(Weights.Indexed(weights[..j]))
    {
      assert Weights.Indexed(weights[..j + 1])[..j] == Weights.Indexed(weights[..j]);
      ghost var before := r;
      var i := 0;
      while i < weights[j]
        invariant 0 <= i <= if weights[j] > 0 then weights[j] else 0
        invariant r == before + Weights.Repeat(j, i)
      {
        r := r + [j];
        i := i + 1;
      }
      j := j + 1;
    }
    assert weights[..j] == weights;
  }

  /** What `getWriteShard` yields: the write shard map, a setup failure with
      its stack and the handles closed on the way out, or a nil
      dereference panic. */
  datatype WriteShardOutcome =
    | Opened(shardMap: map<int, Handle>)
    | SetupFailed(ew: Err.ErrWriter, closed: set<Handle>)
    | NilDereference

  /** `getDbMap`'s stack when `sql.Open` fails with `e`. */
  function OpenFailure(e: Value): Err.ErrWriter {
    Err.NewErrWriter([e], DbSpec.Site("getDbMap", 257))
  }

  function SetupFailedMsg(shardId: int): string {
    "master : game_shard_" + Strings.Itoa(shardId) + " setup failed!!"
  }

  /** The index of the first failed open, or the number of opens when
      every open succeeds. */
  function FirstErrIndex(opens: seq<Result<Handle, Value>>): (r: nat)
    ensures r <= |opens|
    ensures forall j :: 0 <= j < r ==> opens[j].Ok?
    ensures r < |opens| ==> opens[r].Err?
    decreases |opens|
  {
    if opens == [] then 0
    else if opens[0].Err? then 0
    else 1 + FirstErrIndex(opens[1..])
  }

  /** The handles opened for `shardIds` while every open succeeded. */
  function OpenedMap(shardIds: seq<int>, opens: seq<Result<Handle, Value>>): (r: map<int, Handle>)
    requires |opens| == |shardIds|
    requires forall i :: 0 <= i < |opens| ==> opens[i].Ok?
    ensures forall k :: k in r <==> k in shardIds
    decreases |shardIds|
  {
    if shardIds == [] then map[]
    else
      var n := |shardIds| - 1;
      OpenedMap(shardIds[..n], opens[..n])[shardIds[n] := opens[n].value]
  }

  /** One more shard maps to its handle, overriding an earlier one. */
  lemma OpenedMapUnfold(shardIds: seq<int>, opens: seq<Result<Handle, Value>>, i: nat)
    requires |opens| == |shardIds| && 0 < i <= |shardIds|
    requires forall j :: 0 <= j < i ==> opens[j].Ok?
    ensures OpenedMap(shardIds[..i], opens[..i]) ==
              OpenedMap(shardIds[..i - 1], opens[..i - 1])[shardIds[i - 1] := opens[i - 1].value]
  {
    var n := i - 1;
    assert shardIds[..i][..n] == shardIds[..n] && opens[..i][..n] == opens[..n];
  }

  /** One more shard: its id is new to the map and maps to its handle. */
  lemma OpenedMapStep(shardIds: seq<int>, opens: seq<Result<Handle, Value>>, i: nat)
    requires |opens| == |shardIds| && 0 < i <= |shardIds|
    requires forall a, b :: 0 <= a < b < |shardIds| ==> shardIds[a] != shardIds[b]
    requires forall j :: 0 <= j < i ==> opens[j].Ok?
    ensures shardIds[i - 1] !in OpenedMap(shardIds[..i - 1], opens[..i - 1])
    ensures OpenedMap(shardIds[..i], opens[..i]) ==
              OpenedMap(shardIds[..i - 1], opens[..i - 1])[shardIds[i - 1] := opens[i - 1].value]
  {
    var n := i - 1;
    assert shardIds[..i][..n] == shardIds[..n] && opens[..i][..n] == opens[..n];
    var m := OpenedMap(shardIds[..n], opens[..n]);
    var k := shardIds[n];
    assert forall a :: 0 <= a < n ==> shardIds[..n][a] != k;
    assert k !in shardIds[..n];
  }

  /** With distinct shard ids, the handles in the map are those opened. */
  lemma {:induction false} OpenedValues(shardIds: seq<int>, opens: seq<Result<Handle, Value>>, i: nat)
    requires |opens| == |shardIds| && i <= |shardIds|
    requires forall a, b :: 0 <= a < b < |shardIds| ==> shardIds[a] != shardIds[b]
    requires forall j :: 0 <= j < i ==> opens[j].Ok?
    ensures OpenedMap(shardIds[..i], opens[..i]).Values == set j | 0 <= j < i :: opens[j].value
    decreases i
  {
    if i > 0 {
      var n := i - 1;
      var m0 := OpenedMap(shardIds[..n], opens[..n]);
      var v := opens[n].value;
      OpenedValues(shardIds, opens, n);
      OpenedMapStep(shardIds, opens, i);
      MapInsertValues(m0, shardIds[n], v);
      PrefixValuesStep(opens, n);
      calc {
        OpenedMap(shardIds[..i], opens[..i]).Values;
        m0[shardIds[n] := v].Values;
        m0.Values + {v};
        (set j | 0 <= j < n :: opens[j].value) + {v};
      }
    }
  }

  lemma PrefixValuesStep(opens: seq<Result<Handle, Value>>, n: nat)
    requires n < |opens| && forall j :: 0 <= j <= n ==> opens[j].Ok?
    ensures (set j | 0 <= j < n + 1 :: opens[j].value) == (set j | 0 <= j < n :: opens[j].value) + {opens[n].value}
  {
    var all := set j | 0 <= j < n + 1 :: opens[j].value;
    var init := set j | 0 <= j < n :: opens[j].value;
    forall x | x in all ensures x in init + {opens[n].value} {
      var j :| 0 <= j < n + 1 && opens[j].value == x;
      if j < n {
        assert x in init;
      }
    }
    assert opens[n].value in all;
  }

  lemma MapInsertValues<K, V>(m: map<K, V>, k: K, v: V)
    requires k !in m
    ensures m[k := v].Values == m.Values + {v}
  {
    var m' := m[k := v];
    forall x | x in m'.Values ensures x in m.Values + {v} {
      var y :| y in m' && m'[y] == x;
      if y != k {
        assert y in m;
      }
    }
    forall x | x in m.Values ensures x in m'.Values {
      var y :| y in m && m[y] == x;
      assert y in m' && m'[y] == x;
    }
    assert m'[k] == v;
  }

  /** The outcome of the as-written setup: the full map when every open
      succeeds, and a nil dereference otherwise. */
  function WriteShardAsWrittenSpec(shardIds: seq<int>, opens: seq<Result<Handle, Value>>): WriteShardOutcome
    requires |opens| == |shardIds|
  {
    if FirstErrIndex(opens) == |opens| then Opened(OpenedMap(shardIds, opens)) else NilDereference
  }

  /** The outcome of the intended setup: the full map when every open
      succeeds; otherwise the first failed open's stack with its shard's
      setup message, and the handles opened before it closed. */
  function WriteShardSpec(shardIds: seq<int>, opens: seq<Result<Handle, Value>>): WriteShardOutcome
    requires |opens| == |shardIds|
  {
    var i := FirstErrIndex(opens);
    if i == |opens| then Opened(OpenedMap(shardIds, opens))
    else
      assert forall j :: 0 <= j < i ==> opens[..i][j] == opens[j];
      SetupFailed(Err.Write(OpenFailure(opens[i].error), [Str(SetupFailedMsg(shardIds[i]))],
                               DbSpec.Site("getWriteShard", 144)),
                     OpenedMap(shardIds[..i], opens[..i]).Values)
  }

  /** `getWriteShard` as written: the failed open's nil handle is stored in
      the map before the clean-up loop, which then dereferences it. The
      loop here visits the keys in insertion order; in any order it reaches
      the nil entry. */
  method GetWriteShardAsWritten(shardIds: seq<int>, opens: seq<Result<Handle, Value>>) returns (r: WriteShardOutcome)
    requires |opens| == |shardIds|
    ensures r == WriteShardAsWrittenSpec(shardIds, opens)
  {
    var shardMap, i := OpenShardsAsWritten(shardIds, opens);
    if i < |shardIds| {
      var keys := shardIds[..i + 1];
      var done := OpenedMap(shardIds[..i], opens[..i]);
      assert forall j :: 0 <= j < |keys| ==> keys[j] in shardMap by {
        forall j | 0 <= j < |keys| ensures keys[j] in shardMap {
          if j < i {
            assert keys[j] == shardIds[..i][j];
            assert keys[j] in done;
          }
        }
      }
      assert keys[i] == shardIds[i] && shardMap[shardIds[i]].None?;
      var panics := CloseLoopAsWritten(shardMap, keys);
      assert panics;
      return NilDereference;
    }
    var result := map k | k in shardMap :: shardMap[k].value;
    LiftUnlift(OpenedMap(shardIds, opens));
    return Opened(result);
  }

  /** The opening loop as written: each shard's handle is stored in the
      map, a nil one when its open fails, and the loop stops at the first
      failed open with that nil entry in place. */
  method OpenShardsAsWritten(shardIds: seq<int>, opens: seq<Result<Handle, Value>>)
    returns (shardMap: map<int, Option<Handle>>, i: nat)
    requires |opens| == |shardIds|
    ensures i == FirstErrIndex(opens)
    ensures i == |opens| ==> shardMap == Lift(OpenedMap(shardIds, opens))
    ensures i < |opens| ==> shardMap == Lift(OpenedMap(shardIds[..i], opens[..i]))[shardIds[i] := None]
  {
    shardMap := map[];
    i := 0;
    while i < |shardIds|
      invariant 0 <= i <= |shardIds|
      invariant forall j :: 0 <= j < i ==> opens[j].Ok?
      invariant shardMap == Lift(OpenedMap(shardIds[..i], opens[..i]))
    {
      var shardId := shardIds[i];
      if opens[i].Err? {
        shardMap := shardMap[shardId := None];
        OpenFailsAt(opens, i);
        return;
      }
      OpenedMapUnfold(shardIds, opens, i + 1);
      LiftStore(OpenedMap(shardIds[..i], opens[..i]), shardId, opens[i].value);
      shardMap := shardMap[shardId := Some(opens[i].value)];
      i := i + 1;
    }
    assert shardIds[..i] == shardIds && opens[..i] == opens;
    OpenFailsAt(opens, i);
  }

  /** The first failure is where the successful prefix ends. */
  lemma {:induction false} OpenFailsAt(opens: seq<Result<Handle, Value>>, i: nat)
    requires i <= |opens| && forall j :: 0 <= j < i ==> opens[j].Ok?
    requires i < |opens| ==> opens[i].Err?
    ensures FirstErrIndex(opens) == i
    decreases i
  {
    if i > 0 {
      assert forall j :: 0 <= j < i - 1 ==> opens[1..][j] == opens[j + 1];
      OpenFailsAt(opens[1..], i - 1);
    }
  }

  /** The clean-up loop as written, visiting the entries in `keys` order: it
      dereferences each handle and panics at the first nil one. */
  method CloseLoopAsWritten(shardMap: map<int, Option<Handle>>, keys: seq<int>) returns (panics: bool)
    requires forall j :: 0 <= j < |keys| ==> keys[j] in shardMap
    ensures panics <==> exists j :: 0 <= j < |keys| && shardMap[keys[j]].None?
  {
    var j := 0;
    while j < |keys|
      invariant 0 <= j <= |keys|
      invariant forall t :: 0 <= t < j ==> shardMap[keys[t]].Some?
    {
      if shardMap[keys[j]].None? {
        return true;
      }
      j := j + 1;
    }
    return false;
  }

  /** The Go map of possibly-nil handles holding the handles of `m`. */
  function Lift(m: map<int, Handle>): (r: map<int, Option<Handle>>)
    ensures r.Keys == m.Keys
    ensures forall k :: k in r ==> r[k] == Some(m[k])
  {
    map k | k in m :: Some(m[k])
  }

  lemma LiftStore(m: map<int, Handle>, k: int, v: Handle)
    ensures Lift(m[k := v]) == Lift(m)[k := Some(v)]
  {
  }

  lemma LiftUnlift(m: map<int, Handle>)
    ensures (map k | k in Lift(m) :: Lift(m)[k].value) == m
  {
  }

  /** `getWriteShard` as intended: a failed open closes every handle opened
      so far and returns the stack with the shard's setup message. */
  method GetWriteShard(shardIds: seq<int>, opens: seq<Result<Handle, Value>>) returns (r: WriteShardOutcome)
    requires |opens| == |shardIds|
    ensures r == WriteShardSpec(shardIds, opens)
  {
    var shardMap: map<int, Handle> := map[];
    var i := 0;
    while i < |shardIds|
      invariant 0 <= i <= |shardIds|
      invariant forall j :: 0 <= j < i ==> opens[j].Ok?
      invariant shardMap == OpenedMap(shardIds[..i], opens[..i])
    {
      var shardId := shardIds[i];
      if opens[i].Err? {
        var closed: set<Handle> := shardMap.Values;
        assert FirstErrIndex(opens) == i;
        return SetupFailed(Err.Write(OpenFailure(opens[i].error), [Str(SetupFailedMsg(shardId))], DbSpec.Site("getWriteShard", 144)), closed);
      }
      OpenedMapUnfold(shardIds, opens, i + 1);
      shardMap := shardMap[shardId := opens[i].value];
      i := i + 1;
    }
    assert shardIds[..i] == shardIds && opens[..i] == opens;
    return Opened(shardMap);
  }

  /** One failing open after a successful one is enough for the as-written
      setup to panic. */
  method WriteShardPanics(e: Value) returns (r: WriteShardOutcome)
    ensures r == NilDereference
  {
    var opens: seq<Result<Handle, Value>> := [Ok(Handle(1)), Err(e)];
    assert FirstErrIndex(opens) == 1 by {
      assert opens[1..] == [Err(e)];
    }
    r := GetWriteShardAsWritten([1, 2], opens);
  }

  /** The intended setup closes the handle opened before the failing one. */
  method WriteShardClosesOpened(e: Value) returns (r: WriteShardOutcome)
    ensures r.SetupFailed? && r.closed == {Handle(1)}
  {
    var opens: seq<Result<Handle, Value>> := [Ok(Handle(1)), Err(e)];
    assert FirstErrIndex(opens) == 1 by {
      assert opens[1..] == [Err(e)];
    }
    var ids := [1, 2];
    assert ids[..1] == [1] && opens[..1] == [Ok(Handle(1))];
    assert OpenedMap(ids[..1], opens[..1]) == map[1 := Handle(1)] by {
      assert ids[..1][..0] == [];
    }
    MapInsertValues(map[], 1, Handle(1));
    r := GetWriteShard(ids, opens);
  }

  /** Both setups return the map of every opened handle exactly when every
      open succeeds, and then they agree; after a failed open the
      as-written setup panics where the intended one reports the failure
      of the first failing shard. */
  lemma WriteShardAgreement(shardIds: seq<int>, opens: seq<Result<Handle, Value>>)
    requires |opens| == |shardIds|
    ensures WriteShardAsWrittenSpec(shardIds, opens).Opened? <==> forall i :: 0 <= i < |opens| ==> opens[i].Ok?
    ensures WriteShardSpec(shardIds, opens).Opened? <==> forall i :: 0 <= i < |opens| ==> opens[i].Ok?
    ensures (forall i :: 0 <= i < |opens| ==> opens[i].Ok?) ==>
              WriteShardAsWrittenSpec(shardIds, opens) == WriteShardSpec(shardIds, opens) == Opened(OpenedMap(shardIds, opens))
    ensures (exists i :: 0 <= i < |opens| && opens[i].Err?) ==>
              WriteShardAsWrittenSpec(shardIds, opens) == NilDereference &&
              WriteShardSpec(shardIds, opens).SetupFailed? &&
              WriteShardSpec(shardIds, opens).ew.errMsgs[|OpenFailure(opens[FirstErrIndex(opens)].error).errMsgs|] ==
                Str(SetupFailedMsg(shardIds[FirstErrIndex(opens)]))
  {
    var i := FirstErrIndex(opens);
    if i < |opens| {
      var e := OpenFailure(opens[i].error);
      var w := Err.Write(e, [Str(SetupFailedMsg(shardIds[i]))], DbSpec.Site("getWriteShard", 144));
      assert w.errMsgs[..|e.errMsgs| + 1][|e.errMsgs|] == Str(SetupFailedMsg(shardIds[i]));
    }
  }

  method MasterTxStart(c: RequestContext, mode: string, beginErr: Option<Value>) returns (ew: Err.ErrWriter)
    requires mode == ModeR ==> ReadableAt(c.topo, c.slaveIndex)
    modifies c
    ensures (c.State(), ew) == DbSpec.MasterTxStart(c.topo, c.slaveIndex, old(c.State()), mode, beginErr)
  {
    var w := IsW(mode);
    if IsTransactonStart(c.State(), false, w) {
      return Err.NewErrWriter([], DbSpec.Site("MasterTxStart", 352));
    }
    var db := DbSpec.GetDBMasterConnection(c.topo, c.slaveIndex, mode);
    if db.Err? {
      return Err.Write(db.error, [], DbSpec.Site("MasterTxStart", 358));
    }
    ew := DbSpec.NoErr;
    if beginErr.Some? {
      return Err.Write(ew, [beginErr.value], DbSpec.Site("MasterTxStart", 364));
    }
    c.SetMaster(w, MasterSlot(Some(Tx(db.value)), true));
  }

  method ShardAllTxStart(c: RequestContext, mode: string, begin: ShardOutcome) returns (ew: Err.ErrWriter)
    requires mode == ModeR ==> ReadableAt(c.topo, c.slaveIndex)
    requires DbSpec.BeginFits(c.topo, c.slaveIndex, mode, begin)
    modifies c
    ensures (c.State(), ew) == DbSpec.ShardAllTxStart(c.topo, c.slaveIndex, old(c.State()), mode, begin)
  {
    var w := IsW(mode);
    if IsTransactonStart(c.State(), true, w) {
      return Err.NewErrWriter([], DbSpec.Site("ShardAllTxStart", 391));
    }
    var dbMap := DbSpec.GetDBShardMap(c.topo, c.slaveIndex, mode);
    if dbMap.Err? {
      return Err.Write(dbMap.error, [], DbSpec.Site("ShardAllTxStart", 397));
    }
    ew := DbSpec.NoErr;
    var txMap := BeginShards(dbMap.value, begin);
    if txMap.Err? {
      return Err.Write(ew, [txMap.error], DbSpec.Site("ShardAllTxStart", 407));
    }
    c.SetShard(w, ShardSlot(Some(txMap.value), true));
  }

  method MasterCommit(c: RequestContext, commitErr: Option<Value>) returns (ew: Err.ErrWriter)
    modifies c
    ensures (c.State(), ew) == DbSpec.MasterCommit(old(c.State()), commitErr)
  {
    if c.txMasterW.Some? {
      var e := commitErr;
      if e.None? {
        c.SetMaster(true, NoMaster);
      } else {
        return Err.NewErrWriter([e.value], DbSpec.Site("masterCommit", 460));
      }
    }
    return Err.NewErrWriter([], DbSpec.Site("masterCommit", 463));
  }

  method MasterRollback(c: RequestContext, mode: string, rollbackErr: Option<Value>) returns (ew: Err.ErrWriter)
    modifies c
    ensures (c.State(), ew) == DbSpec.MasterRollback(old(c.State()), mode, rollbackErr)
  {
    var w := IsW(mode);
    if Master(c.State(), w).tx.Some? {
      var e := rollbackErr;
      if e.None? {
        c.SetMaster(w, NoMaster);
      } else {
        return Err.NewErrWriter([e.value], DbSpec.Site("masterRollback", 551));
      }
    }
    return Err.NewErrWriter([], DbSpec.Site("masterRollback", 554));
  }

  method ShardCommit(c: RequestContext, o: ShardOutcome) returns (ew: Err.ErrWriter)
    requires Fits(o, c.State().shardW)
    modifies c
    ensures (c.State(), ew) == DbSpec.ShardCommit(old(c.State()), o)
  {
    if c.txShardWMap.Some? {
      var rest, e, hasError := FinishShards(c.txShardWMap.value, o);
      c.SetShard(true, ShardSlot(Some(rest), c.isShardWTxStart));
      if !hasError {
        c.SetShard(true, NoShard);
      } else {
        return Err.NewErrWriter([DbSpec.NilOr(e)], DbSpec.Site("shardCommit", 498));
      }
    }
    return Err.NewErrWriter([], DbSpec.Site("shardCommit", 501));
  }

  method ShardRollback(c: RequestContext, mode: string, o: ShardOutcome) returns (ew: Err.ErrWriter)
    requires Fits(o, Shard(c.State(), IsW(mode)))
    modifies c
    ensures (c.State(), ew) == DbSpec.ShardRollback(old(c.State()), mode, o)
  {
    var w := IsW(mode);
    var slot := Shard(c.State(), w);
    if slot.txs.Some? {
      var rest, e, hasError := FinishShards(slot.txs.value, o);
      c.SetShard(w, ShardSlot(Some(rest), slot.started));
      if !hasError {
        c.SetShard(w, NoShard);
      } else {
        return Err.NewErrWriter([DbSpec.NilOr(e)], DbSpec.Site("shardRollback", 595));
      }
    }
    return Err.NewErrWriter([], DbSpec.Site("shardRollback", 598));
  }

  method Commit(c: RequestContext, mw: Option<Value>, sw: ShardOutcome, mr: Option<Value>, sr: ShardOutcome)
    returns (ew: Err.ErrWriter)
    requires Fits(sw, c.State().shardW) && Fits(sr, c.State().shardR)
    modifies c
    ensures (c.State(), ew) == DbSpec.Commit(old(c.State()), mw, sw, mr, sr)
  {
    ew := MasterCommit(c, mw);
    ew := ShardCommit(c, sw);
    ew := MasterRollback(c, ModeR, mr);
    ew := ShardRollback(c, ModeR, sr);
  }

  method RollBack(c: RequestContext, mw: Option<Value>, mr: Option<Value>, sw: ShardOutcome, sr: ShardOutcome)
    returns (ew: Err.ErrWriter)
    requires Fits(sw, c.State().shardW) && Fits(sr, c.State().shardR)
    modifies c
    ensures (c.State(), ew) == DbSpec.RollBack(old(c.State()), mw, mr, sw, sr)
  {
    ew := MasterRollback(c, ModeW, mw);
    ew := MasterRollback(c, ModeR, mr);
    ew := ShardRollback(c, ModeW, sw);
    ew := ShardRollback(c, ModeR, sr);
  }

  method GetTransaction(c: RequestContext, mode: string, isShard: bool, shardId: int,
                        beginErr: Option<Value>, begin: ShardOutcome) returns (tx: Result<Tx, Err.ErrWriter>)
    requires mode == ModeR ==> ReadableAt(c.topo, c.slaveIndex)
    requires DbSpec.BeginFits(c.topo, c.slaveIndex, mode, begin)
    modifies c
    ensures (c.State(), tx) == DbSpec.GetTransaction(c.topo, c.slaveIndex, old(c.State()), mode, isShard, shardId, beginErr, begin)
  {
    var w := IsW(mode);
    var found: Option<Tx> := None;
    if isShard {
      var ew := ShardAllTxStart(c, mode, begin);
      if Err.HasErr(ew) {
        return Err(Err.Write(ew, [Str(DbSpec.ShardStartFailed)], DbSpec.Site("GetTransaction", 624)));
      }
      var sMap := Shard(c.State(), w).txs;
      if sMap.Some? && shardId in sMap.value {
        found := Some(sMap.value[shardId]);
      }
    } else {
      var ew := MasterTxStart(c, mode, beginErr);
      if Err.HasErr(ew) {
        return Err(Err.Write(ew, [Str(DbSpec.MasterStartFailed)], DbSpec.Site("GetTransaction", 646)));
      }
      found := Master(c.State(), w).tx;
    }
    var ew := Err.NewErrWriter([], DbSpec.Site("GetTransaction", 665));
    if found.None? {
      return Err(Err.Write(ew, [Str(DbSpec.NotFoundTransaction)], DbSpec.Site("GetTransaction", 667)));
    }
    return Ok(found.value);
  }
}
