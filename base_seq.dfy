/** `getSeqIds` of src/sample/model/base.go: reserving `getNum` ids from a
    table's sequence table on the master. The statements sent to the
    database (LOCK, UPDATE id = id + getNum, SELECT max(id), UNLOCK) are
    foreign; their outcomes are the parameter `steps`. The ids are Go
    `uint64`, so `seqId - i` wraps modulo 2^64. */
module BaseSeq {
  import opened Wrappers
  import Strings

  const U64: int := 0x1_0000_0000_0000_0000

  type Uint64 = x: int | 0 <= x < U64

  /** Go's `uint64` arithmetic result. */
  function Wrap(x: int): Uint64 {
    x % U64
  }

  /** The outcome of each statement, in the order they are sent: the
      transaction lookup, LOCK TABLES, the UPDATE, the SELECT (the new
      maximum id) and UNLOCK TABLES. */
  datatype SeqSteps = SeqSteps(tx: Option<string>, lock: Option<string>, update: Option<string>,
                               maxId: Result<Uint64, string>, unlock: Option<string>)

  /** The first failing statement's error, or the selected maximum id. */
  function StepsOutcome(s: SeqSteps): Result<Uint64, string> {
    if s.tx.Some? then Err(s.tx.value)
    else if s.lock.Some? then Err(s.lock.value)
    else if s.update.Some? then Err(s.update.value)
    else if s.maxId.Err? then Err(s.maxId.error)
    else if s.unlock.Some? then Err(s.unlock.value)
    else Ok(s.maxId.value)
  }

  /** The `getNum` ids ending at `seqId`, in ascending position:
      `seqId - (getNum - 1)`, ..., `seqId`, each in `uint64`. */
  function SeqIds(seqId: Uint64, getNum: Uint64): (r: seq<Uint64>)
    ensures |r| == getNum
  {
    seq<Uint64>(getNum, j requires 0 <= j < getNum => Wrap(seqId - (getNum - 1) + j))
  }

  /** `getSeqIds(getNum)`. */
  function SeqIdsOutcome(getNum: Uint64, steps: SeqSteps): Result<seq<Uint64>, string> {
    if getNum < 1 then Err("invalid getNum : " + Strings.Itoa(getNum))
    else
      var o := StepsOutcome(steps);
      if o.Err? then Err(o.error) else Ok(SeqIds(o.value, getNum))
  }

  /** The loop `seqIds = append([]uint64{seqId - i}, seqIds...)` for
      `i = 0 .. getNum - 1`. */
  method BuildSeqIds(seqId: Uint64, getNum: Uint64) returns (seqIds: seq<Uint64>)
    ensures seqIds == SeqIds(seqId, getNum)
  {
    seqIds := [];
    var i: int := 0;
    while i < getNum
      invariant 0 <= i <= getNum
      invariant |seqIds| == i
      invariant forall j :: 0 <= j < i ==> seqIds[j] == Wrap(seqId - (i - 1) + j)
    {
      seqIds := [Wrap(seqId - i)] + seqIds;
      i := i + 1;
    }
  }

  /** `getSeqIds(getNum)`, statement by statement. */
  method GetSeqIds(getNum: Uint64, steps: SeqSteps) returns (r: Result<seq<Uint64>, string>)
    ensures r == SeqIdsOutcome(getNum, steps)
  {
    if getNum < 1 {
      return Err("invalid getNum : " + Strings.Itoa(getNum));
    }
    if steps.tx.Some? {
      return Err(steps.tx.value);
    }
    if steps.lock.Some? {
      return Err(steps.lock.value);
    }
    if steps.update.Some? {
      return Err(steps.update.value);
    }
    if steps.maxId.Err? {
      return Err(steps.maxId.error);
    }
    var seqId := steps.maxId.value;
    if steps.unlock.Some? {
      return Err(steps.unlock.value);
    }
    var seqIds := BuildSeqIds(seqId, getNum);
    return Ok(seqIds);
  }

  lemma WrapInRange(x: int)
    requires 0 <= x < U64
    ensures Wrap(x) == x
  {
  }

  /** Without wrap-around the ids are `seqId - getNum + 1`, ..., `seqId`,
      consecutive and ascending. */
  lemma SeqIdsAscending(seqId: Uint64, getNum: Uint64)
    requires 1 <= getNum <= seqId + 1
    ensures SeqIds(seqId, getNum)[0] == seqId - getNum + 1
    ensures SeqIds(seqId, getNum)[getNum - 1] == seqId
    ensures forall j :: 0 <= j < getNum - 1 ==> SeqIds(seqId, getNum)[j + 1] == SeqIds(seqId, getNum)[j] as int + 1
  {
    forall j | 0 <= j < getNum ensures SeqIds(seqId, getNum)[j] == seqId - (getNum - 1) + j {
      WrapInRange(seqId - (getNum - 1) + j);
    }
  }

  /** When the UPDATE raised the maximum from `before` to `before + getNum`,
      the ids are exactly the `getNum` ids just reserved, all above
      `before`. */
  lemma SeqIdsFresh(before: Uint64, getNum: Uint64, seqId: Uint64)
    requires seqId == before + getNum
    ensures forall j :: 0 <= j < getNum ==> SeqIds(seqId, getNum)[j] == before + 1 + j
  {
    forall j | 0 <= j < getNum ensures SeqIds(seqId, getNum)[j] == before + 1 + j {
      WrapInRange(seqId - (getNum - 1) + j);
    }
  }

  /** A maximum smaller than `getNum - 1` wraps: the ids then start near
      2^64 and are not ascending. */
  lemma SeqIdsWrapAround()
    ensures SeqIds(0, 2) == [U64 - 1, 0]
  {
    assert Wrap(-1) == U64 - 1;
    assert Wrap(0) == 0;
  }

  /** `getNum` 0 is refused before any statement; otherwise the first
      failing statement's error is returned as is, and with none the ids
      end at the selected maximum. */
  lemma SeqIdsOutcomeCases(getNum: Uint64, steps: SeqSteps)
    ensures getNum == 0 ==> SeqIdsOutcome(getNum, steps) == Err("invalid getNum : 0")
    ensures getNum >= 1 && StepsOutcome(steps).Err? ==> SeqIdsOutcome(getNum, steps) == Err(StepsOutcome(steps).error)
    ensures getNum >= 1 && StepsOutcome(steps).Ok? ==>
              SeqIdsOutcome(getNum, steps).Ok? && |SeqIdsOutcome(getNum, steps).value| == getNum &&
              SeqIdsOutcome(getNum, steps).value[getNum - 1] == steps.maxId.value
    ensures StepsOutcome(steps).Ok? <==>
              steps.tx.None? && steps.lock.None? && steps.update.None? && steps.maxId.Ok? && steps.unlock.None?
  {
    if getNum == 0 {
      assert Strings.NatToString(0) == "0";
      assert Strings.Itoa(0) == "0";
      assert "invalid getNum : " + "0" == "invalid getNum : 0";
    } else if StepsOutcome(steps).Ok? {
      var seqId := steps.maxId.value;
      WrapInRange(seqId);
      assert SeqIds(seqId, getNum)[getNum - 1] == Wrap(seqId);
    }
  }
}
