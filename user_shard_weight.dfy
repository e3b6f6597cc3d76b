/** The weighted shard choice of src/sample/model/userShardWeight.go: the
    `user_shard_weight` rows are expanded into a list holding each row's
    shard id `weight` times, one element is drawn at random, and the drawn
    id is checked. The table read and `rand.Intn` are parameters. */
module UserShardWeight {
  import opened Wrappers
  import opened GoValues
  import Weights
  import Err
  import DbSpec

  const EmptyTableMsg: string := "user shard weight record empty!!"
  const InvalidIdMsg: string := "shard id : 0 is invalid!!"
  /** The error the corrected choice reports when no row has a positive
      weight (the source has no such check). */
  const NoWeightMsg: string := "shard weight list is empty!!"

  const WeightFile: string := DbSpec.GoPath + "/src/sample/model/userShardWeight.go"

  /** The caller items of an error written in method `fn` of
      `userShardWeightRepo` at `line`. */
  function Site(fn: string, line: int): Err.Caller {
    Err.Caller("sample/model.(*userShardWeightRepo)." + fn, WeightFile, line)
  }

  /** A `user_shard_weight` row. */
  datatype UserShardWeight = UserShardWeight(shardId: int, weight: int)

  /** The rows as (value, weight) pairs. */
  function Pairs(rows: seq<UserShardWeight>): (r: seq<(int, int)>)
    ensures |r| == |rows|
    ensures forall i :: 0 <= i < |rows| ==> r[i] == (rows[i].shardId, rows[i].weight)
  {
    seq(|rows|, i requires 0 <= i < |rows| => (rows[i].shardId, rows[i].weight))
  }

  /** The expanded list `shardWeights`. */
  function ShardWeights(rows: seq<UserShardWeight>): seq<int> {
    Weights.Expand(Pairs(rows))
  }

  /** The end of `finds`, given what the connection and the query produced
      (the rows, or the error stack finds has already written): an empty
      table is an error. */
  function Finds(selected: Result<seq<UserShardWeight>, Err.ErrWriter>): (r: Result<seq<UserShardWeight>, Err.ErrWriter>)
    ensures r.Ok? <==> selected.Ok? && |selected.value| >= 1
    ensures r.Ok? ==> r.value == selected.value
    ensures selected.Ok? && |selected.value| < 1 ==>
              r.Err? && |r.error.errMsgs| > 0 && r.error.errMsgs[0] == Str(EmptyTableMsg)
    ensures selected.Err? ==> r == selected
  {
    if selected.Err? then selected
    else if |selected.value| < 1 then
      var ew := Err.Write(DbSpec.NoErr, [Str(EmptyTableMsg)], Site("finds", 127));
      assert ew.errMsgs[..1] == [Str(EmptyTableMsg)];
      Err(ew)
    else selected
  }

  /** `rand.Intn(n)` honours its contract: when the list is non-empty the
      drawn index lies in it. */
  predicate DrawFits(rows: seq<UserShardWeight>, draw: int) {
    |ShardWeights(rows)| > 0 ==> 0 <= draw < |ShardWeights(rows)|
  }

  /** What happens once the id at the drawn index is known. */
  function Check(shardId: int): Result<int, Err.ErrWriter> {
    if shardId < 1 then Err(Err.Write(DbSpec.NoErr, [Str(InvalidIdMsg)], Site("ChoiceShardId", 92)))
    else Ok(shardId)
  }

  /** `ChoiceShardId` as written, given what `finds` returned and what
      `rand.Intn` draws: `rand.Intn(0)` panics when every weight is <= 0. */
  function ChoiceAsWritten(found: Result<seq<UserShardWeight>, Err.ErrWriter>, draw: int): Outcome<Result<int, Err.ErrWriter>>
    requires found.Ok? ==> DrawFits(found.value, draw)
  {
    if found.Err? then Done(Err(Err.Write(found.error, [], Site("ChoiceShardId", 73))))
    else
      var list := ShardWeights(found.value);
      if |list| == 0 then Panic
      else Done(Check(list[draw]))
  }

  /** `ChoiceShardId` as evidently intended: an empty list is reported as
      an error instead of reaching `rand.Intn(0)`. */
  function Choice(found: Result<seq<UserShardWeight>, Err.ErrWriter>, draw: int): Result<int, Err.ErrWriter>
    requires found.Ok? ==> DrawFits(found.value, draw)
  {
    if found.Err? then Err(Err.Write(found.error, [], Site("ChoiceShardId", 73)))
    else
      var list := ShardWeights(found.value);
      if |list| == 0 then Err(Err.Write(DbSpec.NoErr, [Str(NoWeightMsg)], Site("ChoiceShardId", 87)))
      else Check(list[draw])
  }

  /** The nested loops building `shardWeights`: each row's shard id appended
      `weight` times, rows in order. */
  method ExpandWeights(rows: seq<UserShardWeight>) returns (shardWeights: seq<int>)
    ensures shardWeights == ShardWeights(rows)
  {
    shardWeights := [];
    var k := 0;
    while k < |rows|
      invariant 0 <= k <= |rows|
      invariant shardWeights == Weights.Expand(Pairs(rows)[..k])
    {
      var v := rows[k];
      ghost var before := shardWeights;
      var i := 0;
      while i < v.weight
        invariant 0 <= i && (v.weight > 0 ==> i <= v.weight) && (v.weight <= 0 ==> i == 0)
        invariant shardWeights == before + Weights.Repeat(v.shardId, i)
      {
        shardWeights := shardWeights + [v.shardId];
        i := i + 1;
      }
      assert Weights.Repeat(v.shardId, i) == Weights.Repeat(v.shardId, v.weight);
      assert Pairs(rows)[..k + 1][..k] == Pairs(rows)[..k];
      k := k + 1;
    }
    assert Pairs(rows)[..k] == Pairs(rows);
  }

  /** `ChoiceShardId` as written. */
  method ChoiceShardIdAsWritten(found: Result<seq<UserShardWeight>, Err.ErrWriter>, draw: int)
    returns (r: Outcome<Result<int, Err.ErrWriter>>)
    requires found.Ok? ==> DrawFits(found.value, draw)
    ensures r == ChoiceAsWritten(found, draw)
  {
    if found.Err? {
      return Done(Err(Err.Write(found.error, [], Site("ChoiceShardId", 73))));
    }
    var shardWeights := ExpandWeights(found.value);
    if |shardWeights| == 0 {
      return Panic;
    }
    var shardId := shardWeights[draw];
    if shardId < 1 {
      return Done(Err(Err.Write(DbSpec.NoErr, [Str(InvalidIdMsg)], Site("ChoiceShardId", 92))));
    }
    return Done(Ok(shardId));
  }

  /** `ChoiceShardId` with the empty-list check. */
  method ChoiceShardId(found: Result<seq<UserShardWeight>, Err.ErrWriter>, draw: int)
    returns (r: Result<int, Err.ErrWriter>)
    requires found.Ok? ==> DrawFits(found.value, draw)
    ensures r == Choice(found, draw)
  {
    if found.Err? {
      return Err(Err.Write(found.error, [], Site("ChoiceShardId", 73)));
    }
    var shardWeights := ExpandWeights(found.value);
    if |shardWeights| == 0 {
      return Err(Err.Write(DbSpec.NoErr, [Str(NoWeightMsg)], Site("ChoiceShardId", 87)));
    }
    var shardId := shardWeights[draw];
    if shardId < 1 {
      return Err(Err.Write(DbSpec.NoErr, [Str(InvalidIdMsg)], Site("ChoiceShardId", 92)));
    }
    return Ok(shardId);
  }

  /** In the expanded list each shard id occurs exactly as often as the
      total positive weight of its rows, and the list of a concatenation of
      row lists is the concatenation of their lists. */
  lemma ShardWeightsShape(rows: seq<UserShardWeight>, more: seq<UserShardWeight>, id: int)
    ensures Weights.Count(ShardWeights(rows), id) == Weights.WeightOf(Pairs(rows), id)
    ensures ShardWeights(rows + more) == ShardWeights(rows) + ShardWeights(more)
  {
    Weights.ExpandCount(Pairs(rows), id);
    assert Pairs(rows + more) == Pairs(rows) + Pairs(more);
    Weights.ExpandAppend(Pairs(rows), Pairs(more));
  }

  /** The draw panics exactly when the table was read but no row has a
      positive weight; otherwise the as-written and corrected choices
      agree. */
  lemma PanicIffNoWeight(found: Result<seq<UserShardWeight>, Err.ErrWriter>, draw: int)
    requires found.Ok? ==> DrawFits(found.value, draw)
    ensures ChoiceAsWritten(found, draw).Panic? <==>
              found.Ok? && forall i :: 0 <= i < |found.value| ==> found.value[i].weight <= 0
    ensures !ChoiceAsWritten(found, draw).Panic? ==> ChoiceAsWritten(found, draw) == Done(Choice(found, draw))
  {
    if found.Ok? {
      var rows := found.value;
      forall id ensures id in ShardWeights(rows) <==> exists i :: 0 <= i < |rows| && rows[i].shardId == id && rows[i].weight > 0 {
        Weights.ExpandMember(Pairs(rows), id);
      }
      if |ShardWeights(rows)| > 0 {
        var id := ShardWeights(rows)[0];
        assert id in ShardWeights(rows);
        var i :| 0 <= i < |rows| && rows[i].shardId == id && rows[i].weight > 0;
        assert !(found.value[i].weight <= 0);
      } else {
        forall i | 0 <= i < |rows| ensures rows[i].weight <= 0 {
          assert Pairs(rows)[i] == (rows[i].shardId, rows[i].weight);
          Weights.ExpandMember(Pairs(rows), rows[i].shardId);
        }
      }
    }
  }

  /** One row of weight 0 passes `finds` and makes the as-written choice
      panic, whatever is drawn. */
  lemma ZeroWeightPanics(draw: int)
    ensures Finds(Ok([UserShardWeight(1, 0)])) == Ok([UserShardWeight(1, 0)])
    ensures ChoiceAsWritten(Ok([UserShardWeight(1, 0)]), draw) == Panic
  {
    var rows := [UserShardWeight(1, 0)];
    assert Pairs(rows) == [(1, 0)];
    assert Pairs(rows)[..0] == [];
    assert ShardWeights(rows) == [];
  }

  /** The corrected choice returns an id of at least 1 that some row
      carries with a positive weight, namely the one at the drawn index; it
      fails exactly when the read failed, no row has a positive weight, or
      the drawn id is below 1. */
  lemma ChoiceMeaning(found: Result<seq<UserShardWeight>, Err.ErrWriter>, draw: int)
    requires found.Ok? ==> DrawFits(found.value, draw)
    ensures Choice(found, draw).Ok? ==>
              var id := Choice(found, draw).value;
              found.Ok? && id >= 1 && id == ShardWeights(found.value)[draw] &&
              exists i :: 0 <= i < |found.value| && found.value[i].shardId == id && found.value[i].weight > 0
    ensures found.Err? ==>
              Choice(found, draw).Err? &&
              Choice(found, draw).error.errMsgs[..|found.error.errMsgs|] == found.error.errMsgs
    ensures found.Ok? && |ShardWeights(found.value)| == 0 ==>
              Choice(found, draw).Err? && Choice(found, draw).error.errMsgs[0] == Str(NoWeightMsg)
    ensures found.Ok? && |ShardWeights(found.value)| > 0 && ShardWeights(found.value)[draw] < 1 ==>
              Choice(found, draw).Err? && Choice(found, draw).error.errMsgs[0] == Str(InvalidIdMsg)
  {
    if found.Ok? {
      var rows := found.value;
      var list := ShardWeights(rows);
      if |list| > 0 {
        Weights.ExpandMember(Pairs(rows), list[draw]);
        assert list[draw] in list;
        if list[draw] < 1 {
          var ew := Err.Write(DbSpec.NoErr, [Str(InvalidIdMsg)], Site("ChoiceShardId", 92));
          assert ew.errMsgs[..1] == [Str(InvalidIdMsg)];
        }
      } else {
        var ew := Err.Write(DbSpec.NoErr, [Str(NoWeightMsg)], Site("ChoiceShardId", 87));
        assert ew.errMsgs[..1] == [Str(NoWeightMsg)];
      }
    }
  }
}
