/** The schema-to-column derivation of src/sample/model/base.go
    (`getTableInfoFromStructData`), with `getShardIdByShardKey` and
    `getSeqId`. Reflection over a record struct becomes an explicit list of
    field descriptors: the field's name, its `db`, `pk`, `shard` and `seq`
    tags, and its value. The sequence table's statements, one set per field,
    and the shard lookup (the shard repository, keyed by shard type and shard
    key) are parameters. */
module BaseRecord {
  import opened Wrappers
  import opened GoValues
  import Strings
  import TableConf
  import BaseSeq

  /** The columns INSERT and UPDATE leave to the database. */
  const CreatedAt: string := "created_at"
  const UpdatedAt: string := "updated_at"
  /** The tag value that switches a `pk`, `shard` or `seq` flag on. */
  const On: string := "t"

  const MultipleShardKeyMsg: string := "multiple shard key not available!!"
  const NoPkMsg: string := "must be set pks in struct!!"
  const NoShardKeyMsg: string := "not set shard_key!!"

  /** One struct field as reflection sees it. */
  datatype Field = Field(name: string, db: string, pk: string, shard: string, seqTag: string, value: Value)

  /** The shard repository's `findShardId(shardType, shardKey)`. */
  type ShardLookup = (int, Value) -> Result<int, string>

  /** What the derivation yields: the columns in field order, the non-pk
      values, the pk values (squirrel's `Eq`) and the shard key. */
  datatype TableInfo = TableInfo(columns: seq<string>, valueMap: map<string, Value>, pkMap: map<string, Value>, shardKey: Value)

  const NoInfo: TableInfo := TableInfo([], map[], map[], Nil)

  /** A failure passed on unchanged to a caller with another result type. */
  function Pass<A, B>(o: Outcome<A>): (r: Outcome<B>)
    requires !o.Done?
    ensures r.Panic? <==> o.Panic?
    ensures r.Fail? ==> o.Fail? && r.msg == o.msg
  {
    if o.Panic? then Panic else Fail(o.msg)
  }

  /** The column of a field: its `db` tag when non-empty, its lower-cased
      name otherwise. */
  function Column(f: Field): string {
    if |f.db| > 0 then f.db else Strings.ToLower(f.name)
  }

  /** On INSERT and UPDATE the timestamp columns are not emitted. */
  predicate Skipped(f: Field, isInsUpd: bool) {
    isInsUpd && (Column(f) == CreatedAt || Column(f) == UpdatedAt)
  }

  /** `getSeqId`: the single id `getSeqIds(1)` reserves. */
  function SeqId(steps: BaseSeq.SeqSteps): Result<BaseSeq.Uint64, string> {
    var r := BaseSeq.SeqIdsOutcome(1, steps);
    if r.Err? then Err(r.error) else Ok(r.value[0])
  }

  /** The value a field contributes: on INSERT or UPDATE a `seq` field must
      hold a `uint64` (the type assertion panics otherwise), and one below 1
      is replaced by a fresh sequence id. */
  function FieldValue(f: Field, isInsUpd: bool, steps: BaseSeq.SeqSteps): Outcome<Value> {
    if isInsUpd && f.seqTag == On then
      if !f.value.Uint64? then Panic
      else if f.value.u < 1 then
        var s := SeqId(steps);
        if s.Err? then Fail(s.error) else Done(Uint64(s.value))
      else Done(f.value)
    else Done(f.value)
  }

  /** One iteration of the field loop. */
  function FieldStep(t: TableInfo, f: Field, isShard: bool, isInsUpd: bool, steps: BaseSeq.SeqSteps): Outcome<TableInfo> {
    if Skipped(f, isInsUpd) then Done(t)
    else
      var v := FieldValue(f, isInsUpd, steps);
      if !v.Done? then Pass(v)
      else
        var c := Column(f);
        var t1 := if f.pk == On then t.(columns := t.columns + [c], pkMap := t.pkMap[c := v.value])
                  else t.(columns := t.columns + [c], valueMap := t.valueMap[c := v.value]);
        if isShard && f.shard == On then
          if t.shardKey != Nil then Fail(MultipleShardKeyMsg) else Done(t1.(shardKey := v.value))
        else Done(t1)
  }

  /** The field loop from field `i` on, starting from `t`. */
  function Scan(fields: seq<Field>, isShard: bool, isInsUpd: bool, seqs: seq<BaseSeq.SeqSteps>, t: TableInfo, i: nat): Outcome<TableInfo>
    requires |seqs| == |fields| && i <= |fields|
    decreases |fields| - i
  {
    if i == |fields| then Done(t)
    else
      var o := FieldStep(t, fields[i], isShard, isInsUpd, seqs[i]);
      if o.Done? then Scan(fields, isShard, isInsUpd, seqs, o.value, i + 1) else o
  }

  /** `getTableInfoFromStructData(holder, dbTableConf, isINSorUPD)`;
      `seqs[i]` are the sequence statements a `seq` field `i` would run. */
  function TableInfoOf(fields: seq<Field>, conf: TableConf.DbTableConf, isInsUpd: bool, seqs: seq<BaseSeq.SeqSteps>): Outcome<TableInfo>
    requires |seqs| == |fields|
  {
    var o := Scan(fields, TableConf.IsUseTypeShard(conf), isInsUpd, seqs, NoInfo, 0);
    if o.Done? && |o.value.pkMap| < 1 then Fail(NoPkMsg) else o
  }

  /** `getShardIdByShardKey(shardKey, dbTableConf)`. */
  function ShardIdOf(shardKey: Value, conf: TableConf.DbTableConf, lookup: ShardLookup): Result<int, string> {
    if TableConf.IsUseTypeMaster(conf) then Ok(0)
    else if shardKey == Nil then Err(NoShardKeyMsg)
    else lookup(conf.shardType, shardKey)
  }

  /** The columns of the fields from `i` on that are not skipped, in order. */
  function KeptColumns(fields: seq<Field>, isInsUpd: bool, i: nat): seq<string>
    decreases |fields| - i
  {
    if i >= |fields| then []
    else (if Skipped(fields[i], isInsUpd) then [] else [Column(fields[i])]) + KeptColumns(fields, isInsUpd, i + 1)
  }

  /** Every column is a key of one of the two maps, and every key is a
      column. */
  predicate Covers(t: TableInfo) {
    (forall c :: c in t.columns ==> c in t.pkMap || c in t.valueMap) &&
    (forall c :: c in t.pkMap ==> c in t.columns) &&
    (forall c :: c in t.valueMap ==> c in t.columns)
  }

  /** No field from `i` on is an emitted pk field. */
  predicate NoPkFrom(fields: seq<Field>, isInsUpd: bool, i: nat) {
    forall a :: i <= a < |fields| && !Skipped(fields[a], isInsUpd) ==> fields[a].pk != On
  }

  /** No two fields share a column. */
  predicate DistinctColumns(fields: seq<Field>) {
    forall a, b :: 0 <= a < b < |fields| ==> Column(fields[a]) != Column(fields[b])
  }

  /** `c` went to the pk map (when `pk`) or to the value map, with `v`, and
      not to the other map. */
  predicate Placed(t: TableInfo, c: string, pk: bool, v: Value) {
    if pk then c in t.pkMap && t.pkMap[c] == v && c !in t.valueMap
    else c in t.valueMap && t.valueMap[c] == v && c !in t.pkMap
  }

  /** The column loop, field by field. */
  method GetTableInfo(fields: seq<Field>, conf: TableConf.DbTableConf, isInsUpd: bool, seqs: seq<BaseSeq.SeqSteps>)
    returns (r: Outcome<TableInfo>)
    requires |seqs| == |fields|
    ensures r == TableInfoOf(fields, conf, isInsUpd, seqs)
  {
    var isShard := TableConf.IsUseTypeShard(conf);
    var columns: seq<string> := [];
    var valueMap: map<string, Value> := map[];
    var pkMap: map<string, Value> := map[];
    var shardKey := Nil;
    var i := 0;
    while i < |fields|
      invariant 0 <= i <= |fields|
      invariant Scan(fields, isShard, isInsUpd, seqs, NoInfo, 0) ==
                Scan(fields, isShard, isInsUpd, seqs, TableInfo(columns, valueMap, pkMap, shardKey), i)
    {
      ghost var t := TableInfo(columns, valueMap, pkMap, shardKey);
      var o := FieldOnce(TableInfo(columns, valueMap, pkMap, shardKey), fields[i], isShard, isInsUpd, seqs[i]);
      assert Scan(fields, isShard, isInsUpd, seqs, t, i) == if o.Done? then Scan(fields, isShard, isInsUpd, seqs, o.value, i + 1) else o;
      if !o.Done? {
        return o;
      }
      assert o.value == TableInfo(o.value.columns, o.value.valueMap, o.value.pkMap, o.value.shardKey);
      columns, valueMap, pkMap, shardKey := o.value.columns, o.value.valueMap, o.value.pkMap, o.value.shardKey;
      i := i + 1;
    }
    if |pkMap| < 1 {
      return Fail(NoPkMsg);
    }
    return Done(TableInfo(columns, valueMap, pkMap, shardKey));
  }

  /** The body of the column loop for one field. */
  method FieldOnce(t: TableInfo, f: Field, isShard: bool, isInsUpd: bool, steps: BaseSeq.SeqSteps) returns (r: Outcome<TableInfo>)
    ensures r == FieldStep(t, f, isShard, isInsUpd, steps)
  {
    var column := if |f.db| > 0 then f.db else Strings.ToLower(f.name);
    if isInsUpd && (column == CreatedAt || column == UpdatedAt) {
      return Done(t);
    }
    var value := f.value;
    if isInsUpd && f.seqTag == On {
      if !value.Uint64? {
        return Panic;
      }
      if value.u < 1 {
        var ids := BaseSeq.GetSeqIds(1, steps);
        if ids.Err? {
          return Fail(ids.error);
        }
        value := Uint64(ids.value[0]);
      }
    }
    var t1 := t.(columns := t.columns + [column]);
    if f.pk == On {
      t1 := t1.(pkMap := t.pkMap[column := value]);
    } else {
      t1 := t1.(valueMap := t.valueMap[column := value]);
    }
    if isShard && f.shard == On {
      if t.shardKey != Nil {
        return Fail(MultipleShardKeyMsg);
      }
      t1 := t1.(shardKey := value);
    }
    return Done(t1);
  }

  /** `getSeqId` returns exactly the maximum id the sequence table reports,
      or the first failing statement's error. */
  lemma SeqIdMeaning(steps: BaseSeq.SeqSteps)
    ensures SeqId(steps) == BaseSeq.StepsOutcome(steps)
  {
    if BaseSeq.StepsOutcome(steps).Ok? {
      var m := BaseSeq.StepsOutcome(steps).value;
      BaseSeq.WrapInRange(m);
      assert BaseSeq.SeqIds(m, 1)[0] == BaseSeq.Wrap(m);
    }
  }

  /** A master table resolves shard id 0 without a lookup; otherwise a nil
      shard key is an error and any other key is looked up under the
      table's shard type. */
  lemma ShardIdCases(shardKey: Value, conf: TableConf.DbTableConf, l1: ShardLookup, l2: ShardLookup)
    ensures TableConf.IsUseTypeMaster(conf) ==> ShardIdOf(shardKey, conf, l1) == Ok(0)
    ensures !TableConf.IsUseTypeMaster(conf) && shardKey == Nil ==> ShardIdOf(shardKey, conf, l1) == Err(NoShardKeyMsg)
    ensures !TableConf.IsUseTypeMaster(conf) && shardKey != Nil ==> ShardIdOf(shardKey, conf, l1) == l1(conf.shardType, shardKey)
    ensures TableConf.IsUseTypeMaster(conf) || shardKey == Nil ==> ShardIdOf(shardKey, conf, l1) == ShardIdOf(shardKey, conf, l2)
  {
  }

  /** The emitted columns are the kept fields' columns in field order, and
      a table that is not sharded never gets a shard key. */
  lemma {:induction false} ScanColumns(fields: seq<Field>, isShard: bool, isInsUpd: bool, seqs: seq<BaseSeq.SeqSteps>, t: TableInfo, i: nat)
    requires |seqs| == |fields| && i <= |fields|
    requires Scan(fields, isShard, isInsUpd, seqs, t, i).Done?
    ensures Scan(fields, isShard, isInsUpd, seqs, t, i).value.columns == t.columns + KeptColumns(fields, isInsUpd, i)
    ensures !isShard && t.shardKey == Nil ==> Scan(fields, isShard, isInsUpd, seqs, t, i).value.shardKey == Nil
    decreases |fields| - i
  {
    if i < |fields| {
      ScanUnfold(fields, isShard, isInsUpd, seqs, t, i);
      var t1 := FieldStep(t, fields[i], isShard, isInsUpd, seqs[i]).value;
      FieldStepColumns(t, fields[i], isShard, isInsUpd, seqs[i]);
      ScanColumns(fields, isShard, isInsUpd, seqs, t1, i + 1);
      var k := if Skipped(fields[i], isInsUpd) then [] else [Column(fields[i])];
      assert KeptColumns(fields, isInsUpd, i) == k + KeptColumns(fields, isInsUpd, i + 1);
      assert t.columns + k + KeptColumns(fields, isInsUpd, i + 1) == t.columns + KeptColumns(fields, isInsUpd, i);
    }
  }

  /** A successful loop from field `i` took field `i`'s step first. */
  lemma ScanUnfold(fields: seq<Field>, isShard: bool, isInsUpd: bool, seqs: seq<BaseSeq.SeqSteps>, t: TableInfo, i: nat)
    requires |seqs| == |fields| && i < |fields|
    requires Scan(fields, isShard, isInsUpd, seqs, t, i).Done?
    ensures FieldStep(t, fields[i], isShard, isInsUpd, seqs[i]).Done?
    ensures Scan(fields, isShard, isInsUpd, seqs, t, i) ==
              Scan(fields, isShard, isInsUpd, seqs, FieldStep(t, fields[i], isShard, isInsUpd, seqs[i]).value, i + 1)
  {
  }

  /** One step appends the field's column unless it is skipped, and sets a
      shard key only on a sharded table. */
  lemma FieldStepColumns(t: TableInfo, f: Field, isShard: bool, isInsUpd: bool, steps: BaseSeq.SeqSteps)
    requires FieldStep(t, f, isShard, isInsUpd, steps).Done?
    ensures FieldStep(t, f, isShard, isInsUpd, steps).value.columns == t.columns + (if Skipped(f, isInsUpd) then [] else [Column(f)])
    ensures !isShard ==> FieldStep(t, f, isShard, isInsUpd, steps).value.shardKey == t.shardKey
  {
  }

  /** Each step keeps the two maps' keys equal to the columns. */
  lemma {:induction false} ScanCovers(fields: seq<Field>, isShard: bool, isInsUpd: bool, seqs: seq<BaseSeq.SeqSteps>, t: TableInfo, i: nat)
    requires |seqs| == |fields| && i <= |fields|
    requires Scan(fields, isShard, isInsUpd, seqs, t, i).Done? && Covers(t)
    ensures Covers(Scan(fields, isShard, isInsUpd, seqs, t, i).value)
    decreases |fields| - i
  {
    if i < |fields| {
      var t1 := FieldStep(t, fields[i], isShard, isInsUpd, seqs[i]).value;
      assert Covers(t1);
      ScanCovers(fields, isShard, isInsUpd, seqs, t1, i + 1);
    }
  }

  /** Without a pk field the pk map stays empty. */
  lemma {:induction false} ScanNoPk(fields: seq<Field>, isShard: bool, isInsUpd: bool, seqs: seq<BaseSeq.SeqSteps>, t: TableInfo, i: nat)
    requires |seqs| == |fields| && i <= |fields|
    requires Scan(fields, isShard, isInsUpd, seqs, t, i).Done? && t.pkMap == map[] && NoPkFrom(fields, isInsUpd, i)
    ensures Scan(fields, isShard, isInsUpd, seqs, t, i).value.pkMap == map[]
    decreases |fields| - i
  {
    if i < |fields| {
      var t1 := FieldStep(t, fields[i], isShard, isInsUpd, seqs[i]).value;
      assert t1.pkMap == map[];
      ScanNoPk(fields, isShard, isInsUpd, seqs, t1, i + 1);
    }
  }

  /** On INSERT and UPDATE neither timestamp column is emitted. */
  lemma {:induction false} NoTimestamps(fields: seq<Field>, i: nat)
    ensures CreatedAt !in KeptColumns(fields, true, i) && UpdatedAt !in KeptColumns(fields, true, i)
    decreases |fields| - i
  {
    if i < |fields| {
      NoTimestamps(fields, i + 1);
    }
  }

  /** A later field with another column leaves a placement alone. */
  lemma {:induction false} ScanKeeps(fields: seq<Field>, isShard: bool, isInsUpd: bool, seqs: seq<BaseSeq.SeqSteps>,
                                     t: TableInfo, i: nat, c: string, pk: bool, v: Value)
    requires |seqs| == |fields| && i <= |fields|
    requires Scan(fields, isShard, isInsUpd, seqs, t, i).Done? && Placed(t, c, pk, v)
    requires forall k :: i <= k < |fields| ==> Column(fields[k]) != c
    ensures Placed(Scan(fields, isShard, isInsUpd, seqs, t, i).value, c, pk, v)
    decreases |fields| - i
  {
    if i < |fields| {
      var t1 := FieldStep(t, fields[i], isShard, isInsUpd, seqs[i]).value;
      assert Column(fields[i]) != c;
      assert Placed(t1, c, pk, v);
      ScanKeeps(fields, isShard, isInsUpd, seqs, t1, i + 1, c, pk, v);
    }
  }

  /** With distinct columns, each emitted field's value lands in exactly
      one map: the pk map for a pk field, the value map otherwise. */
  lemma {:induction false} ScanPlacement(fields: seq<Field>, isShard: bool, isInsUpd: bool, seqs: seq<BaseSeq.SeqSteps>,
                                         t: TableInfo, i: nat, j: nat)
    requires |seqs| == |fields| && i <= j < |fields|
    requires DistinctColumns(fields) && !Skipped(fields[j], isInsUpd)
    requires forall k :: i <= k < |fields| ==> Column(fields[k]) !in t.pkMap && Column(fields[k]) !in t.valueMap
    requires Scan(fields, isShard, isInsUpd, seqs, t, i).Done?
    ensures FieldValue(fields[j], isInsUpd, seqs[j]).Done?
    ensures Placed(Scan(fields, isShard, isInsUpd, seqs, t, i).value, Column(fields[j]), fields[j].pk == On,
                   FieldValue(fields[j], isInsUpd, seqs[j]).value)
    decreases |fields| - i
  {
    var t1 := FieldStep(t, fields[i], isShard, isInsUpd, seqs[i]).value;
    if j == i {
      ScanKeeps(fields, isShard, isInsUpd, seqs, t1, i + 1, Column(fields[j]), fields[j].pk == On,
                FieldValue(fields[j], isInsUpd, seqs[j]).value);
    } else {
      forall k | i + 1 <= k < |fields| ensures Column(fields[k]) !in t1.pkMap && Column(fields[k]) !in t1.valueMap {
        assert Column(fields[i]) != Column(fields[k]);
      }
      ScanPlacement(fields, isShard, isInsUpd, seqs, t1, i + 1, j);
    }
  }

  /** Once a shard key is set, reaching another emitted shard field is an
      error. */
  lemma {:induction false} ShardKeySticks(fields: seq<Field>, isInsUpd: bool, seqs: seq<BaseSeq.SeqSteps>, t: TableInfo, i: nat, b: nat)
    requires |seqs| == |fields| && i <= b < |fields|
    requires t.shardKey != Nil && Scan(fields, true, isInsUpd, seqs, t, i).Done?
    requires !Skipped(fields[b], isInsUpd)
    ensures fields[b].shard != On
    decreases |fields| - i
  {
    var t1 := FieldStep(t, fields[i], true, isInsUpd, seqs[i]).value;
    if b > i {
      assert t1.shardKey == t.shardKey;
      ShardKeySticks(fields, isInsUpd, seqs, t1, i + 1, b);
    }
  }

  /** On a sharded table, an emitted shard field followed by another one
      passes only when the first one's value is nil. */
  lemma {:induction false} ScanShardKeyOnce(fields: seq<Field>, isInsUpd: bool, seqs: seq<BaseSeq.SeqSteps>, t: TableInfo, i: nat, a: nat, b: nat)
    requires |seqs| == |fields| && i <= a < b < |fields|
    requires t.shardKey == Nil && Scan(fields, true, isInsUpd, seqs, t, i).Done?
    requires !Skipped(fields[a], isInsUpd) && !Skipped(fields[b], isInsUpd)
    requires fields[a].shard == On && fields[b].shard == On
    ensures FieldValue(fields[a], isInsUpd, seqs[a]) == Done(Nil)
    decreases |fields| - i
  {
    var t1 := FieldStep(t, fields[i], true, isInsUpd, seqs[i]).value;
    if a == i {
      if t1.shardKey != Nil {
        ShardKeySticks(fields, isInsUpd, seqs, t1, i + 1, b);
      }
    } else {
      if t1.shardKey != Nil {
        ShardKeySticks(fields, isInsUpd, seqs, t1, i + 1, a);
      }
      ScanShardKeyOnce(fields, isInsUpd, seqs, t1, i + 1, a, b);
    }
  }

  /** What a successful derivation guarantees: the kept columns in field
      order, no timestamp column on INSERT/UPDATE, every column in one of
      the maps and only columns in them, at least one pk, and no shard key
      for a table that is not sharded; and the derivation fails with the
      no-pk error when it otherwise succeeds but no emitted field is a pk. */
  lemma TableInfoFacts(fields: seq<Field>, conf: TableConf.DbTableConf, isInsUpd: bool, seqs: seq<BaseSeq.SeqSteps>)
    requires |seqs| == |fields|
    ensures TableInfoOf(fields, conf, isInsUpd, seqs).Done? ==>
              var t := TableInfoOf(fields, conf, isInsUpd, seqs).value;
              t.columns == KeptColumns(fields, isInsUpd, 0) &&
              (isInsUpd ==> CreatedAt !in t.columns && UpdatedAt !in t.columns) &&
              Covers(t) && |t.pkMap| >= 1 &&
              (!TableConf.IsUseTypeShard(conf) ==> t.shardKey == Nil)
    ensures Scan(fields, TableConf.IsUseTypeShard(conf), isInsUpd, seqs, NoInfo, 0).Done? && NoPkFrom(fields, isInsUpd, 0) ==>
              TableInfoOf(fields, conf, isInsUpd, seqs) == Fail(NoPkMsg)
  {
    var isShard := TableConf.IsUseTypeShard(conf);
    if Scan(fields, isShard, isInsUpd, seqs, NoInfo, 0).Done? {
      ScanColumns(fields, isShard, isInsUpd, seqs, NoInfo, 0);
      ScanCovers(fields, isShard, isInsUpd, seqs, NoInfo, 0);
      NoTimestamps(fields, 0);
      assert [] + KeptColumns(fields, isInsUpd, 0) == KeptColumns(fields, isInsUpd, 0);
      if NoPkFrom(fields, isInsUpd, 0) {
        ScanNoPk(fields, isShard, isInsUpd, seqs, NoInfo, 0);
      }
    }
  }

  /** With distinct columns every emitted field is placed: a pk field's
      value in the pk map only, any other field's value in the value map
      only (a `seq` field's value being the resolved sequence id). */
  lemma TableInfoPlacement(fields: seq<Field>, conf: TableConf.DbTableConf, isInsUpd: bool, seqs: seq<BaseSeq.SeqSteps>, j: nat)
    requires |seqs| == |fields| && j < |fields|
    requires DistinctColumns(fields) && !Skipped(fields[j], isInsUpd)
    requires TableInfoOf(fields, conf, isInsUpd, seqs).Done?
    ensures FieldValue(fields[j], isInsUpd, seqs[j]).Done?
    ensures Placed(TableInfoOf(fields, conf, isInsUpd, seqs).value, Column(fields[j]), fields[j].pk == On,
                   FieldValue(fields[j], isInsUpd, seqs[j]).value)
  {
    ScanPlacement(fields, TableConf.IsUseTypeShard(conf), isInsUpd, seqs, NoInfo, 0, j);
  }

  /** On a sharded table two emitted shard-tagged fields are accepted only
      when the first one is nil: a second shard key is an error. */
  lemma TableInfoShardKeyOnce(fields: seq<Field>, conf: TableConf.DbTableConf, isInsUpd: bool, seqs: seq<BaseSeq.SeqSteps>, a: nat, b: nat)
    requires |seqs| == |fields| && a < b < |fields|
    requires TableConf.IsUseTypeShard(conf)
    requires !Skipped(fields[a], isInsUpd) && !Skipped(fields[b], isInsUpd)
    requires fields[a].shard == On && fields[b].shard == On
    requires TableInfoOf(fields, conf, isInsUpd, seqs).Done?
    ensures FieldValue(fields[a], isInsUpd, seqs[a]) == Done(Nil)
  {
    ScanShardKeyOnce(fields, isInsUpd, seqs, NoInfo, 0, a, b);
  }
}
