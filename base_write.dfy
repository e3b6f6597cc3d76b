/** The statements the record executor of src/sample/model/base.go assembles
    before handing them to squirrel and the transaction: `Update` (with its
    diff against a snapshot), `Create`, `CreateMulti` (with its single-shard
    rule) and `Save` (with the ON DUPLICATE KEY UPDATE list). A record is a
    list of field descriptors (module BaseRecord); the table's
    `db_table_conf` row, the sequence statements and the shard lookup are
    parameters, and the statement is returned instead of executed. */
module BaseWrite {
  import opened Wrappers
  import opened GoValues
  import Strings
  import TableConf
  import BaseSeq
  import BaseCondition
  import Weights
  import opened BaseRecord

  const TooManyPrevMsg: string := "enable set 1 prevData only!!"
  const UnknownColumnMsg: string := "unknown column found!!"
  const EmptyHoldersMsg: string := "holder slice invalid length!!"
  const MultiShardMsg: string := "can not set multi shard id !!"
  const DupPrefix: string := "ON DUPLICATE KEY UPDATE"

  /** `UPDATE table SET setMap WHERE where`, on shard `shardId`. */
  datatype UpdateStmt = UpdateStmt(setMap: map<string, Value>, where: map<string, Value>, shardId: int)
  /** `INSERT IGNORE INTO table (columns) VALUES rows...`, on shard `shardId`. */
  datatype InsertStmt = InsertStmt(columns: string, rows: seq<seq<Value>>, shardId: int)
  /** `INSERT INTO table (columns) VALUES (values) suffix` with the suffix's
      arguments `dupValues`, on shard `shardId`. */
  datatype SaveStmt = SaveStmt(columns: string, values: seq<Value>, suffix: string, dupValues: seq<Value>, shardId: int)

  // ---------------------------------------------------------------------
  // The diff of Update

  /** A field of the snapshot from `i` on carries column `c` (by lower-cased
      field name) with value `v`. */
  predicate Matches(prev: seq<Field>, i: nat, c: string, v: Value) {
    exists j :: i <= j < |prev| && Strings.ToLower(prev[j].name) == c && prev[j].value == v
  }

  /** The columns of `vm` that no snapshot field from `i` on matches. */
  function Kept(vm: map<string, Value>, prev: seq<Field>, i: nat): set<string> {
    set c | c in vm && !Matches(prev, i, c, vm[c])
  }

  /** The diff loop from snapshot field `i` on: a column whose value equals
      the snapshot field's is deleted; `None` when a deletion empties the
      map (Update then returns nil). */
  function Diff(vm: map<string, Value>, prev: seq<Field>, i: nat): Option<map<string, Value>>
    requires i <= |prev|
    decreases |prev| - i
  {
    if i == |prev| then Some(vm)
    else
      var c := Strings.ToLower(prev[i].name);
      if c in vm && vm[c] == prev[i].value then
        var vm1 := vm - {c};
        if |vm1| < 1 then None else Diff(vm1, prev, i + 1)
      else Diff(vm, prev, i + 1)
  }

  /** `Update(holder, prevs...)`: `Done(None)` is the nil return without
      SQL. */
  function UpdateSpec(holder: seq<Field>, prevs: seq<seq<Field>>, conf: TableConf.DbTableConf,
                      seqs: seq<BaseSeq.SeqSteps>, lookup: ShardLookup): Outcome<Option<UpdateStmt>>
    requires |seqs| == |holder|
  {
    if |prevs| > 1 then Fail(TooManyPrevMsg)
    else if |prevs| == 1 && prevs[0] == holder then Done(None)
    else
      var o := TableInfoOf(holder, conf, true, seqs);
      if !o.Done? then Pass(o)
      else
        var d := if |prevs| == 1 then Diff(o.value.valueMap, prevs[0], 0) else Some(o.value.valueMap);
        if d.None? then Done(None)
        else
          var s := ShardIdOf(o.value.shardKey, conf, lookup);
          if s.Err? then Fail(s.error) else Done(Some(UpdateStmt(d.value, o.value.pkMap, s.value)))
  }

  /** The diff loop over the snapshot's fields. */
  method DiffLoop(valueMap: map<string, Value>, prev: seq<Field>) returns (r: Option<map<string, Value>>)
    ensures r == Diff(valueMap, prev, 0)
  {
    var vm := valueMap;
    var i := 0;
    while i < |prev|
      invariant 0 <= i <= |prev|
      invariant Diff(valueMap, prev, 0) == Diff(vm, prev, i)
    {
      var column := Strings.ToLower(prev[i].name);
      if column in vm && vm[column] == prev[i].value {
        vm := vm - {column};
        if |vm| < 1 {
          return None;
        }
      }
      i := i + 1;
    }
    return Some(vm);
  }

  /** `Update`. */
  method Update(holder: seq<Field>, prevs: seq<seq<Field>>, conf: TableConf.DbTableConf,
                seqs: seq<BaseSeq.SeqSteps>, lookup: ShardLookup) returns (r: Outcome<Option<UpdateStmt>>)
    requires |seqs| == |holder|
    ensures r == UpdateSpec(holder, prevs, conf, seqs, lookup)
  {
    if |prevs| > 1 {
      return Fail(TooManyPrevMsg);
    }
    if |prevs| == 1 && prevs[0] == holder {
      return Done(None);
    }
    var o := GetTableInfo(holder, conf, true, seqs);
    if !o.Done? {
      return Pass(o);
    }
    var valueMap := o.value.valueMap;
    if |prevs| == 1 {
      var d := DiffLoop(valueMap, prevs[0]);
      if d.None? {
        return Done(None);
      }
      valueMap := d.value;
    }
    var shardId := ShardIdOf(o.value.shardKey, conf, lookup);
    if shardId.Err? {
      return Fail(shardId.error);
    }
    return Done(Some(UpdateStmt(valueMap, o.value.pkMap, shardId.value)));
  }

  /** The diff keeps exactly the columns no snapshot field matches, with
      their values; it ends the update exactly when the value map was
      non-empty and every column is matched. */
  lemma {:induction false} DiffKept(vm: map<string, Value>, prev: seq<Field>, i: nat)
    requires i <= |prev|
    ensures Diff(vm, prev, i).Some? ==>
              Diff(vm, prev, i).value.Keys == Kept(vm, prev, i) &&
              forall c :: c in Diff(vm, prev, i).value ==> Diff(vm, prev, i).value[c] == vm[c]
    ensures Diff(vm, prev, i).None? <==> |vm| > 0 && Kept(vm, prev, i) == {}
    decreases |prev| - i
  {
    if i == |prev| {
      assert Kept(vm, prev, i) == vm.Keys;
      if |vm| > 0 {
        var c :| c in vm;
        assert c in Kept(vm, prev, i);
      }
    } else {
      var c := Strings.ToLower(prev[i].name);
      if c in vm && vm[c] == prev[i].value {
        var vm1 := vm - {c};
        assert Matches(prev, i, c, vm[c]);
        if |vm1| < 1 {
          assert vm1.Keys == {};
          assert forall x :: x in vm ==> x == c;
        } else {
          DiffKept(vm1, prev, i + 1);
          KeptAfterMatch(vm, prev, i, c);
        }
      } else {
        DiffKept(vm, prev, i + 1);
        KeptAfterMiss(vm, prev, i);
      }
    }
  }

  /** Deleting the matched column at field `i` leaves the kept set. */
  lemma KeptAfterMatch(vm: map<string, Value>, prev: seq<Field>, i: nat, c: string)
    requires i < |prev| && c == Strings.ToLower(prev[i].name) && c in vm && vm[c] == prev[i].value
    ensures Kept(vm - {c}, prev, i + 1) == Kept(vm, prev, i)
  {
    forall x | x in vm && x != c ensures Matches(prev, i + 1, x, vm[x]) <==> Matches(prev, i, x, vm[x]) {
      if Matches(prev, i, x, vm[x]) {
        var j :| i <= j < |prev| && Strings.ToLower(prev[j].name) == x && prev[j].value == vm[x];
        assert j != i;
      }
    }
    assert Matches(prev, i, c, vm[c]);
  }

  /** A field that deletes nothing leaves the kept set. */
  lemma KeptAfterMiss(vm: map<string, Value>, prev: seq<Field>, i: nat)
    requires i < |prev|
    requires !(Strings.ToLower(prev[i].name) in vm && vm[Strings.ToLower(prev[i].name)] == prev[i].value)
    ensures Kept(vm, prev, i + 1) == Kept(vm, prev, i)
  {
    forall x | x in vm ensures Matches(prev, i + 1, x, vm[x]) <==> Matches(prev, i, x, vm[x]) {
      if Matches(prev, i, x, vm[x]) {
        var j :| i <= j < |prev| && Strings.ToLower(prev[j].name) == x && prev[j].value == vm[x];
        assert j != i;
      }
    }
  }

  /** More than one snapshot is refused; a snapshot equal to the record
      ends the update before the table is even read; otherwise the UPDATE
      sets exactly the kept columns (all non-pk columns without a snapshot)
      with the record's values, filters on the pk map, and runs on the
      resolved shard; and nil without SQL means every column matched. */
  lemma UpdateMeaning(holder: seq<Field>, prevs: seq<seq<Field>>, conf: TableConf.DbTableConf,
                      seqs: seq<BaseSeq.SeqSteps>, lookup: ShardLookup)
    requires |seqs| == |holder|
    ensures |prevs| > 1 ==> UpdateSpec(holder, prevs, conf, seqs, lookup) == Fail(TooManyPrevMsg)
    ensures |prevs| == 1 && prevs[0] == holder ==> UpdateSpec(holder, prevs, conf, seqs, lookup) == Done(None)
    ensures UpdateSpec(holder, prevs, conf, seqs, lookup) == Done(None) ==>
              |prevs| == 1 &&
              (prevs[0] == holder ||
               (TableInfoOf(holder, conf, true, seqs).Done? &&
                |TableInfoOf(holder, conf, true, seqs).value.valueMap| > 0 &&
                Kept(TableInfoOf(holder, conf, true, seqs).value.valueMap, prevs[0], 0) == {}))
    ensures UpdateSpec(holder, prevs, conf, seqs, lookup).Done? && UpdateSpec(holder, prevs, conf, seqs, lookup).value.Some? ==>
              var st := UpdateSpec(holder, prevs, conf, seqs, lookup).value.value;
              var t := TableInfoOf(holder, conf, true, seqs).value;
              TableInfoOf(holder, conf, true, seqs).Done? &&
              st.where == t.pkMap && |st.where| >= 1 &&
              ShardIdOf(t.shardKey, conf, lookup) == Ok(st.shardId) &&
              (forall c :: c in st.setMap ==> c in t.valueMap && st.setMap[c] == t.valueMap[c]) &&
              (|prevs| == 0 ==> st.setMap == t.valueMap) &&
              (|prevs| == 1 ==> st.setMap.Keys == Kept(t.valueMap, prevs[0], 0))
  {
    var o := TableInfoOf(holder, conf, true, seqs);
    TableInfoFacts(holder, conf, true, seqs);
    if |prevs| == 1 && prevs[0] != holder && o.Done? {
      DiffKept(o.value.valueMap, prevs[0], 0);
    }
  }

  // ---------------------------------------------------------------------
  // The value lists of Create, CreateMulti and Save

  /** A column's value: the pk map is consulted first. */
  function ColumnValue(t: TableInfo, c: string): Option<Value> {
    if c in t.pkMap then Some(t.pkMap[c]) else if c in t.valueMap then Some(t.valueMap[c]) else None
  }

  /** Every column has a value. */
  predicate Known(t: TableInfo) {
    forall i :: 0 <= i < |t.columns| ==> ColumnValue(t, t.columns[i]).Some?
  }

  /** The values loop: a column in neither map is an error. */
  function ValuesOf(t: TableInfo): Outcome<seq<Value>> {
    if Known(t) then Done(seq(|t.columns|, i requires 0 <= i < |t.columns| && Known(t) => ColumnValue(t, t.columns[i]).value))
    else Fail(UnknownColumnMsg)
  }

  /** Save's update list: the non-pk columns... */
  predicate IsDup(t: TableInfo, c: string) {
    c !in t.pkMap && c in t.valueMap
  }

  /** ... as `column = ?` for the first `k` columns ... */
  function DupCols(t: TableInfo, k: nat): seq<string>
    requires k <= |t.columns|
  {
    if k == 0 then [] else DupCols(t, k - 1) + (if IsDup(t, t.columns[k - 1]) then [t.columns[k - 1] + " = ?"] else [])
  }

  /** ... and their values. */
  function DupValues(t: TableInfo, k: nat): seq<Value>
    requires k <= |t.columns|
  {
    if k == 0 then [] else DupValues(t, k - 1) + (if IsDup(t, t.columns[k - 1]) then [t.valueMap[t.columns[k - 1]]] else [])
  }

  /** `strings.Join([]string{"ON DUPLICATE KEY UPDATE", strings.Join(dupCols, ", ")}, " ")`. */
  function SaveSuffix(dupCols: seq<string>): string {
    Strings.Join([DupPrefix, Strings.Join(dupCols, ", ")], " ")
  }

  /** Save's loop: the values, the update list and its values. */
  function SaveLists(t: TableInfo): Outcome<(seq<Value>, seq<string>, seq<Value>)> {
    var v := ValuesOf(t);
    if !v.Done? then Pass(v) else Done((v.value, DupCols(t, |t.columns|), DupValues(t, |t.columns|)))
  }

  /** The values loop of Create and CreateMulti. */
  method CollectValues(t: TableInfo) returns (r: Outcome<seq<Value>>)
    ensures r == ValuesOf(t)
  {
    var values: seq<Value> := [];
    var i := 0;
    while i < |t.columns|
      invariant 0 <= i <= |t.columns|
      invariant |values| == i
      invariant forall k :: 0 <= k < i ==> ColumnValue(t, t.columns[k]).Some? && values[k] == ColumnValue(t, t.columns[k]).value
    {
      var column := t.columns[i];
      if column in t.pkMap {
        values := values + [t.pkMap[column]];
      } else if column in t.valueMap {
        values := values + [t.valueMap[column]];
      } else {
        assert !Known(t);
        return Fail(UnknownColumnMsg);
      }
      i := i + 1;
    }
    assert Known(t);
    assert values == ValuesOf(t).value;
    return Done(values);
  }

  /** The values loop of Save. */
  method CollectSaveLists(t: TableInfo) returns (r: Outcome<(seq<Value>, seq<string>, seq<Value>)>)
    ensures r == SaveLists(t)
  {
    var values: seq<Value> := [];
    var dupCols: seq<string> := [];
    var dupValues: seq<Value> := [];
    var i := 0;
    while i < |t.columns|
      invariant 0 <= i <= |t.columns|
      invariant |values| == i
      invariant forall k :: 0 <= k < i ==> ColumnValue(t, t.columns[k]).Some? && values[k] == ColumnValue(t, t.columns[k]).value
      invariant dupCols == DupCols(t, i) && dupValues == DupValues(t, i)
    {
      var column := t.columns[i];
      if column in t.pkMap {
        values := values + [t.pkMap[column]];
      } else if column in t.valueMap {
        values := values + [t.valueMap[column]];
        dupCols := dupCols + [column + " = ?"];
        dupValues := dupValues + [t.valueMap[column]];
      } else {
        assert !Known(t);
        return Fail(UnknownColumnMsg);
      }
      i := i + 1;
    }
    assert Known(t);
    assert values == ValuesOf(t).value;
    return Done((values, dupCols, dupValues));
  }

  /** A derived table info always has a value for every column, so the
      unknown-column error cannot be reached; the values follow the
      columns. */
  lemma ValuesKnown(t: TableInfo)
    requires Covers(t)
    ensures ValuesOf(t).Done?
    ensures |ValuesOf(t).value| == |t.columns|
    ensures forall i :: 0 <= i < |t.columns| ==>
              ValuesOf(t).value[i] == (if t.columns[i] in t.pkMap then t.pkMap[t.columns[i]] else t.valueMap[t.columns[i]])
  {
    forall i | 0 <= i < |t.columns| ensures ColumnValue(t, t.columns[i]).Some? {
      assert t.columns[i] in t.columns;
    }
  }

  /** The update list and its values have the same length, and with no `?`
      in any column the list holds exactly one placeholder per value. */
  lemma {:induction false} DupCounts(t: TableInfo, k: nat)
    requires k <= |t.columns|
    requires forall i, p :: 0 <= i < |t.columns| && 0 <= p < |t.columns[i]| ==> t.columns[i][p] != '?'
    ensures |DupCols(t, k)| == |DupValues(t, k)|
    ensures BaseCondition.SumQ(DupCols(t, k)) == |DupValues(t, k)|
    decreases k
  {
    if k > 0 {
      DupCounts(t, k - 1);
      var c := t.columns[k - 1];
      if IsDup(t, c) {
        BaseCondition.SumQAppend(DupCols(t, k - 1), [c + " = ?"]);
        BaseCondition.NoQ(c);
        BaseCondition.NoQ(" = ");
        assert c + " = ?" == (c + " = ") + "?";
        Weights.CountAppend(c, " = ", '?');
        Weights.CountAppend(c + " = ", "?", '?');
        assert Weights.Count("?", '?') == 1 by {
          assert "?"[..0] == "";
        }
        assert BaseCondition.SumQ([c + " = ?"]) == BaseCondition.QCount(c + " = ?") + BaseCondition.SumQ([]);
      } else {
        assert DupCols(t, k) == DupCols(t, k - 1);
      }
    }
  }

  /** The ON DUPLICATE KEY UPDATE suffix carries one placeholder per
      argument passed with it. */
  lemma SavePlaceholders(t: TableInfo)
    requires forall i, p :: 0 <= i < |t.columns| && 0 <= p < |t.columns[i]| ==> t.columns[i][p] != '?'
    ensures BaseCondition.QCount(SaveSuffix(DupCols(t, |t.columns|))) == |DupValues(t, |t.columns|)|
  {
    var dc := DupCols(t, |t.columns|);
    DupCounts(t, |t.columns|);
    BaseCondition.NoQ(", ");
    BaseCondition.NoQ(" ");
    BaseCondition.NoQ(DupPrefix);
    BaseCondition.JoinCount(dc, ", ");
    BaseCondition.JoinCount([DupPrefix, Strings.Join(dc, ", ")], " ");
    var parts := [DupPrefix, Strings.Join(dc, ", ")];
    assert parts[1..] == [Strings.Join(dc, ", ")];
    assert parts[1..][1..] == [];
    assert BaseCondition.SumQ(parts) == BaseCondition.QCount(DupPrefix) + BaseCondition.SumQ(parts[1..]);
    assert BaseCondition.SumQ(parts[1..]) == BaseCondition.QCount(Strings.Join(dc, ", ")) + BaseCondition.SumQ([]);
  }

  // ---------------------------------------------------------------------
  // Create, CreateMulti and Save

  /** `Create(holder)`: derivation, shard id, values. */
  function CreateSpec(holder: seq<Field>, conf: TableConf.DbTableConf, seqs: seq<BaseSeq.SeqSteps>, lookup: ShardLookup): Outcome<InsertStmt>
    requires |seqs| == |holder|
  {
    var o := TableInfoOf(holder, conf, true, seqs);
    if !o.Done? then Pass(o)
    else
      var s := ShardIdOf(o.value.shardKey, conf, lookup);
      if s.Err? then Fail(s.error)
      else
        var v := ValuesOf(o.value);
        if !v.Done? then Pass(v) else Done(InsertStmt(Strings.Join(o.value.columns, ","), [v.value], s.value))
  }

  method Create(holder: seq<Field>, conf: TableConf.DbTableConf, seqs: seq<BaseSeq.SeqSteps>, lookup: ShardLookup)
    returns (r: Outcome<InsertStmt>)
    requires |seqs| == |holder|
    ensures r == CreateSpec(holder, conf, seqs, lookup)
  {
    var o := GetTableInfo(holder, conf, true, seqs);
    if !o.Done? {
      return Pass(o);
    }
    var shardId := ShardIdOf(o.value.shardKey, conf, lookup);
    if shardId.Err? {
      return Fail(shardId.error);
    }
    var values := CollectValues(o.value);
    if !values.Done? {
      return Pass(values);
    }
    return Done(InsertStmt(Strings.Join(o.value.columns, ","), [values.value], shardId.value));
  }

  /** Create inserts one row holding every derived column's value, on the
      shard the record's shard key resolves to: it fails exactly when the
      derivation or the shard lookup fails. */
  lemma CreateMeaning(holder: seq<Field>, conf: TableConf.DbTableConf, seqs: seq<BaseSeq.SeqSteps>, lookup: ShardLookup)
    requires |seqs| == |holder|
    ensures var o := TableInfoOf(holder, conf, true, seqs);
            CreateSpec(holder, conf, seqs, lookup).Done? <==> o.Done? && ShardIdOf(o.value.shardKey, conf, lookup).Ok?
    ensures CreateSpec(holder, conf, seqs, lookup).Done? ==>
              var t := TableInfoOf(holder, conf, true, seqs).value;
              var st := CreateSpec(holder, conf, seqs, lookup).value;
              st.columns == Strings.Join(t.columns, ",") && |st.rows| == 1 && |st.rows[0]| == |t.columns| &&
              st.rows[0] == ValuesOf(t).value && Ok(st.shardId) == ShardIdOf(t.shardKey, conf, lookup)
  {
    var o := TableInfoOf(holder, conf, true, seqs);
    TableInfoFacts(holder, conf, true, seqs);
    if o.Done? {
      ValuesKnown(o.value);
    }
  }

  /** One holder's part of CreateMulti's loop: its columns, its values and
      its shard id (derivation, then values, then shard id). */
  datatype Row = Row(columns: seq<string>, values: seq<Value>, shardId: int)

  function HolderRow(holder: seq<Field>, conf: TableConf.DbTableConf, seqs: seq<BaseSeq.SeqSteps>, lookup: ShardLookup): Outcome<Row>
    requires |seqs| == |holder|
  {
    var o := TableInfoOf(holder, conf, true, seqs);
    if !o.Done? then Pass(o)
    else
      var v := ValuesOf(o.value);
      if !v.Done? then Pass(v)
      else
        var s := ShardIdOf(o.value.shardKey, conf, lookup);
        if s.Err? then Fail(s.error) else Done(Row(o.value.columns, v.value, s.value))
  }

  /** Each holder comes with the sequence statements of each of its fields. */
  predicate SeqsFit(holders: seq<seq<Field>>, seqs: seq<seq<BaseSeq.SeqSteps>>) {
    |seqs| == |holders| && forall i :: 0 <= i < |holders| ==> |seqs[i]| == |holders[i]|
  }

  /** The holders' rows, one per holder. */
  function Rows(holders: seq<seq<Field>>, conf: TableConf.DbTableConf, seqs: seq<seq<BaseSeq.SeqSteps>>, lookup: ShardLookup): (r: seq<Outcome<Row>>)
    requires SeqsFit(holders, seqs)
    ensures |r| == |holders|
    ensures forall k :: 0 <= k < |holders| ==> r[k] == HolderRow(holders[k], conf, seqs[k], lookup)
  {
    seq(|holders|, k requires 0 <= k < |holders| => HolderRow(holders[k], conf, seqs[k], lookup))
  }

  /** The loop's accumulators: the column list (from the first holder with
      one), the rows, the shard ids seen (`shardIdMap`) and the last one. */
  datatype Multi = Multi(columnStr: string, allValues: seq<seq<Value>>, shardIds: set<int>, shardId: int)

  const NoMulti: Multi := Multi("", [], {}, 0)

  /** One iteration of the holder loop. */
  function MultiStep(m: Multi, row: Row): Multi {
    Multi(if |m.columnStr| < 1 then Strings.Join(row.columns, ",") else m.columnStr,
          m.allValues + [row.values], m.shardIds + {row.shardId}, row.shardId)
  }

  /** The holder loop from holder `i` on, given each holder's row: the
      first failing row ends it. */
  function MultiFrom(rows: seq<Outcome<Row>>, m: Multi, i: nat): Outcome<Multi>
    requires i <= |rows|
    decreases |rows| - i
  {
    if i == |rows| then Done(m)
    else if !rows[i].Done? then Pass(rows[i])
    else MultiFrom(rows, MultiStep(m, rows[i].value), i + 1)
  }

  /** `CreateMulti(holders)`. */
  function CreateMultiSpec(holders: seq<seq<Field>>, conf: TableConf.DbTableConf, seqs: seq<seq<BaseSeq.SeqSteps>>,
                           lookup: ShardLookup): Outcome<InsertStmt>
    requires SeqsFit(holders, seqs)
  {
    if |holders| < 1 then Fail(EmptyHoldersMsg) else MultiOutcome(Rows(holders, conf, seqs, lookup))
  }

  /** The holder loop over `rows`, then the single-shard check. */
  function MultiOutcome(rows: seq<Outcome<Row>>): Outcome<InsertStmt> {
    var o := MultiFrom(rows, NoMulti, 0);
    if !o.Done? then Pass(o)
    else if |o.value.shardIds| != 1 then Fail(MultiShardMsg)
    else Done(InsertStmt(o.value.columnStr, o.value.allValues, o.value.shardId))
  }

  /** The holder loop's body. */
  method RowOf(holder: seq<Field>, conf: TableConf.DbTableConf, seqs: seq<BaseSeq.SeqSteps>, lookup: ShardLookup)
    returns (r: Outcome<Row>)
    requires |seqs| == |holder|
    ensures r == HolderRow(holder, conf, seqs, lookup)
  {
    var o := GetTableInfo(holder, conf, true, seqs);
    if !o.Done? {
      return Pass(o);
    }
    var values := CollectValues(o.value);
    if !values.Done? {
      return Pass(values);
    }
    var shardId := ShardIdOf(o.value.shardKey, conf, lookup);
    if shardId.Err? {
      return Fail(shardId.error);
    }
    return Done(Row(o.value.columns, values.value, shardId.value));
  }

  method CreateMulti(holders: seq<seq<Field>>, conf: TableConf.DbTableConf, seqs: seq<seq<BaseSeq.SeqSteps>>, lookup: ShardLookup)
    returns (r: Outcome<InsertStmt>)
    requires SeqsFit(holders, seqs)
    ensures r == CreateMultiSpec(holders, conf, seqs, lookup)
  {
    if |holders| < 1 {
      return Fail(EmptyHoldersMsg);
    }
    ghost var rows := Rows(holders, conf, seqs, lookup);
    var shardIdMap: set<int> := {};
    var shardId := 0;
    var allValues: seq<seq<Value>> := [];
    var columnStr := "";
    var i := 0;
    while i < |holders|
      invariant 0 <= i <= |holders|
      invariant MultiFrom(rows, NoMulti, 0) == MultiFrom(rows, Multi(columnStr, allValues, shardIdMap, shardId), i)
    {
      var row := RowOf(holders[i], conf, seqs[i], lookup);
      assert row == rows[i];
      if !row.Done? {
        return Pass(row);
      }
      allValues := allValues + [row.value.values];
      shardId := row.value.shardId;
      shardIdMap := shardIdMap + {shardId};
      if |columnStr| < 1 {
        columnStr := Strings.Join(row.value.columns, ",");
      }
      i := i + 1;
    }
    if |shardIdMap| != 1 {
      return Fail(MultiShardMsg);
    }
    return Done(InsertStmt(columnStr, allValues, shardId));
  }

  /** The rows the holder loop collects from holder `i` on, in order. */
  lemma {:induction false} MultiRows(rows: seq<Outcome<Row>>, m: Multi, i: nat)
    requires i <= |rows| && MultiFrom(rows, m, i).Done?
    ensures |MultiFrom(rows, m, i).value.allValues| == |m.allValues| + |rows| - i
    ensures MultiFrom(rows, m, i).value.allValues[..|m.allValues|] == m.allValues
    ensures forall k :: i <= k < |rows| ==>
              rows[k].Done? && MultiFrom(rows, m, i).value.allValues[|m.allValues| + k - i] == rows[k].value.values
    decreases |rows| - i
  {
    if i < |rows| {
      var m1 := MultiStep(m, rows[i].value);
      MultiRows(rows, m1, i + 1);
      var all := MultiFrom(rows, m1, i + 1).value.allValues;
      assert all[..|m.allValues|] == all[..|m1.allValues|][..|m.allValues|];
      assert all[|m.allValues|] == m1.allValues[|m.allValues|];
    }
  }

  /** Every holder's shard id from `i` on is recorded, and the last
      holder's is the loop's final shard id. */
  lemma {:induction false} MultiShardIds(rows: seq<Outcome<Row>>, m: Multi, i: nat)
    requires i <= |rows| && MultiFrom(rows, m, i).Done?
    ensures m.shardIds <= MultiFrom(rows, m, i).value.shardIds
    ensures forall k :: i <= k < |rows| ==> rows[k].Done? && rows[k].value.shardId in MultiFrom(rows, m, i).value.shardIds
    ensures i < |rows| ==> rows[|rows| - 1].Done? && MultiFrom(rows, m, i).value.shardId == rows[|rows| - 1].value.shardId
    decreases |rows| - i
  {
    if i < |rows| {
      MultiShardIds(rows, MultiStep(m, rows[i].value), i + 1);
    }
  }

  /** When every holder resolves `x`, the loop records no other shard id. */
  lemma {:induction false} MultiShardIdsOnly(rows: seq<Outcome<Row>>, m: Multi, i: nat, x: int)
    requires i <= |rows| && MultiFrom(rows, m, i).Done?
    requires forall k :: i <= k < |rows| && rows[k].Done? ==> rows[k].value.shardId == x
    requires m.shardIds <= {x}
    ensures MultiFrom(rows, m, i).value.shardIds <= {x}
    decreases |rows| - i
  {
    if i < |rows| {
      MultiShardIdsOnly(rows, MultiStep(m, rows[i].value), i + 1, x);
    }
  }

  /** When every row succeeds, the loop does. */
  lemma {:induction false} MultiAllDone(rows: seq<Outcome<Row>>, m: Multi, i: nat)
    requires i <= |rows|
    requires forall k :: i <= k < |rows| ==> rows[k].Done?
    ensures MultiFrom(rows, m, i).Done?
    decreases |rows| - i
  {
    if i < |rows| {
      MultiAllDone(rows, MultiStep(m, rows[i].value), i + 1);
    }
  }

  lemma SubsetSize(a: set<int>, b: set<int>)
    requires a <= b
    ensures |a| <= |b|
  {
    assert b == a + (b - a);
  }

  lemma Singleton(s: set<int>, x: int)
    requires |s| == 1 && x in s
    ensures s == {x}
  {
    var rest := s - {x};
    assert s == rest + {x} && x !in rest;
    assert |rest| == 0;
    assert rest == {};
  }

  /** A successful loop and check insert one row per input row, in order,
      and every row resolved the statement's shard id. */
  lemma MultiOutcomeRows(rows: seq<Outcome<Row>>)
    requires |rows| >= 1
    ensures MultiOutcome(rows).Done? ==>
              var st := MultiOutcome(rows).value;
              |st.rows| == |rows| &&
              forall k :: 0 <= k < |rows| ==> rows[k].Done? && st.rows[k] == rows[k].value.values && rows[k].value.shardId == st.shardId
  {
    if MultiFrom(rows, NoMulti, 0).Done? {
      var m2 := MultiFrom(rows, NoMulti, 0).value;
      if |m2.shardIds| == 1 {
        MultiRows(rows, NoMulti, 0);
        MultiShardIds(rows, NoMulti, 0);
        Singleton(m2.shardIds, m2.shardId);
        assert MultiOutcome(rows) == Done(InsertStmt(m2.columnStr, m2.allValues, m2.shardId));
        forall k | 0 <= k < |rows|
          ensures rows[k].Done? && m2.allValues[k] == rows[k].value.values && rows[k].value.shardId == m2.shardId
        {
          assert rows[k].value.shardId in m2.shardIds;
        }
      }
    }
  }

  /** CreateMulti refuses an empty slice; when it succeeds, it inserts one
      row per holder, in order, and every holder resolved to the one shard
      id the statement runs on. */
  lemma CreateMultiSingleShard(holders: seq<seq<Field>>, conf: TableConf.DbTableConf, seqs: seq<seq<BaseSeq.SeqSteps>>, lookup: ShardLookup)
    requires SeqsFit(holders, seqs)
    ensures |holders| == 0 ==> CreateMultiSpec(holders, conf, seqs, lookup) == Fail(EmptyHoldersMsg)
    ensures CreateMultiSpec(holders, conf, seqs, lookup).Done? ==>
              var st := CreateMultiSpec(holders, conf, seqs, lookup).value;
              var rows := Rows(holders, conf, seqs, lookup);
              |st.rows| == |holders| &&
              forall k :: 0 <= k < |holders| ==>
                rows[k].Done? && st.rows[k] == rows[k].value.values && rows[k].value.shardId == st.shardId
  {
    if |holders| > 0 {
      MultiOutcomeRows(Rows(holders, conf, seqs, lookup));
    }
  }

  /** The single-shard rule on the rows: with every row present, one
      common shard id gives exactly that id, and two different ones give
      more than one. */
  lemma MultiShardRule(rows: seq<Outcome<Row>>, x: int)
    requires |rows| >= 1 && forall k :: 0 <= k < |rows| ==> rows[k].Done?
    ensures MultiFrom(rows, NoMulti, 0).Done?
    ensures (forall k :: 0 <= k < |rows| ==> rows[k].value.shardId == x) ==>
              MultiFrom(rows, NoMulti, 0).value.shardIds == {x} && MultiFrom(rows, NoMulti, 0).value.shardId == x
    ensures forall a, b :: 0 <= a < b < |rows| && rows[a].value.shardId != rows[b].value.shardId ==>
              |MultiFrom(rows, NoMulti, 0).value.shardIds| != 1
  {
    MultiAllDone(rows, NoMulti, 0);
    MultiShardIds(rows, NoMulti, 0);
    var m2 := MultiFrom(rows, NoMulti, 0).value;
    if forall k :: 0 <= k < |rows| ==> rows[k].value.shardId == x {
      MultiShardIdsOnly(rows, NoMulti, 0, x);
      assert x in m2.shardIds;
    }
    forall a, b | 0 <= a < b < |rows| && rows[a].value.shardId != rows[b].value.shardId
      ensures |m2.shardIds| != 1
    {
      SubsetSize({rows[a].value.shardId, rows[b].value.shardId}, m2.shardIds);
    }
  }

  /** When every holder's row succeeds and all resolve the same shard id
      (as on a master table, where every id is 0), CreateMulti succeeds on
      that shard; two holders resolving different ids make it fail with the
      multi-shard error. */
  lemma CreateMultiShardRule(holders: seq<seq<Field>>, conf: TableConf.DbTableConf, seqs: seq<seq<BaseSeq.SeqSteps>>,
                             lookup: ShardLookup, x: int)
    requires SeqsFit(holders, seqs) && |holders| >= 1
    requires forall k :: 0 <= k < |holders| ==> HolderRow(holders[k], conf, seqs[k], lookup).Done?
    ensures var rows := Rows(holders, conf, seqs, lookup);
            (forall k :: 0 <= k < |holders| ==> rows[k].value.shardId == x) ==>
              CreateMultiSpec(holders, conf, seqs, lookup).Done? && CreateMultiSpec(holders, conf, seqs, lookup).value.shardId == x
    ensures var rows := Rows(holders, conf, seqs, lookup);
            (exists a, b :: 0 <= a < b < |holders| && rows[a].value.shardId != rows[b].value.shardId) ==>
              CreateMultiSpec(holders, conf, seqs, lookup) == Fail(MultiShardMsg)
  {
    MultiShardRule(Rows(holders, conf, seqs, lookup), x);
  }

  /** CreateMulti of a single record inserts what Create inserts. */
  lemma CreateMultiOne(holder: seq<Field>, conf: TableConf.DbTableConf, hseqs: seq<BaseSeq.SeqSteps>, lookup: ShardLookup)
    requires |hseqs| == |holder|
    ensures CreateMultiSpec([holder], conf, [hseqs], lookup) == CreateSpec(holder, conf, hseqs, lookup)
  {
    var rows := Rows([holder], conf, [hseqs], lookup);
    assert rows == [HolderRow(holder, conf, hseqs, lookup)];
    var o := TableInfoOf(holder, conf, true, hseqs);
    TableInfoFacts(holder, conf, true, hseqs);
    if o.Done? {
      ValuesKnown(o.value);
      var s := ShardIdOf(o.value.shardKey, conf, lookup);
      if s.Ok? {
        var row := Row(o.value.columns, ValuesOf(o.value).value, s.value);
        assert rows[0] == Done(row);
        var m1 := MultiStep(NoMulti, row);
        assert m1.allValues == [ValuesOf(o.value).value];
        assert m1.columnStr == Strings.Join(o.value.columns, ",");
        assert MultiFrom(rows, m1, 1) == Done(m1);
        assert MultiFrom(rows, NoMulti, 0) == Done(m1);
        assert m1.shardIds == {s.value};
      }
    }
  }

  /** `Save(holder)`: derivation, shard id, then the lists. */
  function SaveSpec(holder: seq<Field>, conf: TableConf.DbTableConf, seqs: seq<BaseSeq.SeqSteps>, lookup: ShardLookup): Outcome<SaveStmt>
    requires |seqs| == |holder|
  {
    var o := TableInfoOf(holder, conf, true, seqs);
    if !o.Done? then Pass(o)
    else
      var s := ShardIdOf(o.value.shardKey, conf, lookup);
      if s.Err? then Fail(s.error)
      else
        var l := SaveLists(o.value);
        if !l.Done? then Pass(l)
        else Done(SaveStmt(Strings.Join(o.value.columns, ","), l.value.0, SaveSuffix(l.value.1), l.value.2, s.value))
  }

  method Save(holder: seq<Field>, conf: TableConf.DbTableConf, seqs: seq<BaseSeq.SeqSteps>, lookup: ShardLookup)
    returns (r: Outcome<SaveStmt>)
    requires |seqs| == |holder|
    ensures r == SaveSpec(holder, conf, seqs, lookup)
  {
    var o := GetTableInfo(holder, conf, true, seqs);
    if !o.Done? {
      return Pass(o);
    }
    var shardId := ShardIdOf(o.value.shardKey, conf, lookup);
    if shardId.Err? {
      return Fail(shardId.error);
    }
    var lists := CollectSaveLists(o.value);
    if !lists.Done? {
      return Pass(lists);
    }
    var dupStr := Strings.Join(lists.value.1, ", ");
    var suffix := Strings.Join([DupPrefix, dupStr], " ");
    return Done(SaveStmt(Strings.Join(o.value.columns, ","), lists.value.0, suffix, lists.value.2, shardId.value));
  }

  /** Save inserts the same values as Create and, with no `?` in a column
      name, its suffix has one placeholder per non-pk value passed with it;
      it fails exactly when the derivation or the shard lookup fails. */
  lemma SaveMeaning(holder: seq<Field>, conf: TableConf.DbTableConf, seqs: seq<BaseSeq.SeqSteps>, lookup: ShardLookup)
    requires |seqs| == |holder|
    ensures SaveSpec(holder, conf, seqs, lookup).Done? <==> CreateSpec(holder, conf, seqs, lookup).Done?
    ensures SaveSpec(holder, conf, seqs, lookup).Done? ==>
              var st := SaveSpec(holder, conf, seqs, lookup).value;
              var ins := CreateSpec(holder, conf, seqs, lookup).value;
              st.columns == ins.columns && [st.values] == ins.rows && st.shardId == ins.shardId &&
              (var cols := TableInfoOf(holder, conf, true, seqs).value.columns;
               (forall i, p :: 0 <= i < |cols| && 0 <= p < |cols[i]| ==> cols[i][p] != '?') ==>
                 BaseCondition.QCount(st.suffix) == |st.dupValues|)
  {
    var o := TableInfoOf(holder, conf, true, seqs);
    TableInfoFacts(holder, conf, true, seqs);
    if o.Done? {
      ValuesKnown(o.value);
      var cols := o.value.columns;
      if forall i, p :: 0 <= i < |cols| && 0 <= p < |cols[i]| ==> cols[i][p] != '?' {
        SavePlaceholders(o.value);
      }
    }
  }
}
