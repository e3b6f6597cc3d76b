/** `optionCheck` of src/sample/model/base.go: the variadic options of
    Find, Finds, Update and Count resolved to a mode, a FOR UPDATE flag, a
    shard key and a shard id. Go's map iteration order is the parameter
    `order`; the outcome on success is shown not to depend on it. */
module BaseOption {
  import opened Wrappers
  import opened GoValues
  import opened TxContext

  const ModeKey: string := "mode"
  const ForUpdateKey: string := "for_update"
  const ShardKeyKey: string := "shard_key"
  const ShardIdKey: string := "shard_id"

  const NotOptionMsg: string := "can not check this type!!"
  const InvalidModeMsg: string := "invalid mode!!"
  const NotIntegerMsg: string := "type not integer!!"
  const ShardIdRangeMsg: string := "over shard id range!!"
  const InvalidKeyMsg: string := "invalid key!!"
  const KeyAndIdMsg: string := "can't set shardKey and shardId in optionMap!!"

  /** The resolved options. A nil shard key is `Nil`, an unset shard id 0. */
  datatype Options = Options(mode: string, forUpdate: bool, shardKey: Value, shardId: int)

  /** `shard_id` is checked against the fixed range 1..2. */
  const MinShardId: int := 1
  const MaxShardId: int := 2

  // ---------------------------------------------------------------------
  // The options loop

  /** The map of the last argument, when it is an `Option`. */
  function LastMap(options: seq<Value>): map<string, Value> {
    if options != [] && options[|options| - 1].OptionMap? then options[|options| - 1].entries else map[]
  }

  /** The options loop: every argument must be an `Option`; the last one is
      kept. With no argument the map is empty (a nil Go map). */
  function OptionMapOf(options: seq<Value>): (r: Outcome<map<string, Value>>)
    ensures r.Done? <==> forall i :: 0 <= i < |options| ==> options[i].OptionMap?
    ensures r.Done? ==> r.value == LastMap(options)
    ensures !r.Done? ==> r == Fail(NotOptionMsg)
    decreases |options|
  {
    if options == [] then Done(map[])
    else
      var init := options[..|options| - 1];
      var prev := OptionMapOf(init);
      var v := options[|options| - 1];
      assert forall i :: 0 <= i < |init| ==> init[i] == options[i];
      if !prev.Done? then prev
      else if v.OptionMap? then Done(v.entries)
      else Fail(NotOptionMsg)
  }

  // ---------------------------------------------------------------------
  // The map loop

  /** What the map loop holds between keys. */
  datatype OptState = OptState(mode: string, forUpdate: bool, shardKey: Value, shardId: int, err: Option<string>)

  const NoOptions: OptState := OptState(ModeR, false, Nil, 0, None)

  /** The key does not end the loop. */
  predicate StepOk(k: string, v: Value) {
    (k == ModeKey ==> v.Str?) &&
    (k == ShardIdKey ==> v.Int? && MinShardId <= v.i <= MaxShardId)
  }

  /** The key records no error. */
  predicate StepClean(k: string, v: Value) {
    (k == ModeKey || k == ForUpdateKey || k == ShardKeyKey || k == ShardIdKey) &&
    (k == ModeKey && v.Str? ==> v.s == ModeW || v.s == ModeR || v.s == ModeBak)
  }

  /** One key of the map: an unknown key or an unknown mode records an error
      and the loop goes on; a non-string mode panics; a bad shard id ends
      the loop with its error. */
  function OptStep(st: OptState, k: string, v: Value): Outcome<OptState> {
    if k == ModeKey then
      if !v.Str? then Panic
      else if v.s == ModeW || v.s == ModeR || v.s == ModeBak then Done(st.(mode := v.s))
      else Done(st.(err := Some(InvalidModeMsg)))
    else if k == ForUpdateKey then Done(st.(forUpdate := true))
    else if k == ShardKeyKey then Done(st.(shardKey := v))
    else if k == ShardIdKey then
      if !v.Int? then Fail(NotIntegerMsg)
      else if v.i < MinShardId || v.i > MaxShardId then Fail(ShardIdRangeMsg)
      else Done(st.(shardId := v.i))
    else Done(st.(err := Some(InvalidKeyMsg)))
  }

  /** Each key sets its own field alone; an unknown key or mode records its
      error. */
  lemma OptStepFields(st: OptState, k: string, v: Value)
    ensures OptStep(st, k, v).Done? <==> StepOk(k, v)
    ensures OptStep(st, k, v).Done? ==> OptStep(st, k, v).value.forUpdate == (st.forUpdate || k == ForUpdateKey)
    ensures OptStep(st, k, v).Done? ==> OptStep(st, k, v).value.shardKey == if k == ShardKeyKey then v else st.shardKey
    ensures OptStep(st, k, v).Done? ==> OptStep(st, k, v).value.shardId == if k == ShardIdKey then v.i else st.shardId
    ensures OptStep(st, k, v).Done? ==> OptStep(st, k, v).value.mode == if k == ModeKey && StepClean(k, v) then v.s else st.mode
    ensures OptStep(st, k, v).Done? ==> (OptStep(st, k, v).value.err.Some? <==> st.err.Some? || !StepClean(k, v))
    ensures OptStep(st, k, v).Done? && !StepClean(k, v) ==> OptStep(st, k, v).value.err == Some(if k == ModeKey then InvalidModeMsg else InvalidKeyMsg)
    ensures OptStep(st, k, v).Done? && StepClean(k, v) ==> OptStep(st, k, v).value.err == st.err
  {
  }

  /** The map loop over the first `n` keys in iteration order. */
  function OptFold(m: map<string, Value>, order: seq<string>, n: nat): Outcome<OptState>
    requires n <= |order| && forall k :: k in order ==> k in m
  {
    if n == 0 then Done(NoOptions)
    else
      var prev := OptFold(m, order, n - 1);
      if prev.Done? then OptStep(prev.value, order[n - 1], m[order[n - 1]]) else prev
  }

  /** After the loop: a shard key together with a shard id is an error, then
      a recorded error is returned; FOR UPDATE forces the write mode. */
  function OptFinish(st: OptState): Outcome<Options> {
    if st.shardKey != Nil && st.shardId > 0 then Fail(KeyAndIdMsg)
    else if st.err.Some? then Fail(st.err.value)
    else Done(Options(if st.forUpdate then ModeW else st.mode, st.forUpdate, st.shardKey, st.shardId))
  }

  /** `optionCheck` for one iteration order of the last option map. */
  function OptionCheck(options: seq<Value>, order: seq<string>): Outcome<Options>
    requires IsKeyOrder(order, LastMap(options).Keys)
  {
    match OptionMapOf(options)
    case Done(m) =>
      var o := OptFold(m, order, |order|);
      if o.Done? then OptFinish(o.value) else if o.Fail? then Fail(o.msg) else Panic
    case Fail(msg) => Fail(msg)
    case Panic => Panic
  }

  // ---------------------------------------------------------------------
  // Reference definition: what an accepted option map means

  /** An option map `optionCheck` accepts. */
  predicate ValidOptionMap(m: map<string, Value>) {
    (forall k :: k in m ==> StepOk(k, m[k]) && StepClean(k, m[k])) &&
    !(ShardKeyKey in m && m[ShardKeyKey] != Nil && ShardIdKey in m)
  }

  /** The options an accepted map stands for. */
  function Resolved(m: map<string, Value>): Options
    requires ValidOptionMap(m)
  {
    Options(if ForUpdateKey in m then ModeW else if ModeKey in m then m[ModeKey].s else ModeR,
            ForUpdateKey in m,
            if ShardKeyKey in m then m[ShardKeyKey] else Nil,
            if ShardIdKey in m then m[ShardIdKey].i else 0)
  }

  // ---------------------------------------------------------------------
  // Lemmas

  lemma OptFoldNext(m: map<string, Value>, order: seq<string>, n: nat)
    requires n < |order| && forall k :: k in order ==> k in m
    requires OptFold(m, order, n).Done?
    ensures OptFold(m, order, n + 1) == OptStep(OptFold(m, order, n).value, order[n], m[order[n]])
  {
  }

  lemma {:induction false} OptFoldStop(m: map<string, Value>, order: seq<string>, k: nat, n: nat)
    requires k <= n <= |order| && forall x :: x in order ==> x in m
    requires !OptFold(m, order, k).Done?
    ensures OptFold(m, order, n) == OptFold(m, order, k)
    decreases n - k
  {
    if n > k {
      OptFoldStop(m, order, k, n - 1);
    }
  }

  lemma InPrefixStep(order: seq<string>, n: nat, x: string)
    requires n < |order|
    ensures x in order[..n + 1] <==> x in order[..n] || x == order[n]
  {
    assert order[..n + 1] == order[..n] + [order[n]];
  }

  /** The map loop runs to the end exactly when no key ends it. */
  lemma {:induction false} OptFoldDone(m: map<string, Value>, order: seq<string>, n: nat)
    requires n <= |order| && forall k :: k in order ==> k in m
    ensures OptFold(m, order, n).Done? <==> forall j :: 0 <= j < n ==> StepOk(order[j], m[order[j]])
  {
    if n > 0 {
      OptFoldDone(m, order, n - 1);
      if OptFold(m, order, n - 1).Done? {
        OptFoldNext(m, order, n - 1);
      }
    }
  }

  /** Some key among `seen` is unknown or names an unknown mode. */
  function Dirty(m: map<string, Value>, seen: seq<string>): bool
    requires forall k :: k in seen ==> k in m
    decreases |seen|
  {
    seen != [] && (Dirty(m, seen[..|seen| - 1]) || !StepClean(seen[|seen| - 1], m[seen[|seen| - 1]]))
  }

  lemma {:induction false} DirtyIff(m: map<string, Value>, seen: seq<string>)
    requires forall k :: k in seen ==> k in m
    ensures Dirty(m, seen) <==> exists j :: 0 <= j < |seen| && !StepClean(seen[j], m[seen[j]])
    decreases |seen|
  {
    if seen != [] {
      var n := |seen| - 1;
      var init := seen[..n];
      DirtyIff(m, init);
      assert forall j :: 0 <= j < n ==> init[j] == seen[j];
      if Dirty(m, seen) && !Dirty(m, init) {
        assert !StepClean(seen[n], m[seen[n]]);
      }
    }
  }

  /** The state after the keys `seen`, when the loop got that far: each
      field is set by its own key alone, and an error is recorded exactly
      when some key seen is unknown or names an unknown mode. */
  predicate StateAfter(m: map<string, Value>, seen: seq<string>, st: OptState)
    requires forall k :: k in seen ==> k in m
  {
    st.forUpdate == (ForUpdateKey in seen) &&
    st.shardKey == (if ShardKeyKey in seen then m[ShardKeyKey] else Nil) &&
    st.shardId == (if ShardIdKey in seen && m[ShardIdKey].Int? then m[ShardIdKey].i else 0) &&
    st.mode == (if ModeKey in seen && m[ModeKey].Str? && StepClean(ModeKey, m[ModeKey]) then m[ModeKey].s else ModeR) &&
    (st.err.Some? <==> Dirty(m, seen)) &&
    (st.err.Some? ==> st.err.value == InvalidModeMsg || st.err.value == InvalidKeyMsg)
  }

  lemma KeysDistinct()
    ensures ModeKey != ForUpdateKey && ModeKey != ShardKeyKey && ModeKey != ShardIdKey
    ensures ForUpdateKey != ShardKeyKey && ForUpdateKey != ShardIdKey && ShardKeyKey != ShardIdKey
  {
    assert ModeKey[0] == 'm' && ForUpdateKey[0] == 'f' && ShardKeyKey[0] == 's' && ShardIdKey[0] == 's';
    assert ShardKeyKey[6] == 'k' && ShardIdKey[6] == 'i';
  }

  lemma StateAfterStep(m: map<string, Value>, seen: seq<string>, k: string, st: OptState, st1: OptState)
    requires k in m && forall x :: x in seen ==> x in m
    requires StateAfter(m, seen, st)
    requires OptStep(st, k, m[k]) == Done(st1)
    ensures StateAfter(m, seen + [k], st1)
  {
    KeysDistinct();
    OptStepFields(st, k, m[k]);
    var seen1 := seen + [k];
    assert seen1[..|seen|] == seen;
    assert Dirty(m, seen1) == (Dirty(m, seen) || !StepClean(k, m[k]));
  }

  lemma {:induction false} OptFoldState(m: map<string, Value>, order: seq<string>, n: nat)
    requires n <= |order| && forall k :: k in order ==> k in m
    requires OptFold(m, order, n).Done?
    ensures StateAfter(m, order[..n], OptFold(m, order, n).value)
  {
    if n == 0 {
      assert order[..0] == [];
    } else {
      var prev := OptFold(m, order, n - 1);
      assert prev.Done?;
      OptFoldState(m, order, n - 1);
      OptFoldNext(m, order, n - 1);
      assert order[..n] == order[..n - 1] + [order[n - 1]];
      StateAfterStep(m, order[..n - 1], order[n - 1], prev.value, OptFold(m, order, n).value);
    }
  }

  /** With every key visited and none ending the loop, the finish accepts
      exactly a valid map and then yields what it stands for. */
  lemma FinishCorrect(m: map<string, Value>, order: seq<string>, st: OptState)
    requires IsKeyOrder(order, m.Keys)
    requires StateAfter(m, order, st)
    requires forall j :: 0 <= j < |order| ==> StepOk(order[j], m[order[j]])
    ensures OptFinish(st).Done? <==> ValidOptionMap(m)
    ensures OptFinish(st).Done? ==> OptFinish(st).value == Resolved(m)
  {
    DirtyIff(m, order);
    if ValidOptionMap(m) {
      assert !Dirty(m, order);
      assert OptFinish(st) == Done(Resolved(m));
    } else if exists k :: k in m && !(StepOk(k, m[k]) && StepClean(k, m[k])) {
      var k :| k in m && !(StepOk(k, m[k]) && StepClean(k, m[k]));
      var j :| 0 <= j < |order| && order[j] == k;
      assert StepOk(order[j], m[order[j]]);
      assert Dirty(m, order);
    }
  }

  /** An option map is accepted exactly when it is valid, and it then
      resolves to the options it stands for, whatever the iteration order:
      mode R by default, W under FOR UPDATE, a shard id in 1..2 and never
      together with a shard key. */
  lemma OptionCheckCorrect(options: seq<Value>, order: seq<string>)
    requires IsKeyOrder(order, LastMap(options).Keys)
    ensures OptionCheck(options, order).Done? <==>
              (forall i :: 0 <= i < |options| ==> options[i].OptionMap?) && ValidOptionMap(LastMap(options))
    ensures OptionCheck(options, order).Done? ==> OptionCheck(options, order).value == Resolved(LastMap(options))
  {
    var m := LastMap(options);
    if OptionMapOf(options).Done? {
      var n := |order|;
      OptFoldDone(m, order, n);
      var o := OptFold(m, order, n);
      if o.Done? {
        assert order[..n] == order;
        OptFoldState(m, order, n);
        FinishCorrect(m, order, o.value);
        assert OptionCheck(options, order) == OptFinish(o.value);
      } else {
        var j :| 0 <= j < n && !StepOk(order[j], m[order[j]]);
        assert order[j] in m;
        assert !ValidOptionMap(m);
        assert !OptionCheck(options, order).Done?;
      }
    }
  }

  /** FOR UPDATE always reads and locks on the write master. */
  lemma ForUpdateIsWrite(options: seq<Value>, order: seq<string>)
    requires IsKeyOrder(order, LastMap(options).Keys)
    requires OptionCheck(options, order).Done?
    ensures OptionCheck(options, order).value.forUpdate ==> OptionCheck(options, order).value.mode == ModeW
    ensures OptionCheck(options, order).value.mode in {ModeW, ModeR, ModeBak}
    ensures OptionCheck(options, order).value.shardId == 0 ||
            MinShardId <= OptionCheck(options, order).value.shardId <= MaxShardId
    ensures OptionCheck(options, order).value.shardKey != Nil ==> OptionCheck(options, order).value.shardId == 0
  {
    OptionCheckCorrect(options, order);
    var m := LastMap(options);
    if ModeKey in m {
      assert StepOk(ModeKey, m[ModeKey]) && StepClean(ModeKey, m[ModeKey]);
    }
    if ShardIdKey in m {
      assert StepOk(ShardIdKey, m[ShardIdKey]);
    }
  }

  /** Two iteration orders of the same options give the same accepted
      result. */
  lemma OptionCheckOrderFree(options: seq<Value>, order1: seq<string>, order2: seq<string>)
    requires IsKeyOrder(order1, LastMap(options).Keys)
    requires IsKeyOrder(order2, LastMap(options).Keys)
    requires OptionCheck(options, order1).Done?
    ensures OptionCheck(options, order2) == OptionCheck(options, order1)
  {
    OptionCheckCorrect(options, order1);
    OptionCheckCorrect(options, order2);
  }

  /** No options at all: read mode, no lock, no shard key or id. */
  lemma NoOptionsDefaults()
    ensures OptionCheck([], []) == Done(Options(ModeR, false, Nil, 0))
  {
    OptionCheckCorrect([], []);
  }

  /** An argument that is not an `Option` is refused, whatever comes after. */
  lemma NonOptionRefused(options: seq<Value>, order: seq<string>, i: nat)
    requires IsKeyOrder(order, LastMap(options).Keys)
    requires i < |options| && !options[i].OptionMap?
    ensures OptionCheck(options, order) == Fail(NotOptionMsg)
  {
  }

  /** Only the message of a refusal can depend on the iteration order: with
      an unknown mode and an unknown key, the error of the key visited last
      is returned. */
  lemma RefusalMessageOrder(bad: string)
    requires bad != ModeKey && bad != ForUpdateKey && bad != ShardKeyKey && bad != ShardIdKey
    ensures var options := [OptionMap(map[ModeKey := Str("X"), bad := Nil])];
            OptionCheck(options, [ModeKey, bad]) == Fail(InvalidKeyMsg) &&
            OptionCheck(options, [bad, ModeKey]) == Fail(InvalidModeMsg)
  {
    var m := map[ModeKey := Str("X"), bad := Nil];
    var options := [OptionMap(m)];
    assert LastMap(options) == m;
    assert IsKeyOrder([ModeKey, bad], m.Keys) && IsKeyOrder([bad, ModeKey], m.Keys);
    var st := OptState(ModeR, false, Nil, 0, Some(InvalidModeMsg));
    assert m[ModeKey] == Str("X") && m[bad] == Nil;
    assert OptStep(NoOptions, ModeKey, Str("X")) == Done(st);
    assert OptFold(m, [ModeKey, bad], 1) == Done(st);
    assert OptFold(m, [ModeKey, bad], 2) == Done(st.(err := Some(InvalidKeyMsg)));
    var st2 := OptState(ModeR, false, Nil, 0, Some(InvalidKeyMsg));
    assert OptFold(m, [bad, ModeKey], 1) == Done(st2);
    assert OptFold(m, [bad, ModeKey], 2) == Done(st2.(err := Some(InvalidModeMsg)));
  }

  // ---------------------------------------------------------------------
  // The loops as written

  /** The options loop of `optionCheck`. */
  method ReadOptions(options: seq<Value>) returns (r: Outcome<map<string, Value>>)
    ensures r == OptionMapOf(options)
  {
    var optionMap: map<string, Value> := map[];
    var i := 0;
    while i < |options|
      invariant 0 <= i <= |options|
      invariant OptionMapOf(options[..i]) == Done(optionMap)
    {
      var v := options[i];
      assert options[..i + 1][..i] == options[..i];
      if !v.OptionMap? {
        assert !OptionMapOf(options).Done?;
        return Fail(NotOptionMsg);
      }
      optionMap := v.entries;
      i := i + 1;
    }
    assert options[..i] == options;
    return Done(optionMap);
  }

  /** The map loop of `optionCheck`, visiting the keys in `order`. */
  method ScanOptions(optionMap: map<string, Value>, order: seq<string>) returns (r: Outcome<OptState>)
    requires forall k :: k in order ==> k in optionMap
    ensures r == OptFold(optionMap, order, |order|)
  {
    var mode, isForUpdate, shardKey, shardId := ModeR, false, Nil, 0;
    var err: Option<string> := None;
    var j := 0;
    while j < |order|
      invariant 0 <= j <= |order|
      invariant OptFold(optionMap, order, j) == Done(OptState(mode, isForUpdate, shardKey, shardId, err))
    {
      var k := order[j];
      var v := optionMap[k];
      OptFoldNext(optionMap, order, j);
      if k == ModeKey {
        if !v.Str? {
          OptFoldStop(optionMap, order, j + 1, |order|);
          return Panic;
        }
        var str := v.s;
        if str == ModeW || str == ModeR || str == ModeBak {
          mode := str;
        } else {
          err := Some(InvalidModeMsg);
        }
      } else if k == ForUpdateKey {
        isForUpdate := true;
      } else if k == ShardKeyKey {
        shardKey := v;
      } else if k == ShardIdKey {
        if !v.Int? {
          OptFoldStop(optionMap, order, j + 1, |order|);
          return Fail(NotIntegerMsg);
        } else if v.i < MinShardId || v.i > MaxShardId {
          OptFoldStop(optionMap, order, j + 1, |order|);
          return Fail(ShardIdRangeMsg);
        }
        shardId := v.i;
      } else {
        err := Some(InvalidKeyMsg);
      }
      j := j + 1;
    }
    return Done(OptState(mode, isForUpdate, shardKey, shardId, err));
  }

  /** `optionCheck`: the two loops, then the final checks. */
  method OptionCheckLoop(options: seq<Value>, order: seq<string>) returns (r: Outcome<Options>)
    requires IsKeyOrder(order, LastMap(options).Keys)
    ensures r == OptionCheck(options, order)
  {
    var read := ReadOptions(options);
    if !read.Done? {
      return if read.Fail? then Fail(read.msg) else Panic;
    }
    var scan := ScanOptions(read.value, order);
    if scan.Panic? {
      return Panic;
    } else if scan.Fail? {
      return Fail(scan.msg);
    }
    var st := scan.value;
    var mode := st.mode;
    if st.shardKey != Nil && st.shardId > 0 {
      return Fail(KeyAndIdMsg);
    }
    if st.forUpdate {
      mode := ModeW;
    }
    return if st.err.Some? then Fail(st.err.value) else Done(Options(mode, st.forUpdate, st.shardKey, st.shardId));
  }
}
