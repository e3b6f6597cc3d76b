/** The redis accessor of src/sample/logic/redis.go: the option checks of
    SET and ZADD, the MULTI/EXEC state kept in the request context, and the
    shaping of the EXISTS and ZREVRANGE replies. The connection pool, what
    redigo's `Send`/`Do` return and what its reply conversions
    (`redis.String`, `redis.Int`) make of a reply element are parameters. */
module Redis {
  import opened Wrappers
  import opened GoValues

  const InvalidKeyPrefix: string := "invalid key : "
  const InvalidSettingMsg: string := "invalid option setting!!"
  const OnlyOneMsg: string := "opiton can set only one!!"
  const UndefinedTypeMsg: string := "undefined type!!"

  /** The request-context keys of the read and the write connection
      (src/sample/conf/context/key.go). */
  const RConn: string := "RedisRConn"
  const WConn: string := "RedisWconn"

  /** One element of a variadic `options ...interface{}`: a `RedisOption`
      map, or a value of any other type. */
  datatype Arg = RedisOption(entries: map<string, Value>) | Other(v: Value)

  // ---------------------------------------------------------------------
  // checkSetOption

  predicate IsSetKey(k: string) {
    k == "EX" || k == "PX" || k == "NX" || k == "XX"
  }

  /** The loop variables of `checkSetOption`: `args`, `setExPx`, `setNxXx`. */
  datatype SetAcc = SetAcc(args: seq<Value>, exPx: nat, nxXx: nat)

  /** One iteration, for the option `key`: EX/PX put the key and its value
      in front, NX/XX append the key, anything else ends the loop. */
  function SetStep(opt: map<string, Value>, acc: SetAcc, key: string): Result<SetAcc, string>
    requires key in opt
  {
    if key == "EX" || key == "PX" then Ok(SetAcc([Str(key), opt[key]] + acc.args, acc.exPx + 1, acc.nxXx))
    else if key == "NX" || key == "XX" then Ok(SetAcc(acc.args + [Str(key)], acc.exPx, acc.nxXx + 1))
    else Err(InvalidKeyPrefix + key)
  }

  /** The loop over the keys `s`, in that order; the first invalid key
      ends it with its error. */
  function SetScan(opt: map<string, Value>, s: seq<string>): Result<SetAcc, string>
    requires forall k :: k in s ==> k in opt
  {
    if |s| == 0 then Ok(SetAcc([], 0, 0))
    else
      assert forall k :: k in s[..|s| - 1] ==> k in s;
      var prev := SetScan(opt, s[..|s| - 1]);
      if prev.Err? then prev else SetStep(opt, prev.value, s[|s| - 1])
  }

  /** `checkSetOption(option)`, the map iterated in `order`. */
  function SetOption(opt: map<string, Value>, order: seq<string>): Result<seq<Value>, string>
    requires IsKeyOrder(order, opt.Keys)
  {
    var scan := SetScan(opt, order);
    if scan.Err? then Err(scan.error)
    else if scan.value.exPx > 1 || scan.value.nxXx > 1 then Err(InvalidSettingMsg)
    else Ok(scan.value.args)
  }

  /** The expire part of accepted SET options: EX or PX with its value. */
  function ExPxArgs(opt: map<string, Value>): seq<Value> {
    if "EX" in opt then [Str("EX"), opt["EX"]]
    else if "PX" in opt then [Str("PX"), opt["PX"]]
    else []
  }

  /** The condition part of accepted SET options: NX or XX. */
  function NxXxArgs(opt: map<string, Value>): seq<Value> {
    if "NX" in opt then [Str("NX")] else if "XX" in opt then [Str("XX")] else []
  }

  function One(b: bool): nat {
    if b then 1 else 0
  }

  /** `checkSetOption`. */
  method CheckSetOption(option: map<string, Value>, order: seq<string>) returns (r: Result<seq<Value>, string>)
    requires IsKeyOrder(order, option.Keys)
    ensures r == SetOption(option, order)
  {
    var args: seq<Value> := [];
    var setNxXx, setExPx := 0, 0;
    var i := 0;
    while i < |order|
      invariant 0 <= i <= |order|
      invariant forall k :: k in order[..i] ==> k in option
      invariant SetScan(option, order[..i]) == Ok(SetAcc(args, setExPx, setNxXx))
    {
      var key := order[i];
      SetScanNext(option, order, i);
      if key == "EX" || key == "PX" {
        args := [Str(key), option[key]] + args;
        setExPx := setExPx + 1;
      } else if key == "NX" || key == "XX" {
        args := args + [Str(key)];
        setNxXx := setNxXx + 1;
      } else {
        SetScanSticks(option, order, i + 1);
        return Err(InvalidKeyPrefix + key);
      }
      i := i + 1;
    }
    assert order[..i] == order;
    if setExPx > 1 || setNxXx > 1 {
      return Err(InvalidSettingMsg);
    }
    return Ok(args);
  }

  /** The loop over one more key. */
  lemma SetScanNext(opt: map<string, Value>, s: seq<string>, i: nat)
    requires i < |s| && forall k :: k in s ==> k in opt
    ensures forall k :: k in s[..i] ==> k in opt
    ensures forall k :: k in s[..i + 1] ==> k in opt
    ensures SetScan(opt, s[..i + 1]) ==
              if SetScan(opt, s[..i]).Err? then SetScan(opt, s[..i]) else SetStep(opt, SetScan(opt, s[..i]).value, s[i])
  {
    assert forall k :: k in s[..i + 1] ==> k in s;
    assert forall k :: k in s[..i] ==> k in s;
    assert s[..i + 1][..i] == s[..i];
  }

  /** Once the loop has ended with an error, later keys change nothing. */
  lemma {:induction false} SetScanSticks(opt: map<string, Value>, s: seq<string>, i: nat)
    requires forall k :: k in s ==> k in opt
    requires i <= |s| && forall k :: k in s[..i] ==> k in opt
    requires SetScan(opt, s[..i]).Err?
    ensures SetScan(opt, s) == SetScan(opt, s[..i])
    decreases |s| - i
  {
    if i < |s| {
      assert s[..i + 1][..i] == s[..i];
      assert forall k :: k in s[..i + 1] ==> k in s;
      SetScanSticks(opt, s, i + 1);
    } else {
      assert s[..i] == s;
    }
  }

  /** The expire pair and the condition flag of the keys `s`. */
  function ExPxIn(opt: map<string, Value>, s: seq<string>): seq<Value>
    requires forall k :: k in s ==> k in opt
  {
    if "EX" in s then [Str("EX"), opt["EX"]] else if "PX" in s then [Str("PX"), opt["PX"]] else []
  }

  function NxXxIn(s: seq<string>): seq<Value> {
    if "NX" in s then [Str("NX")] else if "XX" in s then [Str("XX")] else []
  }

  /** Each key at most once. */
  predicate Distinct(s: seq<string>) {
    forall i, j :: 0 <= i < j < |s| ==> s[i] != s[j]
  }

  /** Only SET option keys, each in the map. */
  predicate SetKeysIn(opt: map<string, Value>, s: seq<string>) {
    forall k :: k in s ==> k in opt && IsSetKey(k)
  }

  /** `s` split before its last key. */
  lemma Snoc(s: seq<string>)
    requires |s| > 0
    ensures s == s[..|s| - 1] + [s[|s| - 1]]
    ensures forall x :: x in s <==> x in s[..|s| - 1] || x == s[|s| - 1]
    ensures Distinct(s) ==> Distinct(s[..|s| - 1]) && s[|s| - 1] !in s[..|s| - 1]
  {
    var p, key := s[..|s| - 1], s[|s| - 1];
    assert s == p + [key];
    if Distinct(s) {
      forall i | 0 <= i < |p| ensures p[i] != key {
        assert p[i] == s[i];
      }
    }
  }

  /** With only valid keys, each taken once, the loop runs to the end and
      counts the EX/PX and the NX/XX keys. */
  lemma {:induction false} SetScanCounts(opt: map<string, Value>, s: seq<string>)
    requires SetKeysIn(opt, s) && Distinct(s)
    ensures SetScan(opt, s).Ok?
    ensures SetScan(opt, s).value.exPx == One("EX" in s) + One("PX" in s)
    ensures SetScan(opt, s).value.nxXx == One("NX" in s) + One("XX" in s)
  {
    if |s| > 0 {
      var p, key := s[..|s| - 1], s[|s| - 1];
      Snoc(s);
      SetScanCounts(opt, p);
      assert key in s && IsSetKey(key);
      assert SetScan(opt, s) == SetStep(opt, SetScan(opt, p).value, key);
      SnocMember(p, key);
    }
  }

  lemma SnocMember(p: seq<string>, key: string)
    requires key !in p
    ensures One("EX" in p + [key]) == One("EX" in p) + One(key == "EX")
    ensures One("PX" in p + [key]) == One("PX" in p) + One(key == "PX")
    ensures One("NX" in p + [key]) == One("NX" in p) + One(key == "NX")
    ensures One("XX" in p + [key]) == One("XX" in p) + One(key == "XX")
  {
  }

  /** At most one expire key and at most one condition key. */
  predicate AtMostOne(s: seq<string>) {
    !("EX" in s && "PX" in s) && !("NX" in s && "XX" in s)
  }

  /** ... and with at most one expire and one condition key the arguments
      are the expire pair followed by the condition flag. */
  lemma {:induction false} SetScanValid(opt: map<string, Value>, s: seq<string>)
    requires SetKeysIn(opt, s) && Distinct(s) && AtMostOne(s)
    ensures SetScan(opt, s).Ok? && SetScan(opt, s).value.args == ExPxIn(opt, s) + NxXxIn(s)
  {
    if |s| > 0 {
      PrefixKeys(opt, s);
      SetScanValid(opt, s[..|s| - 1]);
      SetScanValidStep(opt, s);
    }
  }

  /** The prefix before the last key keeps the conditions. */
  lemma PrefixKeys(opt: map<string, Value>, s: seq<string>)
    requires |s| > 0 && SetKeysIn(opt, s) && Distinct(s) && AtMostOne(s)
    ensures SetKeysIn(opt, s[..|s| - 1]) && Distinct(s[..|s| - 1]) && AtMostOne(s[..|s| - 1])
  {
    Snoc(s);
  }

  /** The induction step of `SetScanValid`. */
  lemma SetScanValidStep(opt: map<string, Value>, s: seq<string>)
    requires |s| > 0 && SetKeysIn(opt, s) && Distinct(s) && AtMostOne(s)
    requires SetKeysIn(opt, s[..|s| - 1])
    requires SetScan(opt, s[..|s| - 1]).Ok?
    requires SetScan(opt, s[..|s| - 1]).value.args == ExPxIn(opt, s[..|s| - 1]) + NxXxIn(s[..|s| - 1])
    ensures SetScan(opt, s).Ok? && SetScan(opt, s).value.args == ExPxIn(opt, s) + NxXxIn(s)
  {
    var p, key := s[..|s| - 1], s[|s| - 1];
    Snoc(s);
    assert key in s && IsSetKey(key);
    assert SetScan(opt, s) == SetStep(opt, SetScan(opt, p).value, key);
    if key == "EX" || key == "PX" {
      ExPxLast(opt, p, key);
    } else {
      NxXxLast(opt, p, key);
    }
  }

  /** An expire key after keys holding none: it gives the expire pair. */
  lemma ExPxLast(opt: map<string, Value>, p: seq<string>, key: string)
    requires forall k :: k in p + [key] ==> k in opt
    requires (key == "EX" || key == "PX") && "EX" !in p && "PX" !in p
    ensures ExPxIn(opt, p) == [] && NxXxIn(p + [key]) == NxXxIn(p)
    ensures ExPxIn(opt, p + [key]) == [Str(key), opt[key]]
  {
    assert forall x :: x in p + [key] <==> x in p || x == key;
  }

  /** A condition key after keys holding none: it gives the flag. */
  lemma NxXxLast(opt: map<string, Value>, p: seq<string>, key: string)
    requires forall k :: k in p + [key] ==> k in opt
    requires (key == "NX" || key == "XX") && "NX" !in p && "XX" !in p
    ensures NxXxIn(p) == [] && ExPxIn(opt, p + [key]) == ExPxIn(opt, p)
    ensures NxXxIn(p + [key]) == [Str(key)]
  {
    assert forall x :: x in p + [key] <==> x in p || x == key;
  }

  /** With an invalid key among `s`, the loop ends with the error of the
      first invalid key in the order. */
  lemma {:induction false} SetScanInvalid(opt: map<string, Value>, s: seq<string>)
    requires forall k :: k in s ==> k in opt
    requires Distinct(s)
    requires exists k :: k in s && !IsSetKey(k)
    ensures exists i :: 0 <= i < |s| && !IsSetKey(s[i]) && (forall j :: 0 <= j < i ==> IsSetKey(s[j])) &&
                        SetScan(opt, s) == Err(InvalidKeyPrefix + s[i])
  {
    var n := |s| - 1;
    var p := s[..n];
    if exists i :: 0 <= i < n && !IsSetKey(s[i]) {
      var i0 :| 0 <= i0 < n && !IsSetKey(s[i0]);
      assert p[i0] == s[i0] && p[i0] in p;
      assert forall k :: k in p ==> k in s;
      assert Distinct(p) by {
        forall a, b | 0 <= a < b < |p| ensures p[a] != p[b] {
          assert p[a] == s[a] && p[b] == s[b];
        }
      }
      SetScanInvalid(opt, p);
      var i :| 0 <= i < |p| && !IsSetKey(p[i]) && (forall j :: 0 <= j < i ==> IsSetKey(p[j])) &&
               SetScan(opt, p) == Err(InvalidKeyPrefix + p[i]);
      InvalidEarlier(opt, s, i);
      forall j | 0 <= j < i ensures IsSetKey(s[j]) {
        assert s[j] == p[j];
      }
      assert !IsSetKey(s[i]);
    } else {
      var k :| k in s && !IsSetKey(k);
      var m :| 0 <= m < |s| && s[m] == k;
      assert m == n;
      InvalidLast(opt, s);
    }
  }

  /** An error of the loop before the last key is its result. */
  lemma InvalidEarlier(opt: map<string, Value>, s: seq<string>, i: nat)
    requires |s| > 0 && (forall k :: k in s ==> k in opt) && i < |s| - 1
    requires SetScan(opt, s[..|s| - 1]) == Err(InvalidKeyPrefix + s[..|s| - 1][i])
    ensures SetScan(opt, s) == Err(InvalidKeyPrefix + s[i])
  {
    assert s[..|s| - 1][i] == s[i];
  }

  /** Valid keys followed by an invalid one: the loop ends with its error. */
  lemma InvalidLast(opt: map<string, Value>, s: seq<string>)
    requires |s| > 0 && (forall k :: k in s ==> k in opt) && Distinct(s)
    requires forall j :: 0 <= j < |s| - 1 ==> IsSetKey(s[j])
    requires !IsSetKey(s[|s| - 1])
    ensures SetScan(opt, s) == Err(InvalidKeyPrefix + s[|s| - 1])
  {
    var p := s[..|s| - 1];
    Snoc(s);
    assert SetKeysIn(opt, p) by {
      forall k | k in p ensures k in opt && IsSetKey(k) {
        var j :| 0 <= j < |p| && p[j] == k;
        assert s[j] == k;
      }
    }
    SetScanCounts(opt, p);
  }

  /** checkSetOption: an unknown key is reported as such; with known keys
      only, two expire options or two conditions are refused, and otherwise
      the arguments are the expire key and value, then the condition flag,
      whatever order the map is iterated in. */
  lemma SetOptionMeaning(opt: map<string, Value>, order: seq<string>)
    requires IsKeyOrder(order, opt.Keys)
    ensures (exists k :: k in opt && !IsSetKey(k)) ==>
              exists k :: k in opt && !IsSetKey(k) && SetOption(opt, order) == Err(InvalidKeyPrefix + k)
    ensures (exists k :: k in opt && !IsSetKey(k)) ==>
              exists i :: 0 <= i < |order| && !IsSetKey(order[i]) && (forall j :: 0 <= j < i ==> IsSetKey(order[j])) &&
                          SetOption(opt, order) == Err(InvalidKeyPrefix + order[i])
    ensures (forall k :: k in opt ==> IsSetKey(k)) ==>
              (SetOption(opt, order).Err? <==> ("EX" in opt && "PX" in opt) || ("NX" in opt && "XX" in opt))
    ensures (forall k :: k in opt ==> IsSetKey(k)) && SetOption(opt, order).Err? ==>
              SetOption(opt, order).error == InvalidSettingMsg
    ensures (forall k :: k in opt ==> IsSetKey(k)) && SetOption(opt, order).Ok? ==>
              SetOption(opt, order).value == ExPxArgs(opt) + NxXxArgs(opt)
  {
    if exists k :: k in opt && !IsSetKey(k) {
      var k :| k in opt && !IsSetKey(k);
      assert k in order;
      SetScanInvalid(opt, order);
      var i :| 0 <= i < |order| && !IsSetKey(order[i]) && (forall j :: 0 <= j < i ==> IsSetKey(order[j])) &&
               SetScan(opt, order) == Err(InvalidKeyPrefix + order[i]);
      assert order[i] in opt;
    } else {
      SetScanCounts(opt, order);
      if AtMostOne(order) {
        SetScanValid(opt, order);
      }
      assert ExPxIn(opt, order) == ExPxArgs(opt) && NxXxIn(order) == NxXxArgs(opt);
    }
  }

  /** With known keys only, the iteration order does not matter. */
  lemma SetOptionOrderFree(opt: map<string, Value>, o1: seq<string>, o2: seq<string>)
    requires IsKeyOrder(o1, opt.Keys) && IsKeyOrder(o2, opt.Keys)
    requires forall k :: k in opt ==> IsSetKey(k)
    ensures SetOption(opt, o1) == SetOption(opt, o2)
  {
    SetOptionMeaning(opt, o1);
    SetOptionMeaning(opt, o2);
  }

  /** With two unknown keys the reported one depends on the order. */
  lemma SetOptionUnknownKeyOrder()
    ensures IsKeyOrder(["A", "B"], map["A" := Nil, "B" := Nil].Keys)
    ensures IsKeyOrder(["B", "A"], map["A" := Nil, "B" := Nil].Keys)
    ensures SetOption(map["A" := Nil, "B" := Nil], ["A", "B"]) == Err(InvalidKeyPrefix + "A")
    ensures SetOption(map["A" := Nil, "B" := Nil], ["B", "A"]) == Err(InvalidKeyPrefix + "B")
  {
    var opt := map["A" := Nil, "B" := Nil];
    assert ["A", "B"][..1] == ["A"] && ["A"][..0] == [];
    assert ["B", "A"][..1] == ["B"] && ["B"][..0] == [];
    assert SetScan(opt, ["A"]) == Err(InvalidKeyPrefix + "A");
    assert SetScan(opt, ["B"]) == Err(InvalidKeyPrefix + "B");
  }

  // ---------------------------------------------------------------------
  // checkZAddOption

  /** The ZADD flags, in the order `checkZAddOption` looks them up. */
  const ZAddKeys: seq<string> := ["NX", "XX", "CH", "INCR"]

  /** Each of `keys` present in `opt`, in the order of `keys`. */
  function Present(opt: map<string, Value>, keys: seq<string>): seq<Value> {
    if |keys| == 0 then []
    else Present(opt, keys[..|keys| - 1]) + (if keys[|keys| - 1] in opt then [Str(keys[|keys| - 1])] else [])
  }

  /** `checkZAddOption(option)`: its double-setting check reads a counter
      nothing increments, so it never fails. */
  function ZAddOption(opt: map<string, Value>): seq<Value> {
    Present(opt, ZAddKeys)
  }

  /** The position of a ZADD flag among `ZAddKeys`. */
  function ZAddRank(k: string): nat {
    if k == "NX" then 0 else if k == "XX" then 1 else if k == "CH" then 2 else 3
  }

  /** `checkZAddOption`. */
  method CheckZAddOption(option: map<string, Value>) returns (args: seq<Value>)
    ensures args == ZAddOption(option)
  {
    args := [];
    var keys := ZAddKeys;
    var i := 0;
    while i < |keys|
      invariant 0 <= i <= |keys|
      invariant args == Present(option, keys[..i])
    {
      var key := keys[i];
      assert keys[..i + 1][..i] == keys[..i];
      if key in option {
        args := args + [Str(key)];
      }
      i := i + 1;
    }
    assert keys[..i] == keys;
  }

  /** Ranks strictly ascending along `r`. */
  predicate RankSorted(r: seq<Value>) {
    forall i, j :: 0 <= i < j < |r| ==> r[i].Str? && r[j].Str? && ZAddRank(r[i].s) < ZAddRank(r[j].s)
  }

  /** The first `m` flags: each given one emitted, ranked below `m`, in
      ascending rank. */
  lemma {:induction false} PresentRanked(opt: map<string, Value>, m: nat)
    requires m <= |ZAddKeys|
    ensures forall v :: v in Present(opt, ZAddKeys[..m]) ==> v.Str? && v.s in opt && v.s in ZAddKeys && ZAddRank(v.s) < m
    ensures forall k :: k in ZAddKeys[..m] && k in opt ==> Str(k) in Present(opt, ZAddKeys[..m])
    ensures RankSorted(Present(opt, ZAddKeys[..m]))
  {
    if m > 0 {
      var keys := ZAddKeys[..m];
      assert keys[..m - 1] == ZAddKeys[..m - 1];
      PresentRanked(opt, m - 1);
      var key := keys[m - 1];
      assert ZAddRank(key) == m - 1 by {
        assert ZAddKeys == ["NX", "XX", "CH", "INCR"];
      }
      assert forall k :: k in keys <==> k in ZAddKeys[..m - 1] || k == key;
      var prev := Present(opt, ZAddKeys[..m - 1]);
      var last := if key in opt then [Str(key)] else [];
      assert Present(opt, keys) == prev + last;
      forall k | k in keys && k in opt ensures Str(k) in prev + last {
        if k != key {
          assert Str(k) in prev;
        }
      }
      forall i, j | 0 <= i < j < |prev + last|
        ensures (prev + last)[i].Str? && (prev + last)[j].Str? && ZAddRank((prev + last)[i].s) < ZAddRank((prev + last)[j].s)
      {
        assert (prev + last)[i] == prev[i] && prev[i] in prev;
        if j >= |prev| {
          assert (prev + last)[j] == Str(key);
        } else {
          assert (prev + last)[j] == prev[j];
        }
      }
    }
  }

  /** The flags given are each emitted once, other keys are ignored, and
      the flags come in the order NX, XX, CH, INCR. */
  lemma ZAddOptionMeaning(opt: map<string, Value>)
    ensures forall v :: v in ZAddOption(opt) ==> v.Str? && v.s in ZAddKeys && v.s in opt
    ensures forall k :: k in ZAddKeys && k in opt ==> Str(k) in ZAddOption(opt)
    ensures RankSorted(ZAddOption(opt))
  {
    PresentRanked(opt, |ZAddKeys|);
    assert ZAddKeys[..|ZAddKeys|] == ZAddKeys;
  }

  // ---------------------------------------------------------------------
  // checkOption

  /** The validator `checkOption` delegates to. */
  datatype OptionFunc = CheckSet | CheckZAdd

  /** The order the SET validator iterates a lone option map in. */
  predicate OrderFits(f: OptionFunc, options: seq<Arg>, order: seq<string>) {
    f.CheckSet? && |options| == 1 && options[0].RedisOption? ==> IsKeyOrder(order, options[0].entries.Keys)
  }

  /** `checkOption(f, options)`: no option gives no arguments, more than one
      is refused, a lone `RedisOption` goes to the validator, and any other
      type is refused. */
  function CheckOption(f: OptionFunc, options: seq<Arg>, order: seq<string>): (r: Result<seq<Value>, string>)
    requires OrderFits(f, options, order)
    ensures r.Ok? && |options| > 0 ==> |options| == 1 && options[0].RedisOption?
  {
    if |options| < 1 then Ok([])
    else if |options| > 1 then Err(OnlyOneMsg)
    else if options[0].RedisOption? then
      if f.CheckSet? then SetOption(options[0].entries, order) else Ok(ZAddOption(options[0].entries))
    else Err(UndefinedTypeMsg)
  }

  /** checkOption with either validator: the ZADD one accepts every lone
      option map, the SET one follows `SetOptionMeaning`. */
  lemma CheckOptionMeaning(f: OptionFunc, options: seq<Arg>, order: seq<string>)
    requires OrderFits(f, options, order)
    ensures |options| == 0 ==> CheckOption(f, options, order) == Ok([])
    ensures |options| > 1 ==> CheckOption(f, options, order) == Err(OnlyOneMsg)
    ensures |options| == 1 && options[0].Other? ==> CheckOption(f, options, order) == Err(UndefinedTypeMsg)
    ensures |options| == 1 && options[0].RedisOption? && f.CheckZAdd? ==>
              CheckOption(f, options, order) == Ok(ZAddOption(options[0].entries))
    ensures |options| == 1 && options[0].RedisOption? && f.CheckSet? &&
            (forall k :: k in options[0].entries ==> IsSetKey(k)) ==>
              var opt := options[0].entries;
              (CheckOption(f, options, order).Ok? <==> !("EX" in opt && "PX" in opt) && !("NX" in opt && "XX" in opt)) &&
              (CheckOption(f, options, order).Ok? ==> CheckOption(f, options, order).value == ExPxArgs(opt) + NxXxArgs(opt))
  {
    if |options| == 1 && options[0].RedisOption? && f.CheckSet? {
      SetOptionMeaning(options[0].entries, order);
    }
  }

  // ---------------------------------------------------------------------
  // The request context

  /** A redis connection handed out by the pool. */
  datatype Conn = Conn(id: nat)

  /** A command sent on the connection stored under context key `key`. */
  datatype Command = Command(key: string, conn: Conn, name: string, args: seq<Value>)

  /** The redis part of a request context: the connections stored under
      `RConn`/`WConn`, the `IsRedisTxStart` entry (absent until first set)
      and the commands sent so far. */
  datatype RedisState = RedisState(conns: map<string, Conn>, txStart: Option<bool>, log: seq<Command>)

  /** `isTxStart(c)`: an absent entry reads as not started. */
  function TxStarted(s: RedisState): bool {
    s.txStart == Some(true)
  }

  /** `getConnection(c, key)`: the stored connection, or `pooled` (what
      `pool.Get()` hands out), stored under `key`. */
  function GetConnectionSpec(s: RedisState, key: string, pooled: Conn): (RedisState, Conn) {
    if key in s.conns then (s, s.conns[key]) else (s.(conns := s.conns[key := pooled]), pooled)
  }

  /** Takes the connection under `key` and sends `name args` on it. */
  function Issue(s: RedisState, key: string, pooled: Conn, name: string, args: seq<Value>): RedisState {
    var got := GetConnectionSpec(s, key, pooled);
    got.0.(log := got.0.log + [Command(key, got.1, name, args)])
  }

  /** `Multi(c)`, `sendErr` being what `conn.Send("MULTI")` returns. */
  function MultiSpec(s: RedisState, pooled: Conn, sendErr: Option<string>): (RedisState, Option<string>) {
    if TxStarted(s) then (s, None)
    else
      var s1 := Issue(s, WConn, pooled, "MULTI", []);
      if sendErr.Some? then (s1, sendErr) else (s1.(txStart := Some(true)), None)
  }

  /** `Exec(c)`, `reply` and `doErr` being what `conn.Do("EXEC")` returns. */
  function ExecSpec(s: RedisState, pooled: Conn, reply: Value, doErr: Option<string>): (RedisState, Value, Option<string>) {
    if !TxStarted(s) then (s, Nil, None)
    else
      var s1 := Issue(s, WConn, pooled, "EXEC", []);
      if doErr.Some? then (s1, reply, doErr) else (s1.(txStart := Some(false)), reply, None)
  }

  /** `Discard(c)`, `doErr` being the error of `conn.Do("DISCARD")`. */
  function DiscardSpec(s: RedisState, pooled: Conn, doErr: Option<string>): (RedisState, Option<string>) {
    if !TxStarted(s) then (s, None)
    else
      var s1 := Issue(s, WConn, pooled, "DISCARD", []);
      if doErr.Some? then (s1, doErr) else (s1.(txStart := Some(false)), None)
  }

  /** `send(c, name, args...)`: MULTI first when no transaction is started
      (its error ignored), then the command; `sendErr` is the command's own
      `Send` error. */
  function SendSpec(s: RedisState, name: string, args: seq<Value>, pooled: Conn,
                    multiErr: Option<string>, sendErr: Option<string>): (RedisState, Option<string>) {
    var s1 := if !TxStarted(s) then MultiSpec(s, pooled, multiErr).0 else s;
    (Issue(s1, WConn, pooled, name, args), sendErr)
  }

  /** The arguments of EXISTS: `key`, then `keys`. */
  function ExistsArgs(key: string, keys: seq<string>): (r: seq<Value>)
    ensures |r| == 1 + |keys| && r[0] == Str(key)
    ensures forall j :: 0 <= j < |keys| ==> r[j + 1] == Str(keys[j])
  {
    [Str(key)] + seq(|keys|, j requires 0 <= j < |keys| => Str(keys[j]))
  }

  /** `Exists(c, key, keys...)`, `reply` being `redis.Int` of the EXISTS
      reply. */
  function ExistsSpec(s: RedisState, key: string, keys: seq<string>, pooled: Conn, reply: Result<int, string>)
    : (RedisState, Result<bool, string>)
  {
    var s1 := Issue(s, RConn, pooled, "EXISTS", ExistsArgs(key, keys));
    if reply.Err? then (s1, Err(reply.error)) else (s1, Ok(reply.value == |ExistsArgs(key, keys)|))
  }

  /** What `redis.String` and `redis.Int` make of one reply element. */
  datatype Reply = Reply(asString: Result<string, string>, asInt: Result<int, string>)

  /** The ZREVRANGE mapping loop from index `i` on, `acc` the maps so far:
      element `i` is the member, element `i + 1` its score; a reply of odd
      length reads past its end (an index-out-of-range panic). */
  function Mapping(values: seq<Reply>, i: nat, acc: seq<map<string, int>>): Outcome<seq<map<string, int>>>
    requires i <= |values|
    decreases |values| - i
  {
    if i >= |values| then Done(acc)
    else if values[i].asString.Err? then Fail(values[i].asString.error)
    else if i + 1 >= |values| then Panic
    else if values[i + 1].asInt.Err? then Fail(values[i + 1].asInt.error)
    else Mapping(values, i + 2, acc + [map[values[i].asString.value := values[i + 1].asInt.value]])
  }

  /** `ZRevRange(c, key, start, stop)`, `reply` being `redis.Values` of the
      ZREVRANGE ... WITHSCORES reply. */
  function ZRevRangeSpec(s: RedisState, key: string, start: int, stop: int, pooled: Conn,
                         reply: Result<seq<Reply>, string>): (RedisState, Outcome<seq<map<string, int>>>)
  {
    var s1 := Issue(s, RConn, pooled, "ZREVRANGE", [Str(key), Int(start), Int(stop), Str("WITHSCORES")]);
    if reply.Err? then (s1, Fail(reply.error)) else (s1, Mapping(reply.value, 0, []))
  }

  /** Every logged command went over the connection stored under its key,
      and a started transaction has its write connection stored. */
  predicate Coherent(s: RedisState) {
    (forall c :: c in s.log ==> c.key in s.conns && s.conns[c.key] == c.conn) &&
    (TxStarted(s) ==> WConn in s.conns)
  }

  /** `t` keeps every connection of `s` and extends its log. */
  predicate Extends(s: RedisState, t: RedisState) {
    (forall k :: k in s.conns ==> k in t.conns && t.conns[k] == s.conns[k]) &&
    |s.log| <= |t.log| && t.log[..|s.log|] == s.log
  }

  /** The connection the write commands go over. */
  function WriteConn(s: RedisState, pooled: Conn): Conn {
    if WConn in s.conns then s.conns[WConn] else pooled
  }

  /** getConnection reuses a stored connection and stores a new one only
      when none is stored; asking again yields the same connection. */
  lemma GetConnectionLaws(s: RedisState, key: string, pooled: Conn, pooled2: Conn)
    ensures key in s.conns ==> GetConnectionSpec(s, key, pooled) == (s, s.conns[key])
    ensures key !in s.conns ==>
              GetConnectionSpec(s, key, pooled).1 == pooled && GetConnectionSpec(s, key, pooled).0.conns == s.conns[key := pooled]
    ensures var t := GetConnectionSpec(s, key, pooled).0;
            GetConnectionSpec(t, key, pooled2) == (t, GetConnectionSpec(s, key, pooled).1)
    ensures Coherent(s) ==> Coherent(GetConnectionSpec(s, key, pooled).0)
    ensures Extends(s, GetConnectionSpec(s, key, pooled).0)
  {
  }

  lemma IssueKeeps(s: RedisState, key: string, pooled: Conn, name: string, args: seq<Value>)
    ensures Coherent(s) ==> Coherent(Issue(s, key, pooled, name, args))
    ensures Extends(s, Issue(s, key, pooled, name, args))
    ensures Issue(s, key, pooled, name, args).txStart == s.txStart
    ensures Issue(s, key, pooled, name, args).log ==
              s.log + [Command(key, if key in s.conns then s.conns[key] else pooled, name, args)]
  {
    var t := Issue(s, key, pooled, name, args);
    assert t.log[..|s.log|] == s.log;
  }

  /** Multi: nothing when a transaction is already started; otherwise MULTI
      goes out on the write connection, and the flag is set only when it
      was sent without error. */
  lemma MultiLaws(s: RedisState, pooled: Conn, sendErr: Option<string>)
    ensures TxStarted(s) ==> MultiSpec(s, pooled, sendErr) == (s, None)
    ensures !TxStarted(s) ==>
              MultiSpec(s, pooled, sendErr).0.log == s.log + [Command(WConn, WriteConn(s, pooled), "MULTI", [])] &&
              MultiSpec(s, pooled, sendErr).1 == sendErr
    ensures TxStarted(MultiSpec(s, pooled, sendErr).0) <==> TxStarted(s) || sendErr.None?
    ensures MultiSpec(s, pooled, sendErr).1.None? ==>
              MultiSpec(MultiSpec(s, pooled, sendErr).0, pooled, sendErr) == (MultiSpec(s, pooled, sendErr).0, None)
    ensures Coherent(s) ==> Coherent(MultiSpec(s, pooled, sendErr).0)
    ensures Extends(s, MultiSpec(s, pooled, sendErr).0)
  {
    IssueKeeps(s, WConn, pooled, "MULTI", []);
  }

  /** Exec: nil and no command when no transaction is started; otherwise
      EXEC goes out, its reply is returned, and the flag is cleared only
      when EXEC succeeded. */
  lemma ExecLaws(s: RedisState, pooled: Conn, reply: Value, doErr: Option<string>)
    ensures !TxStarted(s) ==> ExecSpec(s, pooled, reply, doErr) == (s, Nil, None)
    ensures TxStarted(s) ==>
              ExecSpec(s, pooled, reply, doErr).0.log == s.log + [Command(WConn, WriteConn(s, pooled), "EXEC", [])] &&
              ExecSpec(s, pooled, reply, doErr).1 == reply && ExecSpec(s, pooled, reply, doErr).2 == doErr &&
              (TxStarted(ExecSpec(s, pooled, reply, doErr).0) <==> doErr.Some?)
    ensures Coherent(s) ==> Coherent(ExecSpec(s, pooled, reply, doErr).0)
    ensures Extends(s, ExecSpec(s, pooled, reply, doErr).0)
  {
    IssueKeeps(s, WConn, pooled, "EXEC", []);
  }

  /** Discard: as Exec, with DISCARD and no reply. */
  lemma DiscardLaws(s: RedisState, pooled: Conn, doErr: Option<string>)
    ensures !TxStarted(s) ==> DiscardSpec(s, pooled, doErr) == (s, None)
    ensures TxStarted(s) ==>
              DiscardSpec(s, pooled, doErr).0.log == s.log + [Command(WConn, WriteConn(s, pooled), "DISCARD", [])] &&
              DiscardSpec(s, pooled, doErr).1 == doErr &&
              (TxStarted(DiscardSpec(s, pooled, doErr).0) <==> doErr.Some?)
    ensures Coherent(s) ==> Coherent(DiscardSpec(s, pooled, doErr).0)
    ensures Extends(s, DiscardSpec(s, pooled, doErr).0)
  {
    IssueKeeps(s, WConn, pooled, "DISCARD", []);
  }

  /** send: with no transaction started, MULTI and then the command go out
      on the one write connection; a failed MULTI is not reported and the
      command is then sent outside a transaction. Only the command's own
      error is returned. */
  lemma SendLaws(s: RedisState, name: string, args: seq<Value>, pooled: Conn,
                 multiErr: Option<string>, sendErr: Option<string>)
    ensures var t := SendSpec(s, name, args, pooled, multiErr, sendErr);
            t.1 == sendErr &&
            (TxStarted(s) ==> t.0.log == s.log + [Command(WConn, WriteConn(s, pooled), name, args)] && t.0.txStart == s.txStart) &&
            (!TxStarted(s) ==> t.0.log == s.log + [Command(WConn, WriteConn(s, pooled), "MULTI", []),
                                                   Command(WConn, WriteConn(s, pooled), name, args)]) &&
            (TxStarted(t.0) <==> TxStarted(s) || multiErr.None?)
    ensures Coherent(s) ==> Coherent(SendSpec(s, name, args, pooled, multiErr, sendErr).0)
    ensures Extends(s, SendSpec(s, name, args, pooled, multiErr, sendErr).0)
  {
    MultiLaws(s, pooled, multiErr);
    var s1 := if !TxStarted(s) then MultiSpec(s, pooled, multiErr).0 else s;
    IssueKeeps(s1, WConn, pooled, name, args);
    assert WriteConn(s1, pooled) == WriteConn(s, pooled);
  }

  /** A command sent with no transaction started and then EXEC, both
      succeeding, run as one transaction: MULTI, the command, EXEC on the
      same connection, and the flag is cleared again. */
  lemma SendThenExec(s: RedisState, name: string, args: seq<Value>, pooled: Conn, reply: Value)
    requires !TxStarted(s)
    ensures var t := ExecSpec(SendSpec(s, name, args, pooled, None, None).0, pooled, reply, None);
            var c := WriteConn(s, pooled);
            t.0.log == s.log + [Command(WConn, c, "MULTI", []), Command(WConn, c, name, args), Command(WConn, c, "EXEC", [])] &&
            !TxStarted(t.0) && t.1 == reply && t.2 == None
  {
    SendLaws(s, name, args, pooled, None, None);
    var s1 := SendSpec(s, name, args, pooled, None, None).0;
    ExecLaws(s1, pooled, reply, None);
    IssueKeeps(s, WConn, pooled, "MULTI", []);
    assert WriteConn(s1, pooled) == WriteConn(s, pooled);
  }

  /** Exists: true exactly when the reply counts every key passed, the
      reply's error is passed on, and EXISTS goes out on the read
      connection. */
  lemma ExistsLaws(s: RedisState, key: string, keys: seq<string>, pooled: Conn, reply: Result<int, string>)
    ensures var t := ExistsSpec(s, key, keys, pooled, reply);
            (t.1 == Ok(true) <==> reply == Ok(1 + |keys|)) &&
            (t.1.Err? <==> reply.Err?) && (reply.Err? ==> t.1.error == reply.error) &&
            t.0.txStart == s.txStart &&
            t.0.log == s.log + [Command(RConn, if RConn in s.conns then s.conns[RConn] else pooled, "EXISTS", ExistsArgs(key, keys))]
    ensures Coherent(s) ==> Coherent(ExistsSpec(s, key, keys, pooled, reply).0)
  {
    IssueKeeps(s, RConn, pooled, "EXISTS", ExistsArgs(key, keys));
  }

  /** Every element converts: the members at even, the scores at odd
      positions. */
  predicate Converts(values: seq<Reply>, i: nat) {
    forall j :: i <= j < |values| ==> (j % 2 == i % 2 ==> values[j].asString.Ok?) && (j % 2 != i % 2 ==> values[j].asInt.Ok?)
  }

  /** The reply paired up: one member-to-score map per pair, in order. */
  function Paired(values: seq<Reply>, i: nat): (r: seq<map<string, int>>)
    requires i <= |values| && (|values| - i) % 2 == 0 && Converts(values, i)
    ensures |r| == (|values| - i) / 2
    ensures forall k :: 0 <= k < |r| ==> r[k] == map[values[i + 2 * k].asString.value := values[i + 2 * k + 1].asInt.value]
  {
    seq((|values| - i) / 2, k requires 0 <= k < (|values| - i) / 2 =>
      map[values[i + 2 * k].asString.value := values[i + 2 * k + 1].asInt.value])
  }

  /** Converting from `i` on is converting the pair at `i` and everything
      from `i + 2` on. */
  lemma ConvertsStep(values: seq<Reply>, i: nat)
    requires i + 1 < |values|
    ensures Converts(values, i) <==> values[i].asString.Ok? && values[i + 1].asInt.Ok? && Converts(values, i + 2)
  {
    if values[i].asString.Ok? && values[i + 1].asInt.Ok? && Converts(values, i + 2) {
      forall j | i <= j < |values|
        ensures (j % 2 == i % 2 ==> values[j].asString.Ok?) && (j % 2 != i % 2 ==> values[j].asInt.Ok?)
      {
        if j >= i + 2 {
          assert j % 2 == (i + 2) % 2 <==> j % 2 == i % 2;
        }
      }
    }
    if Converts(values, i) {
      assert (i + 1) % 2 != i % 2;
      forall j | i + 2 <= j < |values|
        ensures (j % 2 == (i + 2) % 2 ==> values[j].asString.Ok?) && (j % 2 != (i + 2) % 2 ==> values[j].asInt.Ok?)
      {
        assert j % 2 == (i + 2) % 2 <==> j % 2 == i % 2;
      }
    }
  }

  /** The pairs from `i` on are the pair at `i`, then the pairs from
      `i + 2` on. */
  lemma PairedStep(values: seq<Reply>, i: nat)
    requires i + 1 < |values| && (|values| - i) % 2 == 0 && Converts(values, i)
    requires values[i].asString.Ok? && values[i + 1].asInt.Ok? && Converts(values, i + 2)
    ensures Paired(values, i) == [map[values[i].asString.value := values[i + 1].asInt.value]] + Paired(values, i + 2)
  {
    var r, q := Paired(values, i), Paired(values, i + 2);
    assert |r| == 1 + |q|;
    forall k | 1 <= k < |r| ensures r[k] == q[k - 1] {
      assert i + 2 * k == (i + 2) + 2 * (k - 1);
    }
  }

  /** From `i` on, the loop succeeds exactly when every element converts
      and the length is even, giving the pairs in order. */
  lemma {:induction false} MappingDone(values: seq<Reply>, i: nat, acc: seq<map<string, int>>)
    requires i <= |values|
    ensures Mapping(values, i, acc).Done? <==> Converts(values, i) && (|values| - i) % 2 == 0
    ensures Mapping(values, i, acc).Done? ==> Mapping(values, i, acc).value == acc + Paired(values, i)
    decreases |values| - i
  {
    if i >= |values| {
      assert Paired(values, i) == [];
    } else if i + 1 < |values| {
      ConvertsStep(values, i);
      if values[i].asString.Ok? && values[i + 1].asInt.Ok? {
        var m := map[values[i].asString.value := values[i + 1].asInt.value];
        MappingDone(values, i + 2, acc + [m]);
        assert (|values| - i) % 2 == (|values| - (i + 2)) % 2;
        if Converts(values, i) && (|values| - i) % 2 == 0 {
          PairedStep(values, i);
        }
      }
    }
  }

  /** ... and it panics exactly when every element converts and the
      length is odd. */
  lemma {:induction false} MappingPanics(values: seq<Reply>, i: nat, acc: seq<map<string, int>>)
    requires i <= |values|
    ensures Mapping(values, i, acc).Panic? <==> Converts(values, i) && (|values| - i) % 2 == 1
    decreases |values| - i
  {
    if i + 1 < |values| {
      ConvertsStep(values, i);
      if values[i].asString.Ok? && values[i + 1].asInt.Ok? {
        MappingPanics(values, i + 2, acc + [map[values[i].asString.value := values[i + 1].asInt.value]]);
        assert (|values| - i) % 2 == (|values| - (i + 2)) % 2;
      }
    }
  }

  /** A failing loop reports the conversion error of one of the elements
      from `i` on. */
  lemma {:induction false} MappingFails(values: seq<Reply>, i: nat, acc: seq<map<string, int>>)
    requires i <= |values|
    ensures Mapping(values, i, acc).Fail? ==>
              exists j :: i <= j < |values| &&
                ((values[j].asString.Err? && Mapping(values, i, acc).msg == values[j].asString.error) ||
                 (values[j].asInt.Err? && Mapping(values, i, acc).msg == values[j].asInt.error))
    decreases |values| - i
  {
    if i + 1 < |values| && values[i].asString.Ok? && values[i + 1].asInt.Ok? {
      MappingFails(values, i + 2, acc + [map[values[i].asString.value := values[i + 1].asInt.value]]);
    }
  }

  /** ZRevRange's mapping: the n-th map holds member 2n with score 2n+1. */
  lemma MappingMeaning(values: seq<Reply>)
    ensures Mapping(values, 0, []).Done? <==> Converts(values, 0) && |values| % 2 == 0
    ensures Mapping(values, 0, []).Done? ==> Mapping(values, 0, []).value == Paired(values, 0)
    ensures Mapping(values, 0, []).Panic? <==> Converts(values, 0) && |values| % 2 == 1
    ensures Mapping(values, 0, []).Fail? ==>
              exists j :: 0 <= j < |values| &&
                ((values[j].asString.Err? && Mapping(values, 0, []).msg == values[j].asString.error) ||
                 (values[j].asInt.Err? && Mapping(values, 0, []).msg == values[j].asInt.error))
  {
    MappingDone(values, 0, []);
    MappingPanics(values, 0, []);
    MappingFails(values, 0, []);
  }

  /** The redis entries of a request context (`gin.Context`). */
  class RedisContext {
    var conns: map<string, Conn>
    var txStart: Option<bool>
    var log: seq<Command>

    function State(): RedisState
      reads this
    {
      RedisState(conns, txStart, log)
    }

    /** A request with nothing stored. */
    constructor ()
      ensures State() == RedisState(map[], None, [])
    {
      conns, txStart, log := map[], None, [];
    }

    /** `isTxStart(c)`. */
    method IsTxStart() returns (b: bool)
      ensures b == TxStarted(State())
    {
      if txStart.Some? {
        return txStart.value;
      }
      return false;
    }

    /** `getConnection(c, key)`. */
    method GetConnection(key: string, pooled: Conn) returns (conn: Conn)
      modifies this
      ensures (State(), conn) == GetConnectionSpec(old(State()), key, pooled)
    {
      if key !in conns {
        conn := pooled;
        conns := conns[key := conn];
      } else {
        conn := conns[key];
      }
    }

    /** `conn.Send(name, args...)` or `conn.Do(name, args...)` on `conn`. */
    method Log(key: string, conn: Conn, name: string, args: seq<Value>)
      modifies this
      ensures State() == old(State()).(log := old(log) + [Command(key, conn, name, args)])
    {
      log := log + [Command(key, conn, name, args)];
    }

    /** `Multi(c)`. */
    method Multi(pooled: Conn, sendErr: Option<string>) returns (err: Option<string>)
      modifies this
      ensures (State(), err) == MultiSpec(old(State()), pooled, sendErr)
    {
      var started := IsTxStart();
      if started {
        return None;
      }
      var conn := GetConnection(WConn, pooled);
      Log(WConn, conn, "MULTI", []);
      if sendErr.Some? {
        return sendErr;
      }
      txStart := Some(true);
      return None;
    }

    /** `Exec(c)`. */
    method Exec(pooled: Conn, doReply: Value, doErr: Option<string>) returns (reply: Value, err: Option<string>)
      modifies this
      ensures (State(), reply, err) == ExecSpec(old(State()), pooled, doReply, doErr)
    {
      var started := IsTxStart();
      if !started {
        return Nil, None;
      }
      var conn := GetConnection(WConn, pooled);
      Log(WConn, conn, "EXEC", []);
      if doErr.Some? {
        return doReply, doErr;
      }
      txStart := Some(false);
      return doReply, None;
    }

    /** `Discard(c)`. */
    method Discard(pooled: Conn, doErr: Option<string>) returns (err: Option<string>)
      modifies this
      ensures (State(), err) == DiscardSpec(old(State()), pooled, doErr)
    {
      var started := IsTxStart();
      if !started {
        return None;
      }
      var conn := GetConnection(WConn, pooled);
      Log(WConn, conn, "DISCARD", []);
      if doErr.Some? {
        return doErr;
      }
      txStart := Some(false);
      return None;
    }

    /** `send(c, name, args...)`. */
    method Send(name: string, args: seq<Value>, pooled: Conn, multiErr: Option<string>, sendErr: Option<string>)
      returns (err: Option<string>)
      modifies this
      ensures (State(), err) == SendSpec(old(State()), name, args, pooled, multiErr, sendErr)
    {
      var started := IsTxStart();
      if !started {
        var _ := Multi(pooled, multiErr);
      }
      var conn := GetConnection(WConn, pooled);
      Log(WConn, conn, name, args);
      return sendErr;
    }

    /** `Exists(c, key, keys...)`. */
    method Exists(key: string, keys: seq<string>, pooled: Conn, reply: Result<int, string>) returns (r: Result<bool, string>)
      modifies this
      ensures (State(), r) == ExistsSpec(old(State()), key, keys, pooled, reply)
    {
      var conn := GetConnection(RConn, pooled);
      var keyArgs := [Str(key)];
      var i := 0;
      while i < |keys|
        invariant 0 <= i <= |keys|
        invariant |keyArgs| == 1 + i && keyArgs[0] == Str(key)
        invariant forall j :: 0 <= j < i ==> keyArgs[j + 1] == Str(keys[j])
      {
        keyArgs := keyArgs + [Str(keys[i])];
        i := i + 1;
      }
      assert keyArgs == ExistsArgs(key, keys);
      Log(RConn, conn, "EXISTS", keyArgs);
      if reply.Err? {
        return Err(reply.error);
      }
      var isExists := false;
      if reply.value == |keyArgs| {
        isExists := true;
      }
      return Ok(isExists);
    }

    /** `ZRevRange(c, key, start, stop)`. */
    method ZRevRange(key: string, start: int, stop: int, pooled: Conn, reply: Result<seq<Reply>, string>)
      returns (r: Outcome<seq<map<string, int>>>)
      modifies this
      ensures (State(), r) == ZRevRangeSpec(old(State()), key, start, stop, pooled, reply)
    {
      var conn := GetConnection(RConn, pooled);
      Log(RConn, conn, "ZREVRANGE", [Str(key), Int(start), Int(stop), Str("WITHSCORES")]);
      if reply.Err? {
        return Fail(reply.error);
      }
      var values := reply.value;
      var mapArray: seq<map<string, int>> := [];
      var i := 0;
      while i < |values|
        invariant 0 <= i <= |values|
        invariant Mapping(values, 0, []) == Mapping(values, i, mapArray)
        decreases |values| - i
      {
        if values[i].asString.Err? {
          return Fail(values[i].asString.error);
        }
        var str := values[i].asString.value;
        if i + 1 >= |values| {
          return Panic;
        }
        if values[i + 1].asInt.Err? {
          return Fail(values[i + 1].asInt.error);
        }
        var value := values[i + 1].asInt.value;
        mapArray := mapArray + [map[str := value]];
        i := i + 2;
      }
      return Done(mapArray);
    }
  }
}
