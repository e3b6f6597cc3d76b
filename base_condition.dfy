/** The condition language of the record executor (src/sample/model/base.go).
    A WHERE condition is a list of entries `{column, operator, value}` or
    `{column, operator, value, "AND"|"OR"}`; it becomes a predicate with `?`
    placeholders and the list of arguments for them. An ORDER BY condition is
    a list of `{column, direction}` pairs; each becomes "column direction". */
module BaseCondition {
  import opened Wrappers
  import opened GoValues
  import Strings
  import Weights

  const WhereConditionMin: nat := 3
  const WhereConditionMax: nat := 4
  const OrderCondition: nat := 2
  /** The comparison operators a WHERE entry may use. */
  const Compares: seq<string> := ["=", "<", ">", "<=", ">=", "IN", "LIKE"]

  /** The number of `?` placeholders in `s`. */
  function QCount(s: string): nat {
    Weights.Count(s, '?')
  }

  /** The placeholders summed over a list of tokens. */
  function SumQ(toks: seq<string>): nat
    decreases |toks|
  {
    if toks == [] then 0 else QCount(toks[0]) + SumQ(toks[1..])
  }

  /** "(?,?,...,?)" with `n` placeholders: the operand of an IN entry. */
  function InPlaceholders(n: nat): string {
    "(" + Strings.Join(Weights.Repeat("?", n), ",") + ")"
  }

  // ---------------------------------------------------------------------
  // WHERE

  /** Entry checks in the order the source makes them. */
  predicate HeadOk(cond: seq<Value>) {
    WhereConditionMin <= |cond| <= WhereConditionMax && cond[0].Str? && cond[1].Str? && cond[1].s in Compares
  }

  /** The operand can be read: an IN operand must have type `In`. */
  predicate OperandOk(cond: seq<Value>)
    requires |cond| >= WhereConditionMin
  {
    !(cond[1] == Str("IN") && !cond[2].InList?)
  }

  /** A fourth element is the string "AND" or "OR". */
  predicate ConnectorOk(cond: seq<Value>)
    requires |cond| >= WhereConditionMin
  {
    |cond| == WhereConditionMin || (cond[3].Str? && (cond[3].s == "AND" || cond[3].s == "OR"))
  }

  /** The connector to the next entry, AND when omitted. */
  function Connector(cond: seq<Value>): string
    requires |cond| >= WhereConditionMin
  {
    if |cond| == WhereConditionMax && cond[3].Str? then cond[3].s else "AND"
  }

  /** The arguments an entry contributes: the elements of an IN list, or
      the single value. */
  function ArgsOf(cond: seq<Value>): seq<Value>
    requires |cond| >= WhereConditionMin
  {
    if cond[1] == Str("IN") && cond[2].InList? then cond[2].items else [cond[2]]
  }

  lemma InPlaceholdersCount(n: nat)
    ensures QCount(InPlaceholders(n)) == n
  {
    var j := Strings.Join(Weights.Repeat("?", n), ",");
    JoinCount(Weights.Repeat("?", n), ",");
    SumQRepeat(n);
    Weights.CountAppend("(" + j, ")", '?');
    Weights.CountAppend("(", j, '?');
    assert Weights.Count("(", '?') == 0 && Weights.Count(")", '?') == 0 by {
      assert ""[..0] == "";
    }
  }

  /** The operand token and its arguments for a checked head; None when an
      IN operand is not of type `In` (the unchecked assertion panics). */
  function Operand(cond: seq<Value>): (r: Option<(string, seq<Value>)>)
    requires |cond| >= WhereConditionMin && cond[1].Str?
    ensures r.Some? <==> OperandOk(cond)
    ensures r.Some? ==> QCount(r.value.0) == |r.value.1| && r.value.1 == ArgsOf(cond)
  {
    if cond[1].s == "IN" then
      if cond[2].InList? then
        InPlaceholdersCount(|cond[2].items|);
        Some((InPlaceholders(|cond[2].items|), cond[2].items))
      else None
    else
      assert Weights.Count("?", '?') == 1 by {
        assert "?"[..0] == "";
      }
      Some(("?", [cond[2]]))
  }

  /** One WHERE entry: its tokens (column, operator, operand, then the
      connector unless it is the last entry) and its arguments. */
  function Entry(cond: seq<Value>, isLast: bool): Outcome<(seq<string>, seq<Value>)>
  {
    var length := |cond|;
    if !(WhereConditionMin <= length <= WhereConditionMax) then
      Fail("where condition length error!! : " + Strings.Itoa(length))
    else if !cond[0].Str? then Fail("syntax error : column is string only!!")
    else if !cond[1].Str? then Fail("syntax error : compare is string only!!")
    else if cond[1].s !in Compares then Fail("syntax error : this word can't use!! " + cond[1].s)
    else match Operand(cond)
      case None => Panic
      case Some((operand, args)) =>
        if length == WhereConditionMax && !cond[3].Str? then Fail("type error : this cond is and/or only!!")
        else if length == WhereConditionMax && cond[3].s != "AND" && cond[3].s != "OR" then
          Fail("syntax error : this cond is and/or only!!")
        else
          Done(([cond[0].s, cond[1].s, operand] + (if isLast then [] else [Connector(cond)]), args))
  }

  /** An entry is rejected with an error when its length is not 3 or 4,
      its column or operator is not a string, its operator is not one of
      `Compares`, or its connector is neither "AND" nor "OR"; an IN operand
      of another type panics. An accepted entry yields its column, its
      operator, an operand with one placeholder per argument and, unless it
      is the last entry, its connector. */
  lemma EntryShape(cond: seq<Value>, isLast: bool)
    ensures Entry(cond, isLast).Fail? <==> !HeadOk(cond) || (OperandOk(cond) && !ConnectorOk(cond))
    ensures Entry(cond, isLast).Panic? <==> HeadOk(cond) && !OperandOk(cond)
    ensures Entry(cond, isLast).Done? <==> EntryOk(cond)
    ensures Entry(cond, isLast).Done? ==>
              var (toks, args) := Entry(cond, isLast).value;
              |toks| == (if isLast then 3 else 4) && toks[0] == cond[0].s && toks[1] == cond[1].s &&
              toks[2] == Operand(cond).value.0 && args == Operand(cond).value.1 &&
              QCount(toks[2]) == |args| && args == ArgsOf(cond) &&
              (!isLast ==> toks[3] == Connector(cond))
  {
  }

  /** An entry passes every check. */
  predicate EntryOk(cond: seq<Value>) {
    HeadOk(cond) && OperandOk(cond) && ConnectorOk(cond)
  }

  /** The outcome of every entry; only the last one is told it is last. */
  function EntryOutcomes(conds: seq<seq<Value>>): seq<Outcome<(seq<string>, seq<Value>)>> {
    seq(|conds|, i requires 0 <= i < |conds| => Entry(conds[i], i == |conds| - 1))
  }

  /** The first `k` outcomes gathered: tokens and arguments concatenated,
      stopping at the first outcome that is not Done. */
  function Collect(es: seq<Outcome<(seq<string>, seq<Value>)>>, k: nat): Outcome<(seq<string>, seq<Value>)>
    requires k <= |es|
  {
    if k == 0 then Done(([], []))
    else
      var prev := Collect(es, k - 1);
      if !prev.Done? then prev
      else
        var e := es[k - 1];
        if !e.Done? then e else Done((prev.value.0 + e.value.0, prev.value.1 + e.value.1))
  }

  /** `whereSyntaxAnalyze`: the predicate, the tokens joined by single
      spaces, and the arguments. */
  function Where(v: Value): Outcome<(string, seq<Value>)> {
    if !v.WhereCond? then Fail("value is not where type!!")
    else
      var e := Collect(EntryOutcomes(v.rows), |v.rows|);
      if e.Done? then Done((Strings.Join(e.value.0, " "), e.value.1))
      else if e.Fail? then Fail(e.msg) else Panic
  }

  /** The arguments of all entries, in entry order. */
  function AllArgs(conds: seq<seq<Value>>): seq<Value>
    requires forall i :: 0 <= i < |conds| ==> |conds[i]| >= WhereConditionMin
    decreases |conds|
  {
    if conds == [] then [] else AllArgs(conds[..|conds| - 1]) + ArgsOf(conds[|conds| - 1])
  }

  // ---------------------------------------------------------------------
  // Lemmas about WHERE

  lemma {:induction false} SumQAppend(a: seq<string>, b: seq<string>)
    ensures SumQ(a + b) == SumQ(a) + SumQ(b)
    decreases |a|
  {
    if a != [] {
      assert (a + b)[1..] == a[1..] + b;
      SumQAppend(a[1..], b);
    } else {
      assert a + b == b;
    }
  }

  lemma {:induction false} SumQRepeat(n: nat)
    ensures SumQ(Weights.Repeat("?", n)) == n
    decreases n
  {
    if n > 0 {
      SumQRepeat(n - 1);
      SumQAppend(Weights.Repeat("?", n - 1), ["?"]);
      assert Weights.Count("?", '?') == 1 by {
        assert "?"[..0] == "";
      }
      assert SumQ(["?"]) == QCount("?") + SumQ([]);
    }
  }

  /** Joining with a separator free of `?` neither adds nor loses
      placeholders. */
  lemma {:induction false} JoinCount(parts: seq<string>, sep: string)
    requires QCount(sep) == 0
    ensures QCount(Strings.Join(parts, sep)) == SumQ(parts)
    decreases |parts|
  {
    if |parts| == 1 {
      assert parts[1..] == [];
    } else if |parts| > 1 {
      JoinCount(parts[1..], sep);
      var rest := Strings.Join(parts[1..], sep);
      Weights.CountAppend(parts[0] + sep, rest, '?');
      Weights.CountAppend(parts[0], sep, '?');
    }
  }

  /** Once an outcome is not Done, the later ones are not looked at. */
  lemma {:induction false} CollectStop(es: seq<Outcome<(seq<string>, seq<Value>)>>, k: nat, n: nat)
    requires k <= n <= |es|
    requires !Collect(es, k).Done?
    ensures Collect(es, n) == Collect(es, k)
    decreases n - k
  {
    if n > k {
      CollectStop(es, k, n - 1);
    }
  }

  /** Gathering succeeds exactly when every outcome is Done. */
  lemma {:induction false} CollectDone(es: seq<Outcome<(seq<string>, seq<Value>)>>, k: nat)
    requires k <= |es|
    ensures Collect(es, k).Done? <==> forall i :: 0 <= i < k ==> es[i].Done?
  {
    if k > 0 {
      CollectDone(es, k - 1);
    }
  }

  /** Gathering ends with the first outcome that is not Done. */
  lemma CollectFirstFailure(es: seq<Outcome<(seq<string>, seq<Value>)>>, index: nat)
    requires index < |es| && Collect(es, index).Done? && !es[index].Done?
    ensures Collect(es, |es|) == es[index]
  {
    CollectStop(es, index + 1, |es|);
  }

  /** A gathering that is not Done stopped at some outcome. */
  lemma {:induction false} CollectFirst(es: seq<Outcome<(seq<string>, seq<Value>)>>, k: nat)
    requires k <= |es| && !Collect(es, k).Done?
    ensures exists i :: 0 <= i < k && Collect(es, i).Done? && !es[i].Done?
  {
    if !Collect(es, k - 1).Done? {
      CollectFirst(es, k - 1);
    }
  }

  /** One more outcome: gathering either goes on or ends with it. */
  lemma CollectNext(es: seq<Outcome<(seq<string>, seq<Value>)>>, index: nat, e: Outcome<(seq<string>, seq<Value>)>)
    requires index < |es| && es[index] == e && Collect(es, index).Done?
    ensures e.Done? ==> Collect(es, index + 1) == Done((Collect(es, index).value.0 + e.value.0, Collect(es, index).value.1 + e.value.1))
    ensures !e.Done? ==> Collect(es, |es|) == e
  {
    if !e.Done? {
      CollectFirstFailure(es, index);
    }
  }

  /** An entry's outcome is Done exactly when it passes every check. */
  lemma EntryDoneIff(cond: seq<Value>, isLast: bool)
    ensures Entry(cond, isLast).Done? <==> EntryOk(cond)
  {
    EntryShape(cond, isLast);
  }

  /** The WHERE condition is accepted exactly when every entry passes all
      checks. */
  lemma WhereAccepted(conds: seq<seq<Value>>)
    ensures Where(WhereCond(conds)).Done? <==> forall i :: 0 <= i < |conds| ==> EntryOk(conds[i])
  {
    var es := EntryOutcomes(conds);
    CollectDone(es, |conds|);
    forall i | 0 <= i < |conds|
      ensures es[i].Done? <==> EntryOk(conds[i])
    {
      EntryDoneIff(conds[i], i == |conds| - 1);
    }
  }

  /** A rejected WHERE condition reports the first entry that does not
      pass: its error, or the panic of its IN operand. */
  lemma WhereRejected(conds: seq<seq<Value>>)
    requires !Where(WhereCond(conds)).Done?
    ensures exists i :: 0 <= i < |conds| && !EntryOk(conds[i]) &&
              (forall j :: 0 <= j < i ==> EntryOk(conds[j])) &&
              Where(WhereCond(conds)) ==
                (if Entry(conds[i], i == |conds| - 1).Fail? then Fail(Entry(conds[i], i == |conds| - 1).msg) else Panic)
  {
    var es := EntryOutcomes(conds);
    CollectFirst(es, |conds|);
    var i :| 0 <= i < |conds| && Collect(es, i).Done? && !es[i].Done?;
    CollectDone(es, i);
    CollectFirstFailure(es, i);
    forall j | 0 <= j <= i
      ensures es[j].Done? <==> EntryOk(conds[j])
    {
      EntryDoneIff(conds[j], j == |conds| - 1);
    }
    var e := es[i];
    assert Where(WhereCond(conds)) == (if e.Fail? then Fail(e.msg) else Panic);
  }

  /** The placeholders of an entry's three or four tokens. */
  lemma TokensCount(t: seq<string>)
    requires |t| == 3 || |t| == 4
    ensures SumQ(t) == QCount(t[0]) + QCount(t[1]) + QCount(t[2]) + (if |t| == 4 then QCount(t[3]) else 0)
  {
    var a := t[1..];
    var b := a[1..];
    var c := b[1..];
    assert SumQ(t) == QCount(t[0]) + SumQ(a);
    assert SumQ(a) == QCount(t[1]) + SumQ(b);
    assert SumQ(b) == QCount(t[2]) + SumQ(c);
    if |t| == 4 {
      assert c[1..] == [];
      assert SumQ(c) == QCount(t[3]) + SumQ(c[1..]);
    } else {
      assert c == [];
    }
  }

  lemma {:induction false} NoQ(s: string)
    requires forall i :: 0 <= i < |s| ==> s[i] != '?'
    ensures QCount(s) == 0
    decreases |s|
  {
    if s != [] {
      NoQ(s[..|s| - 1]);
    }
  }

  /** Operators and connectors hold no placeholder. */
  lemma OperatorsFree(cond: seq<Value>)
    requires HeadOk(cond) && ConnectorOk(cond)
    ensures QCount(cond[1].s) == 0 && QCount(Connector(cond)) == 0
  {
    forall op | op in Compares + ["AND", "OR"]
      ensures QCount(op) == 0
    {
      NoQ(op);
    }
    assert Connector(cond) in Compares + ["AND", "OR"];
    assert cond[1].s in Compares + ["AND", "OR"];
  }

  /** With a column name free of `?`, an accepted entry has one placeholder
      per argument. */
  lemma EntryPlaceholders(cond: seq<Value>, isLast: bool)
    requires |cond| >= 1 && cond[0].Str? ==> QCount(cond[0].s) == 0
    ensures Entry(cond, isLast).Done? ==>
              |cond| >= WhereConditionMin && Entry(cond, isLast).value.1 == ArgsOf(cond) &&
              SumQ(Entry(cond, isLast).value.0) == |Entry(cond, isLast).value.1|
  {
    EntryShape(cond, isLast);
    if Entry(cond, isLast).Done? {
      OperatorsFree(cond);
      TokensCount(Entry(cond, isLast).value.0);
    }
  }

  /** An accepted entry's outcome carries the entry's arguments and as many
      placeholders as arguments. */
  predicate ArgsAgree(e: Outcome<(seq<string>, seq<Value>)>, cond: seq<Value>) {
    e.Done? ==>
      |cond| >= WhereConditionMin && e.value.1 == ArgsOf(cond) && SumQ(e.value.0) == |e.value.1|
  }

  lemma AllArgsSnoc(conds: seq<seq<Value>>, k: nat)
    requires 0 < k <= |conds|
    requires forall i :: 0 <= i < k ==> |conds[i]| >= WhereConditionMin
    ensures AllArgs(conds[..k]) == AllArgs(conds[..k - 1]) + ArgsOf(conds[k - 1])
  {
    var pre := conds[..k];
    assert pre[..k - 1] == conds[..k - 1];
  }

  /** Gathered arguments come outcome by outcome, and placeholders add up. */
  lemma {:induction false} CollectArgs(es: seq<Outcome<(seq<string>, seq<Value>)>>, conds: seq<seq<Value>>, k: nat)
    requires k <= |es| == |conds|
    requires forall i :: 0 <= i < |es| ==> ArgsAgree(es[i], conds[i])
    requires Collect(es, k).Done?
    ensures forall i :: 0 <= i < k ==> |conds[i]| >= WhereConditionMin
    ensures Collect(es, k).value.1 == AllArgs(conds[..k])
    ensures SumQ(Collect(es, k).value.0) == |Collect(es, k).value.1|
  {
    if k > 0 {
      var n := k - 1;
      var prev := Collect(es, n);
      var e := es[n];
      assert prev.Done? && e.Done?;
      assert ArgsAgree(e, conds[n]);
      CollectArgs(es, conds, n);
      AllArgsSnoc(conds, k);
      SumQAppend(prev.value.0, e.value.0);
    }
  }

  /** The placeholders of an accepted predicate match its arguments one for
      one, and the arguments come entry by entry. */
  lemma WherePlaceholders(conds: seq<seq<Value>>)
    requires Where(WhereCond(conds)).Done?
    requires forall i :: 0 <= i < |conds| && |conds[i]| >= 1 && conds[i][0].Str? ==> QCount(conds[i][0].s) == 0
    ensures var (pred, args) := Where(WhereCond(conds)).value;
            (forall i :: 0 <= i < |conds| ==> |conds[i]| >= WhereConditionMin) &&
            args == AllArgs(conds) && QCount(pred) == |args|
  {
    var es := EntryOutcomes(conds);
    forall i | 0 <= i < |conds|
      ensures ArgsAgree(es[i], conds[i])
    {
      EntryPlaceholders(conds[i], i == |conds| - 1);
    }
    CollectArgs(es, conds, |conds|);
    assert conds[..|conds|] == conds;
    assert QCount(" ") == 0 by {
      assert " "[..0] == "";
    }
    JoinCount(Collect(es, |conds|).value.0, " ");
  }

  /** An accepted entry with a plain operand: its column, its operator,
      one placeholder and, unless it is last, its connector. */
  lemma EntryExample(cond: seq<Value>, isLast: bool, toks: seq<string>, args: seq<Value>)
    requires EntryOk(cond) && cond[1] != Str("IN")
    requires toks == [cond[0].s, cond[1].s, "?"] + (if isLast then [] else [Connector(cond)])
    requires args == [cond[2]]
    ensures Entry(cond, isLast) == Done((toks, args))
  {
    EntryShape(cond, isLast);
    var t := Entry(cond, isLast).value.0;
    assert |t| == |toks|;
    forall i | 0 <= i < |t|
      ensures t[i] == toks[i]
    {
    }
  }

  /** Gathering one or two Done outcomes. */
  lemma CollectSteps(es: seq<Outcome<(seq<string>, seq<Value>)>>, t0: seq<string>, a0: seq<Value>,
                     t1: seq<string>, a1: seq<Value>)
    requires |es| >= 1 && es[0] == Done((t0, a0))
    ensures Collect(es, 1) == Done((t0, a0))
    ensures |es| >= 2 && es[1] == Done((t1, a1)) ==> Collect(es, 2) == Done((t0 + t1, a0 + a1))
  {
    assert [] + t0 == t0 && [] + a0 == a0;
  }

  /** The second entry's tokens joined by single spaces. */
  lemma JoinSecond()
    ensures Strings.Join(["id", ">", "?"], " ") == "id > ?"
  {
    Strings.JoinCons(">", ["?"], " ");
    Strings.JoinCons("id", [">", "?"], " ");
    assert [">"] + ["?"] == [">", "?"] && ["id"] + [">", "?"] == ["id", ">", "?"];
  }

  /** The tokens of the example joined by single spaces. */
  lemma JoinExample()
    ensures Strings.Join(["id", "<=", "?", "OR", "id", ">", "?"], " ") == "id <= ? OR id > ?"
  {
    var t3 := ["id", ">", "?"];
    var t2 := ["OR"] + t3;
    var t1 := ["?"] + t2;
    var t0 := ["<="] + t1;
    JoinSecond();
    Strings.JoinCons("OR", t3, " ");
    Strings.JoinCons("?", t2, " ");
    Strings.JoinCons("<=", t1, " ");
    Strings.JoinCons("id", t0, " ");
    assert ["id"] + t0 == ["id", "<=", "?", "OR", "id", ">", "?"];
    assert "id" + " " + ("<=" + " " + ("?" + " " + ("OR" + " " + "id > ?"))) == "id <= ? OR id > ?";
  }

  /** The example's first entry keeps its connector. */
  lemma FirstEntryExample()
    ensures Entry([Str("id"), Str("<="), Int(1), Str("OR")], false) == Done((["id", "<=", "?", "OR"], [Int(1)]))
  {
    var c0 := [Str("id"), Str("<="), Int(1), Str("OR")];
    assert c0[1].s in Compares;
    assert Connector(c0) == "OR";
    EntryExample(c0, false, ["id", "<=", "?", "OR"], [Int(1)]);
  }

  /** The example's last entry has no connector. */
  lemma SecondEntryExample()
    ensures Entry([Str("id"), Str(">"), Int(2)], true) == Done((["id", ">", "?"], [Int(2)]))
  {
    var c1 := [Str("id"), Str(">"), Int(2)];
    assert c1[1].s in Compares;
    EntryExample(c1, true, ["id", ">", "?"], [Int(2)]);
  }

  /** The connector of the first entry sits between the two entries, the
      last entry has none, and the tokens are joined by single spaces. */
  lemma WhereExample()
    ensures Where(WhereCond([[Str("id"), Str("<="), Int(1), Str("OR")], [Str("id"), Str(">"), Int(2)]])) ==
              Done(("id <= ? OR id > ?", [Int(1), Int(2)]))
  {
    var conds := [[Str("id"), Str("<="), Int(1), Str("OR")], [Str("id"), Str(">"), Int(2)]];
    var es := EntryOutcomes(conds);
    var t0 := ["id", "<=", "?", "OR"];
    var t1 := ["id", ">", "?"];
    FirstEntryExample();
    SecondEntryExample();
    assert |es| == 2 && es[0] == Done((t0, [Int(1)])) && es[1] == Done((t1, [Int(2)]));
    CollectSteps(es, t0, [Int(1)], t1, [Int(2)]);
    assert t0 + t1 == ["id", "<=", "?", "OR", "id", ">", "?"];
    assert [Int(1)] + [Int(2)] == [Int(1), Int(2)];
    JoinExample();
  }

  /** The search of `compare` among the operators. */
  method FindCompare(compare: string) returns (isFind: bool)
    ensures isFind <==> compare in Compares
  {
    isFind := false;
    var j := 0;
    while j < |Compares|
      invariant 0 <= j <= |Compares|
      invariant isFind ==> compare in Compares
      invariant !isFind ==> compare !in Compares[..j]
    {
      if compare == Compares[j] {
        isFind := true;
        break;
      }
      j := j + 1;
    }
    assert !isFind ==> Compares[..j] == Compares;
  }

  /** An IN operand: one placeholder per element, the elements as
      arguments. */
  method InOperand(ifs: seq<Value>) returns (operand: string, args: seq<Value>)
    ensures QCount(operand) == |ifs| && args == ifs
    ensures operand == InPlaceholders(|ifs|)
  {
    var phs: seq<string> := [];
    args := [];
    var k := 0;
    while k < |ifs|
      invariant 0 <= k <= |ifs|
      invariant phs == Weights.Repeat("?", k)
      invariant args == ifs[..k]
    {
      phs := phs + ["?"];
      args := args + [ifs[k]];
      k := k + 1;
    }
    assert ifs[..k] == ifs;
    operand := "(" + Strings.Join(phs, ",") + ")";
    InPlaceholdersCount(|ifs|);
  }

  /** The body of `whereSyntaxAnalyze`'s loop for one entry: the length,
      column and operator checks, then the rest. */
  method AnalyzeEntry(cond: seq<Value>, isLast: bool) returns (r: Outcome<(seq<string>, seq<Value>)>)
    ensures r == Entry(cond, isLast)
  {
    var length := |cond|;
    if !(WhereConditionMin <= length <= WhereConditionMax) {
      return Fail("where condition length error!! : " + Strings.Itoa(length));
    }
    if !cond[0].Str? {
      return Fail("syntax error : column is string only!!");
    }
    if !cond[1].Str? {
      return Fail("syntax error : compare is string only!!");
    }
    var compare := cond[1].s;
    var isFind := FindCompare(compare);
    if !isFind {
      return Fail("syntax error : this word can't use!! " + compare);
    }
    r := AnalyzeOperand(cond, isLast);
  }

  /** The rest of the loop body once the column and operator are known:
      the operand and its arguments, then the connector. */
  method AnalyzeOperand(cond: seq<Value>, isLast: bool) returns (r: Outcome<(seq<string>, seq<Value>)>)
    requires HeadOk(cond)
    ensures r == Entry(cond, isLast)
  {
    var length := |cond|;
    var sentence := [cond[0].s, cond[1].s];
    var args: seq<Value>;
    var operand: string;
    if cond[1].s == "IN" {
      if !cond[2].InList? {
        return Panic;
      }
      operand, args := InOperand(cond[2].items);
    } else {
      args := [cond[2]];
      operand := "?";
    }
    assert Operand(cond) == Some((operand, args));
    sentence := sentence + [operand];
    var andOr := "AND";
    if length == WhereConditionMax {
      if !cond[3].Str? {
        return Fail("type error : this cond is and/or only!!");
      }
      var c := cond[3].s;
      if c != "AND" && c != "OR" {
        return Fail("syntax error : this cond is and/or only!!");
      }
      andOr := c;
    }
    assert andOr == Connector(cond);
    if !isLast {
      sentence := sentence + [andOr];
    }
    assert sentence == [cond[0].s, cond[1].s, operand] + (if isLast then [] else [Connector(cond)]);
    return Done((sentence, args));
  }

  /** `whereSyntaxAnalyze`, entry by entry. */
  method WhereSyntaxAnalyze(i: Value) returns (r: Outcome<(string, seq<Value>)>)
    ensures r == Where(i)
  {
    if !i.WhereCond? {
      return Fail("value is not where type!!");
    }
    var conds := i.rows;
    ghost var es := EntryOutcomes(conds);
    var lastIndex := |conds| - 1;
    var allSentence: seq<string> := [];
    var args: seq<Value> := [];
    var index := 0;
    while index < |conds|
      invariant 0 <= index <= |conds|
      invariant Collect(es, index) == Done((allSentence, args))
    {
      var e := AnalyzeEntry(conds[index], index == lastIndex);
      CollectNext(es, index, e);
      if !e.Done? {
        return if e.Fail? then Fail(e.msg) else Panic;
      }
      allSentence := allSentence + e.value.0;
      args := args + e.value.1;
      index := index + 1;
    }
    assert Collect(es, |conds|) == Done((allSentence, args));
    return Done((Strings.Join(allSentence, " "), args));
  }

  // ---------------------------------------------------------------------
  // ORDER BY

  /** The first `k` ORDER BY entries, each "column direction", stopping at
      the first with a length other than two; the direction is not
      checked. */
  function OrderRows(rows: seq<seq<string>>, k: nat): Outcome<seq<string>>
    requires k <= |rows|
  {
    if k == 0 then Done([])
    else
      var prev := OrderRows(rows, k - 1);
      if !prev.Done? then prev
      else if |rows[k - 1]| != OrderCondition then Fail("order condition length error!! : " + Strings.Itoa(|rows[k - 1]|))
      else Done(prev.value + [Strings.Join(rows[k - 1], " ")])
  }

  /** `orderSyntaxAnalyze`. */
  function OrderBy(v: Value): Outcome<seq<string>> {
    if !v.OrderCond? then Fail("value is not where type!!") else OrderRows(v.orders, |v.orders|)
  }

  lemma {:induction false} OrderRowsStop(rows: seq<seq<string>>, k: nat, n: nat)
    requires k <= n <= |rows| && !OrderRows(rows, k).Done?
    ensures OrderRows(rows, n) == OrderRows(rows, k)
    decreases n - k
  {
    if n > k {
      OrderRowsStop(rows, k, n - 1);
    }
  }

  /** An ORDER BY condition never panics; it is accepted exactly when every
      entry has two elements, and then yields one "column direction" per
      entry. Otherwise it reports the length of the first other entry. */
  lemma {:induction false} OrderRowsCorrect(rows: seq<seq<string>>, k: nat)
    requires k <= |rows|
    ensures var r := OrderRows(rows, k);
            !r.Panic? &&
            (r.Done? <==> forall i :: 0 <= i < k ==> |rows[i]| == OrderCondition) &&
            (r.Done? ==> |r.value| == k && forall i :: 0 <= i < k ==> r.value[i] == rows[i][0] + " " + rows[i][1]) &&
            (r.Fail? ==> exists i :: 0 <= i < k && |rows[i]| != OrderCondition &&
                                     (forall j :: 0 <= j < i ==> |rows[j]| == OrderCondition) &&
                                     r.msg == "order condition length error!! : " + Strings.Itoa(|rows[i]|))
  {
    if k > 0 {
      OrderRowsCorrect(rows, k - 1);
      var prev := OrderRows(rows, k - 1);
      var row := rows[k - 1];
      if prev.Done? && |row| == OrderCondition {
        assert Strings.Join(row, " ") == row[0] + " " + row[1] by {
          assert row[1..][1..] == [];
        }
      } else if prev.Done? {
        assert 0 <= k - 1 < k && |rows[k - 1]| != OrderCondition;
      }
    }
  }

  method OrderSyntaxAnalyze(i: Value) returns (r: Outcome<seq<string>>)
    ensures r == OrderBy(i)
  {
    if !i.OrderCond? {
      return Fail("value is not where type!!");
    }
    var conds := i.orders;
    var orders: seq<string> := [];
    var index := 0;
    while index < |conds|
      invariant 0 <= index <= |conds|
      invariant OrderRows(conds, index) == Done(orders)
    {
      var cond := conds[index];
      if |cond| != OrderCondition {
        OrderRowsStop(conds, index + 1, |conds|);
        return Fail("order condition length error!! : " + Strings.Itoa(|cond|));
      }
      orders := orders + [Strings.Join(cond, " ")];
      index := index + 1;
    }
    return Done(orders);
  }

  // ---------------------------------------------------------------------
  // conditionCheck

  /** The analysed condition: WHERE predicate and arguments, ORDER BY list. */
  datatype Conditions = Conditions(whereSql: string, whereArgs: seq<Value>, orders: seq<string>)

  /** The loop state of `conditionCheck`: the results so far and `err`. */
  datatype CondState = CondState(conds: Conditions, err: Option<string>)

  const NoConditions: CondState := CondState(Conditions("", [], []), None)

  /** One key of the condition map, given the outcomes `w` and `o` of
      analysing the values under "where" and "order". As written, a
      successful analysis assigns nil to `err`; `keepErr` keeps the earlier
      error instead. */
  function CondStep(st: CondState, k: string, w: Outcome<(string, seq<Value>)>, o: Outcome<seq<string>>,
                    keepErr: bool): Outcome<CondState>
  {
    var err := if keepErr then st.err else None;
    if k == "where" then
      if w.Done? then Done(CondState(st.conds.(whereSql := w.value.0, whereArgs := w.value.1), err))
      else if w.Fail? then Fail(w.msg) else Panic
    else if k == "order" then
      if o.Done? then Done(CondState(st.conds.(orders := o.value), err))
      else if o.Fail? then Fail(o.msg) else Panic
    else Done(st.(err := Some("invalid condition type!!")))
  }

  /** The loop over the first `n` keys in iteration order. */
  function CondFold(keys: seq<string>, w: Outcome<(string, seq<Value>)>, o: Outcome<seq<string>>,
                    n: nat, keepErr: bool): Outcome<CondState>
    requires n <= |keys|
  {
    if n == 0 then Done(NoConditions)
    else
      var prev := CondFold(keys, w, o, n - 1, keepErr);
      if prev.Done? then CondStep(prev.value, keys[n - 1], w, o, keepErr) else prev
  }

  /** The analysis of the value under "where"; only consulted when the key
      is present. */
  function WhereOf(condition: map<string, Value>): Outcome<(string, seq<Value>)> {
    if "where" in condition then Where(condition["where"]) else Done(("", []))
  }

  /** The analysis of the value under "order"; only consulted when the key
      is present. */
  function OrderOf(condition: map<string, Value>): Outcome<seq<string>> {
    if "order" in condition then OrderBy(condition["order"]) else Done([])
  }

  function Finish(o: Outcome<CondState>): Outcome<Conditions> {
    if o.Done? then (if o.value.err.Some? then Fail(o.value.err.value) else Done(o.value.conds))
    else if o.Fail? then Fail(o.msg) else Panic
  }

  /** `conditionCheck` as written, for one iteration order of the map. */
  function ConditionCheckAsWritten(condition: map<string, Value>, order: seq<string>): Outcome<Conditions>
    requires IsKeyOrder(order, condition.Keys)
  {
    Finish(CondFold(order, WhereOf(condition), OrderOf(condition), |order|, false))
  }

  /** `conditionCheck` as intended: an unknown key is an error in every
      iteration order. */
  function ConditionCheck(condition: map<string, Value>, order: seq<string>): Outcome<Conditions>
    requires IsKeyOrder(order, condition.Keys)
  {
    Finish(CondFold(order, WhereOf(condition), OrderOf(condition), |order|, true))
  }

  /** The map loop of `conditionCheck` as written. */
  method AnalyzeConditions(condition: map<string, Value>, order: seq<string>) returns (r: Outcome<Conditions>)
    requires IsKeyOrder(order, condition.Keys)
    ensures r == ConditionCheckAsWritten(condition, order)
  {
    ghost var w, o := WhereOf(condition), OrderOf(condition);
    var st := NoConditions;
    var i := 0;
    while i < |order|
      invariant 0 <= i <= |order|
      invariant CondFold(order, w, o, i, false) == Done(st)
    {
      var next := AnalyzeKey(condition, order[i], st);
      CondFoldNext(order, w, o, i, false);
      if !next.Done? {
        CondFoldStop(order, w, o, i + 1, |order|, false);
        return if next.Fail? then Fail(next.msg) else Panic;
      }
      st := next.value;
      i := i + 1;
    }
    return if st.err.Some? then Fail(st.err.value) else Done(st.conds);
  }

  /** One iteration of the loop of `conditionCheck`, for the key `k`. */
  method AnalyzeKey(condition: map<string, Value>, k: string, st: CondState) returns (r: Outcome<CondState>)
    requires k in condition
    ensures r == CondStep(st, k, WhereOf(condition), OrderOf(condition), false)
  {
    var v := condition[k];
    if k == "where" {
      var res := WhereSyntaxAnalyze(v);
      if !res.Done? {
        return if res.Fail? then Fail(res.msg) else Panic;
      }
      return Done(CondState(st.conds.(whereSql := res.value.0, whereArgs := res.value.1), None));
    } else if k == "order" {
      var res := OrderSyntaxAnalyze(v);
      if !res.Done? {
        return if res.Fail? then Fail(res.msg) else Panic;
      }
      return Done(CondState(st.conds.(orders := res.value), None));
    }
    return Done(st.(err := Some("invalid condition type!!")));
  }

  lemma CondFoldNext(keys: seq<string>, w: Outcome<(string, seq<Value>)>, o: Outcome<seq<string>>,
                     k: nat, keepErr: bool)
    requires k < |keys| && CondFold(keys, w, o, k, keepErr).Done?
    ensures CondFold(keys, w, o, k + 1, keepErr) == CondStep(CondFold(keys, w, o, k, keepErr).value, keys[k], w, o, keepErr)
  {
  }

  lemma {:induction false} CondFoldStop(keys: seq<string>, w: Outcome<(string, seq<Value>)>, o: Outcome<seq<string>>,
                                        k: nat, n: nat, keepErr: bool)
    requires k <= n <= |keys|
    requires !CondFold(keys, w, o, k, keepErr).Done?
    ensures CondFold(keys, w, o, n, keepErr) == CondFold(keys, w, o, k, keepErr)
    decreases n - k
  {
    if n > k {
      CondFoldStop(keys, w, o, k, n - 1, keepErr);
    }
  }

  /** The loop runs to the end exactly when every "where" and "order" key
      it meets analyses without error. */
  lemma {:induction false} CondFoldDone(keys: seq<string>, w: Outcome<(string, seq<Value>)>, o: Outcome<seq<string>>,
                                        n: nat, keepErr: bool)
    requires n <= |keys|
    ensures CondFold(keys, w, o, n, keepErr).Done? <==>
              forall j :: 0 <= j < n ==> (keys[j] == "where" ==> w.Done?) && (keys[j] == "order" ==> o.Done?)
  {
    if n > 0 {
      CondFoldDone(keys, w, o, n - 1, keepErr);
    }
  }

  /** A completed loop holds the analysis of "where" if that key was met,
      and of "order" if that key was met; otherwise the empty values. */
  lemma {:induction false} CondFoldValues(keys: seq<string>, w: Outcome<(string, seq<Value>)>, o: Outcome<seq<string>>,
                                          n: nat, keepErr: bool)
    requires n <= |keys| && CondFold(keys, w, o, n, keepErr).Done?
    ensures var c := CondFold(keys, w, o, n, keepErr).value.conds;
            ("where" in keys[..n] ==> w.Done? && (c.whereSql, c.whereArgs) == w.value) &&
            ("where" !in keys[..n] ==> c.whereSql == "" && c.whereArgs == []) &&
            ("order" in keys[..n] ==> o.Done? && c.orders == o.value) &&
            ("order" !in keys[..n] ==> c.orders == [])
  {
    if n > 0 {
      CondFoldValues(keys, w, o, n - 1, keepErr);
      assert keys[..n] == keys[..n - 1] + [keys[n - 1]];
    }
  }

  /** As written, a completed loop reports an error exactly when the last
      key it met is neither "where" nor "order": every successful analysis
      clears the error of the keys before it. */
  lemma CondFoldErrAsWritten(keys: seq<string>, w: Outcome<(string, seq<Value>)>, o: Outcome<seq<string>>, n: nat)
    requires n <= |keys| && CondFold(keys, w, o, n, false).Done?
    ensures CondFold(keys, w, o, n, false).value.err.Some? <==> n > 0 && keys[n - 1] != "where" && keys[n - 1] != "order"
  {
  }

  /** Keeping the error, a completed loop reports one exactly when some key
      is neither "where" nor "order". */
  lemma {:induction false} CondFoldErrKept(keys: seq<string>, w: Outcome<(string, seq<Value>)>, o: Outcome<seq<string>>, n: nat)
    requires n <= |keys| && CondFold(keys, w, o, n, true).Done?
    ensures CondFold(keys, w, o, n, true).value.err.Some? <==>
              exists j :: 0 <= j < n && keys[j] != "where" && keys[j] != "order"
  {
    if n > 0 {
      CondFoldErrKept(keys, w, o, n - 1);
      if keys[n - 1] != "where" && keys[n - 1] != "order" {
        assert 0 <= n - 1 < n && keys[n - 1] != "where" && keys[n - 1] != "order";
      }
    }
  }

  /** As written, whether an unknown key is reported depends on the
      iteration order: a WHERE condition analysed after it clears the
      error. */
  lemma ConditionCheckDropsInvalidKey()
    ensures var c := map["x" := Int(1), "where" := WhereCond([[Str("id"), Str("="), Int(1)]])];
            IsKeyOrder(["x", "where"], c.Keys) && IsKeyOrder(["where", "x"], c.Keys) &&
            ConditionCheckAsWritten(c, ["x", "where"]) == Done(Conditions("id = ?", [Int(1)], [])) &&
            ConditionCheckAsWritten(c, ["where", "x"]) == Fail("invalid condition type!!")
  {
    var c0 := [Str("id"), Str("="), Int(1)];
    var e0 := Done((["id", "=", "?"], [Int(1)]));
    assert Compares[0] == "=";
    EntryExample(c0, true, e0.value.0, e0.value.1);
    var es := EntryOutcomes([c0]);
    assert es == [e0];
    CollectSteps(es, e0.value.0, e0.value.1, [], []);
    assert Strings.Join(["id", "=", "?"], " ") == "id = ?" by {
      assert ["id", "=", "?"][1..][1..] == ["?"];
    }
    var c := map["x" := Int(1), "where" := WhereCond([c0])];
    assert WhereOf(c) == Done(("id = ?", [Int(1)]));
    assert OrderOf(c) == Done([]);
    assert IsKeyOrder(["x", "where"], c.Keys) by {
      assert forall k :: k in ["x", "where"] <==> k == "x" || k == "where";
    }
    assert IsKeyOrder(["where", "x"], c.Keys) by {
      assert forall k :: k in ["where", "x"] <==> k == "x" || k == "where";
    }
  }

  /** The intended `conditionCheck` accepts a condition exactly when every
      key is "where" or "order" and each analysis succeeds, and then its
      result is the same in every iteration order. */
  lemma ConditionCheckCorrect(condition: map<string, Value>, order: seq<string>)
    requires IsKeyOrder(order, condition.Keys)
    ensures ConditionCheck(condition, order).Done? <==>
              (forall k :: k in condition ==> k == "where" || k == "order") &&
              ("where" in condition ==> Where(condition["where"]).Done?) &&
              ("order" in condition ==> OrderBy(condition["order"]).Done?)
    ensures ConditionCheck(condition, order).Done? ==>
              ConditionCheck(condition, order).value ==
                Conditions(if "where" in condition then Where(condition["where"]).value.0 else "",
                           if "where" in condition then Where(condition["where"]).value.1 else [],
                           if "order" in condition then OrderBy(condition["order"]).value else [])
  {
    var w, o, n := WhereOf(condition), OrderOf(condition), |order|;
    CondFoldDone(order, w, o, n, true);
    assert order[..n] == order;
    var r := CondFold(order, w, o, n, true);
    if r.Done? {
      CondFoldValues(order, w, o, n, true);
      CondFoldErrKept(order, w, o, n);
      if exists k :: k in condition && k != "where" && k != "order" {
        var k :| k in condition && k != "where" && k != "order";
        assert k in condition.Keys;
        var j :| 0 <= j < n && order[j] == k;
        assert r.value.err.Some?;
      } else {
        forall j | 0 <= j < n
          ensures order[j] == "where" || order[j] == "order"
        {
          assert order[j] in order;
        }
        assert r.value.err.None?;
      }
      assert "where" in condition <==> "where" in order by {
        assert "where" in condition <==> "where" in condition.Keys;
      }
      assert "order" in condition <==> "order" in order by {
        assert "order" in condition <==> "order" in condition.Keys;
      }
    } else {
      var j :| 0 <= j < n && !((order[j] == "where" ==> w.Done?) && (order[j] == "order" ==> o.Done?));
      assert order[j] in condition;
    }
  }

  /** As written, a condition whose analyses succeed is rejected exactly
      when the last key in iteration order is neither "where" nor "order". */
  lemma ConditionCheckAsWrittenErr(condition: map<string, Value>, order: seq<string>)
    requires IsKeyOrder(order, condition.Keys)
    requires ("where" in condition ==> Where(condition["where"]).Done?) &&
             ("order" in condition ==> OrderBy(condition["order"]).Done?)
    ensures ConditionCheckAsWritten(condition, order).Fail? <==>
              |order| > 0 && order[|order| - 1] != "where" && order[|order| - 1] != "order"
  {
    var w, o, n := WhereOf(condition), OrderOf(condition), |order|;
    CondFoldDone(order, w, o, n, false);
    CondFoldErrAsWritten(order, w, o, n);
  }
}
