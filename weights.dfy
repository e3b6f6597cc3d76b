/** Weighted lists: the flattening shared by the replica ("slave") weight list
    of the coordinator and the shard weight list of user_shard_weight. Each
    row `(x, w)` contributes `x` repeated `w` times (none when `w <= 0`, as a
    Go `for i := 0; i < w; i++` loop does), rows in order. */
module Weights {

  /** `x` repeated `n` times. */
  function Repeat<T>(x: T, n: int): (r: seq<T>)
    ensures |r| == if n > 0 then n else 0
    ensures forall i :: 0 <= i < |r| ==> r[i] == x
    decreases n
  {
    if n <= 0 then [] else Repeat(x, n - 1) + [x]
  }

  /** The flattened list, built row by row from the left. */
  function Expand<T>(rows: seq<(T, int)>): seq<T>
    decreases |rows|
  {
    if rows == [] then []
    else Expand(rows[..|rows| - 1]) + Repeat(rows[|rows| - 1].0, rows[|rows| - 1].1)
  }

  /** Slave weights as rows: row `i` is `(i, weights[i])`. */
  function Indexed(weights: seq<int>): (r: seq<(int, int)>)
    ensures |r| == |weights|
    ensures forall i :: 0 <= i < |r| ==> r[i] == (i, weights[i])
  {
    seq(|weights|, i requires 0 <= i < |weights| => (i, weights[i]))
  }

  /** The number of times `x` occurs in `s`. */
  function Count<T(==)>(s: seq<T>, x: T): nat
    decreases |s|
  {
    if s == [] then 0 else Count(s[..|s| - 1], x) + (if s[|s| - 1] == x then 1 else 0)
  }

  /** The total positive weight the rows give to `x`. */
  function WeightOf<T(==)>(rows: seq<(T, int)>, x: T): nat
    decreases |rows|
  {
    if rows == [] then 0
    else
      var last := rows[|rows| - 1];
      WeightOf(rows[..|rows| - 1], x) + (if last.0 == x && last.1 > 0 then last.1 else 0)
  }

  lemma {:induction false} CountAppend<T>(a: seq<T>, b: seq<T>, x: T)
    ensures Count(a + b, x) == Count(a, x) + Count(b, x)
    decreases |b|
  {
    if b != [] {
      assert (a + b)[..|a + b| - 1] == a + b[..|b| - 1];
      CountAppend(a, b[..|b| - 1], x);
    } else {
      assert a + b == a;
    }
  }

  lemma {:induction false} CountRepeat<T>(y: T, n: int, x: T)
    ensures Count(Repeat(y, n), x) == if y == x && n > 0 then n else 0
    decreases n
  {
    if n > 0 {
      CountRepeat(y, n - 1, x);
      CountAppend(Repeat(y, n - 1), [y], x);
      assert Count([y], x) == Count([y][..0], x) + (if y == x then 1 else 0);
    }
  }

  /** In the flattened list each value occurs exactly as often as its total
      positive weight. */
  lemma {:induction false} ExpandCount<T>(rows: seq<(T, int)>, x: T)
    ensures Count(Expand(rows), x) == WeightOf(rows, x)
    decreases |rows|
  {
    if rows != [] {
      var last := rows[|rows| - 1];
      ExpandCount(rows[..|rows| - 1], x);
      CountAppend(Expand(rows[..|rows| - 1]), Repeat(last.0, last.1), x);
      CountRepeat(last.0, last.1, x);
    }
  }

  /** Flattening keeps row order: the list of a concatenation is the
      concatenation of the lists. */
  lemma {:induction false} ExpandAppend<T>(a: seq<(T, int)>, b: seq<(T, int)>)
    ensures Expand(a + b) == Expand(a) + Expand(b)
    decreases |b|
  {
    if b == [] {
      assert a + b == a;
    } else {
      assert (a + b)[..|a + b| - 1] == a + b[..|b| - 1];
      ExpandAppend(a, b[..|b| - 1]);
    }
  }

  /** A value is in the flattened list iff some row carries it with a
      positive weight. */
  lemma {:induction false} ExpandMember<T>(rows: seq<(T, int)>, x: T)
    ensures x in Expand(rows) <==> exists i :: 0 <= i < |rows| && rows[i].0 == x && rows[i].1 > 0
    decreases |rows|
  {
    if rows != [] {
      var init := rows[..|rows| - 1];
      var last := rows[|rows| - 1];
      ExpandMember(init, x);
      var rep := Repeat(last.0, last.1);
      assert Expand(rows) == Expand(init) + rep;
      assert x in rep <==> last.0 == x && last.1 > 0 by {
        if last.0 == x && last.1 > 0 {
          assert rep[0] == x;
        }
      }
      assert x in Expand(rows) <==> x in Expand(init) || x in rep;
      assert forall i :: 0 <= i < |init| ==> rows[i] == init[i];
      if x in Expand(init) {
        var i :| 0 <= i < |init| && init[i].0 == x && init[i].1 > 0;
        assert rows[i].0 == x && rows[i].1 > 0;
      }
    }
  }

  lemma {:induction false} WeightOfIndexed(weights: seq<int>, k: int)
    requires 0 <= k < |weights|
    ensures WeightOf(Indexed(weights), k) == if weights[k] > 0 then weights[k] else 0
    decreases |weights|
  {
    var n := |weights|;
    assert Indexed(weights)[..n - 1] == Indexed(weights[..n - 1]);
    if k < n - 1 {
      WeightOfIndexed(weights[..n - 1], k);
    } else {
      WeightOfNone(Indexed(weights[..n - 1]), k);
    }
  }

  lemma {:induction false} WeightOfNone(rows: seq<(int, int)>, k: int)
    requires forall i :: 0 <= i < |rows| ==> rows[i].0 < k
    ensures WeightOf(rows, k) == 0
    decreases |rows|
  {
    if rows != [] {
      WeightOfNone(rows[..|rows| - 1], k);
    }
  }

  /** The replica list holds replica index `k` exactly `weights[k]` times
      (none for a weight <= 0). */
  lemma SlaveCount(weights: seq<int>, k: int)
    requires 0 <= k < |weights|
    ensures Count(Expand(Indexed(weights)), k) == if weights[k] > 0 then weights[k] else 0
  {
    ExpandCount(Indexed(weights), k);
    WeightOfIndexed(weights, k);
  }

  /** `1, 2, ..., n`: the shard ids the coordinator builds from the shard
      count. */
  function ShardRange(n: int): (r: seq<int>)
    ensures |r| == if n > 0 then n else 0
    ensures forall i :: 0 <= i < |r| ==> r[i] == i + 1
    decreases n
  {
    if n <= 0 then [] else ShardRange(n - 1) + [n]
  }
}
