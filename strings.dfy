/** The pieces of Go's standard library that the core relies on:
    `strings.Join`, `strings.Split` (with a non-empty separator),
    `strings.ToLower` (restricted to ASCII letters) and `strconv.Itoa`. */
module Strings {

  /** `strings.Join(parts, sep)`: the parts separated by `sep`, nothing before
      the first or after the last. */
  function Join(parts: seq<string>, sep: string): string
    decreases |parts|
  {
    if |parts| == 0 then ""
    else if |parts| == 1 then parts[0]
    else parts[0] + sep + Join(parts[1..], sep)
  }

  /** `sep` occurs in `s` starting at index `i`. */
  predicate OccursAt(s: string, sep: string, i: int) {
    0 <= i && i + |sep| <= |s| && s[i..i + |sep|] == sep
  }

  /** `strings.Index(s, sep)`: the first index where `sep` occurs, or -1. */
  function IndexOf(s: string, sep: string): (r: int)
    requires |sep| > 0
    ensures r == -1 || 0 <= r <= |s| - |sep|
    decreases |s|
  {
    if |s| < |sep| then -1
    else if s[..|sep|] == sep then 0
    else
      var j := IndexOf(s[1..], sep);
      if j < 0 then -1 else j + 1
  }

  /** `strings.Split(s, sep)`: the pieces between the non-overlapping
      occurrences of `sep`, scanned from the left. */
  function Split(s: string, sep: string): (r: seq<string>)
    requires |sep| > 0
    ensures |r| >= 1
    decreases |s|
  {
    var i := IndexOf(s, sep);
    if i < 0 then [s] else [s[..i]] + Split(s[i + |sep|..], sep)
  }

  /** `unicode.ToLower` on the ASCII range. */
  function LowerChar(c: char): char {
    if 'A' <= c <= 'Z' then (c as int + 32) as char else c
  }

  /** `strings.ToLower`, letter by letter. */
  function ToLower(s: string): (r: string)
    ensures |r| == |s|
  {
    seq(|s|, i requires 0 <= i < |s| => LowerChar(s[i]))
  }

  /** The decimal digits of `n`, most significant first. */
  function NatToString(n: nat): (r: string)
    ensures |r| >= 1
    ensures forall i :: 0 <= i < |r| ==> '0' <= r[i] <= '9'
    decreases n
  {
    var d := ['0' + (n % 10) as char];
    if n < 10 then d else NatToString(n / 10) + d
  }

  /** `strconv.Itoa`. */
  function Itoa(n: int): string {
    if n < 0 then "-" + NatToString(-n) else NatToString(n)
  }

  lemma OccursShift(s: string, sep: string, i: int)
    requires |s| > 0 && i >= 1
    ensures OccursAt(s, sep, i) <==> OccursAt(s[1..], sep, i - 1)
  {
    if i + |sep| <= |s| {
      assert s[1..][i - 1..i - 1 + |sep|] == s[i..i + |sep|];
    }
  }

  /** IndexOf finds an occurrence, and the first one; -1 means there is none. */
  lemma {:induction false} IndexOfCorrect(s: string, sep: string)
    requires |sep| > 0
    ensures IndexOf(s, sep) >= 0 ==> OccursAt(s, sep, IndexOf(s, sep))
    ensures forall k :: 0 <= k < IndexOf(s, sep) ==> !OccursAt(s, sep, k)
    ensures IndexOf(s, sep) < 0 ==> forall k :: !OccursAt(s, sep, k)
    decreases |s|
  {
    if |s| < |sep| {
      assert IndexOf(s, sep) == -1;
      forall k ensures !OccursAt(s, sep, k) {
      }
    } else if s[..|sep|] == sep {
      assert IndexOf(s, sep) == 0;
      assert OccursAt(s, sep, 0);
    } else {
      var t := s[1..];
      IndexOfCorrect(t, sep);
      var j := IndexOf(t, sep);
      assert IndexOf(s, sep) == if j < 0 then -1 else j + 1;
      assert !OccursAt(s, sep, 0);
      forall k | k >= 1
        ensures OccursAt(s, sep, k) <==> OccursAt(t, sep, k - 1)
      {
        OccursShift(s, sep, k);
      }
      if j >= 0 {
        assert OccursAt(t, sep, j);
        assert OccursAt(s, sep, j + 1);
      }
    }
  }

  lemma JoinCons(a: string, tail: seq<string>, sep: string)
    requires |tail| >= 1
    ensures Join([a] + tail, sep) == a + sep + Join(tail, sep)
  {
    assert ([a] + tail)[1..] == tail;
  }

  lemma Reassemble(s: string, sep: string, i: int)
    requires OccursAt(s, sep, i)
    ensures s == s[..i] + sep + s[i + |sep|..]
  {
    assert s == s[..i] + s[i..i + |sep|] + s[i + |sep|..];
  }

  /** Joining the pieces of a split with the same separator gives back the
      original string. */
  lemma {:induction false} JoinSplit(s: string, sep: string)
    requires |sep| > 0
    ensures Join(Split(s, sep), sep) == s
    decreases |s|
  {
    var i := IndexOf(s, sep);
    if i >= 0 {
      IndexOfCorrect(s, sep);
      var rest := s[i + |sep|..];
      var tail := Split(rest, sep);
      JoinSplit(rest, sep);
      JoinCons(s[..i], tail, sep);
      Reassemble(s, sep, i);
    }
  }

  /** A split yields exactly two pieces iff `sep` occurs exactly once, and the
      second piece is then everything after that occurrence. */
  lemma {:induction false} SplitInTwo(s: string, sep: string)
    requires |sep| > 0
    ensures |Split(s, sep)| == 2 <==>
              IndexOf(s, sep) >= 0 && IndexOf(s[IndexOf(s, sep) + |sep|..], sep) < 0
    ensures |Split(s, sep)| == 2 ==> Split(s, sep)[1] == s[IndexOf(s, sep) + |sep|..]
  {
    var i := IndexOf(s, sep);
    if i < 0 {
      assert Split(s, sep) == [s];
    } else {
      var rest := s[i + |sep|..];
      var tail := Split(rest, sep);
      assert Split(s, sep) == [s[..i]] + tail;
      var j := IndexOf(rest, sep);
      if j < 0 {
        assert tail == [rest];
      } else {
        assert tail == [rest[..j]] + Split(rest[j + |sep|..], sep);
        assert |tail| >= 2;
      }
    }
  }

  /** Lower-casing is idempotent and leaves no upper-case ASCII letter. */
  lemma ToLowerLowers(s: string)
    ensures ToLower(ToLower(s)) == ToLower(s)
    ensures forall i :: 0 <= i < |s| ==> !('A' <= ToLower(s)[i] <= 'Z')
  {
  }
}
