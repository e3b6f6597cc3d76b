/** The error stack of package `err` (src/sample/common/err/error.go): an
    `ErrWriter` is a value holding a list of messages; every NewErrWriter with
    messages and every Write appends five items describing the calling code. */
module Err {
  import opened GoValues
  import Strings

  /** What `runtime.Caller(2)` and `runtime.FuncForPC` report about the code
      that called NewErrWriter or Write: the function's qualified name, the
      absolute source path and the line. Supplied by the caller of the model. */
  datatype Caller = Caller(funcName: string, file: string, line: int)

  /** `ErrWriter{errMsgs}`; the zero value is the empty stack. */
  datatype ErrWriter = ErrWriter(errMsgs: seq<Value>)

  const SrcMarker: string := "/src/"

  /** The file part of `fixedPhrase`: the part after "/src/" when the path
      splits into exactly two pieces there, i.e. when "/src/" occurs exactly
      once; otherwise the whole path. */
  function TrimSrc(file: string): (r: string)
    ensures var i := Strings.IndexOf(file, SrcMarker);
            var after := if i >= 0 then file[i + |SrcMarker|..] else "";
            r == if i >= 0 && Strings.IndexOf(after, SrcMarker) < 0 then after else file
  {
    Strings.SplitInTwo(file, SrcMarker);
    var splits := Strings.Split(file, SrcMarker);
    if |splits| == 2 then splits[1] else file
  }

  /** `fixedPhrase`: the function name in parentheses, "at", the trimmed file
      path, "line" and the line number. */
  function FixedPhrase(file: string, line: int, callerName: string): (r: seq<Value>)
    ensures |r| == 5
    ensures r[0] == Str("(" + callerName + ")") && r[1] == Str("at")
    ensures r[2] == Str(TrimSrc(file)) && r[3] == Str("line") && r[4] == Int(line)
  {
    [Str("(" + callerName + ")"), Str("at"), Str(TrimSrc(file)), Str("line"), Int(line)]
  }

  /** `addCallerMsg`: the stack with the caller's five items appended. */
  function AddCallerMsg(ew: ErrWriter, caller: Caller): (r: ErrWriter)
    ensures |r.errMsgs| == |ew.errMsgs| + 5
    ensures r.errMsgs[..|ew.errMsgs|] == ew.errMsgs
  {
    ErrWriter(ew.errMsgs + FixedPhrase(caller.file, caller.line, caller.funcName))
  }

  /** `NewErrWriter(msg...)`: empty without messages; otherwise the messages
      in order followed by the caller's items. */
  function NewErrWriter(msg: seq<Value>, caller: Caller): (r: ErrWriter)
    ensures |msg| == 0 ==> r.errMsgs == []
    ensures |msg| > 0 ==> |r.errMsgs| == |msg| + 5 && r.errMsgs[..|msg|] == msg
  {
    if |msg| > 0 then AddCallerMsg(ErrWriter(msg), caller) else ErrWriter([])
  }

  /** `Write(msg...)`: the old messages, then `msg`, then the caller's items,
      even when `msg` is empty. */
  function Write(ew: ErrWriter, msg: seq<Value>, caller: Caller): (r: ErrWriter)
    ensures |r.errMsgs| == |ew.errMsgs| + |msg| + 5
    ensures r.errMsgs[..|ew.errMsgs| + |msg|] == ew.errMsgs + msg
    ensures HasErr(r)
  {
    AddCallerMsg(ErrWriter(ew.errMsgs + msg), caller)
  }

  /** `HasErr`: the stack holds at least one message. */
  predicate HasErr(ew: ErrWriter) {
    |ew.errMsgs| > 0
  }

  /** `Err`: the message list. */
  function GetErr(ew: ErrWriter): seq<Value> {
    ew.errMsgs
  }

  /** `unshift(v...)`: `v` placed before the existing messages. */
  function Unshift(ew: ErrWriter, v: seq<Value>): (r: ErrWriter)
    ensures |r.errMsgs| == |v| + |ew.errMsgs|
    ensures r.errMsgs[..|v|] == v && r.errMsgs[|v|..] == ew.errMsgs
  {
    ErrWriter(v + ew.errMsgs)
  }

  /** A writer made without messages reports no error; one made with
      messages, or written to at all, reports one. */
  lemma HasErrAfterConstruction(msg: seq<Value>, ew: ErrWriter, more: seq<Value>, c: Caller)
    ensures HasErr(NewErrWriter(msg, c)) <==> |msg| > 0
    ensures HasErr(Write(ew, more, c))
    ensures !HasErr(ErrWriter([]))
  {
  }

  /** HasErr is true exactly when Err returns a non-empty list, and Err
      returns the list unchanged. */
  lemma HasErrIffErr(ew: ErrWriter)
    ensures HasErr(ew) <==> GetErr(ew) != []
    ensures GetErr(ew) == ew.errMsgs
  {
  }

  /** Writing twice keeps both writes in order, each followed by its own
      caller items. */
  lemma {:induction false} WriteTwice(ew: ErrWriter, m1: seq<Value>, c1: Caller, m2: seq<Value>, c2: Caller)
    ensures Write(Write(ew, m1, c1), m2, c2).errMsgs ==
              ew.errMsgs + m1 + FixedPhrase(c1.file, c1.line, c1.funcName)
              + m2 + FixedPhrase(c2.file, c2.line, c2.funcName)
  {
  }

  /** Unshifting onto a written stack puts the new items first and keeps the
      written ones, caller items included, behind them. */
  lemma {:induction false} UnshiftWrite(ew: ErrWriter, v: seq<Value>, msg: seq<Value>, c: Caller)
    ensures GetErr(Unshift(Write(ew, msg, c), v)) ==
              v + ew.errMsgs + msg + FixedPhrase(c.file, c.line, c.funcName)
  {
    assert v + (ew.errMsgs + msg + FixedPhrase(c.file, c.line, c.funcName))
        == v + ew.errMsgs + msg + FixedPhrase(c.file, c.line, c.funcName);
  }

  /** A path with a single "/src/" keeps only what follows it. */
  lemma FixedPhraseSrcOnce()
    ensures FixedPhrase("a/src/b", 7, "f")[2] == Str("b")
  {
    var p := "a/src/b";
    assert p[..5] != SrcMarker by {
      assert p[..5][0] != SrcMarker[0];
    }
    assert p[1..][..5] == SrcMarker;
    assert Strings.IndexOf(p[1..], SrcMarker) == 0;
    assert Strings.IndexOf(p, SrcMarker) == 1;
    assert p[6..] == "b";
    assert Strings.IndexOf("b", SrcMarker) == -1;
  }

  /** A path without "/src/" is kept whole. */
  lemma FixedPhraseNoSrc()
    ensures FixedPhrase("b.go", 7, "f")[2] == Str("b.go")
  {
    assert Strings.IndexOf("b.go", SrcMarker) == -1;
  }

  /** A path with "/src/" twice is kept whole. */
  lemma FixedPhraseSrcTwice()
    ensures FixedPhrase("/src//src/", 7, "f")[2] == Str("/src//src/")
  {
    var q := "/src//src/";
    assert q[..5] == SrcMarker;
    assert Strings.IndexOf(q, SrcMarker) == 0;
    assert q[5..] == SrcMarker;
    assert q[5..][..5] == SrcMarker;
    assert Strings.IndexOf(q[5..], SrcMarker) == 0;
  }
}
