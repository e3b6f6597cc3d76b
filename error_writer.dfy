/** The older error stack of package `error` (src/sample/common/error/error.go):
    like package `err`, but each caller record is four items ("at", file,
    "line", line) and `Err` returns nil for an empty stack. */
module Error {
  import opened GoValues
  import opened Wrappers
  import Err

  /** `errWriter{errMsgs}`; the zero value is the empty stack. */
  datatype ErrWriter = ErrWriter(errMsgs: seq<Value>)

  /** `fixedPhrase`: "at", the file path trimmed by the same "/src/" rule as
      package `err`, "line" and the line number. */
  function FixedPhrase(file: string, line: int): (r: seq<Value>)
    ensures |r| == 4
    ensures r[0] == Str("at") && r[1] == Str(Err.TrimSrc(file))
    ensures r[2] == Str("line") && r[3] == Int(line)
  {
    [Str("at"), Str(Err.TrimSrc(file)), Str("line"), Int(line)]
  }

  /** `addCallerMsg`: the caller's four items appended. The function name the
      caller record carries is not used by this package. */
  function AddCallerMsg(ew: ErrWriter, caller: Err.Caller): (r: ErrWriter)
    ensures |r.errMsgs| == |ew.errMsgs| + 4
    ensures r.errMsgs[..|ew.errMsgs|] == ew.errMsgs
  {
    ErrWriter(ew.errMsgs + FixedPhrase(caller.file, caller.line))
  }

  /** `NewErrWriter(msg...)`: empty without messages; otherwise the messages
      followed by the caller's items. */
  function NewErrWriter(msg: seq<Value>, caller: Err.Caller): (r: ErrWriter)
    ensures |msg| == 0 ==> r.errMsgs == []
    ensures |msg| > 0 ==> |r.errMsgs| == |msg| + 4 && r.errMsgs[..|msg|] == msg
  {
    if |msg| > 0 then AddCallerMsg(ErrWriter(msg), caller) else ErrWriter([])
  }

  /** `Write(msg...)`: old messages, `msg`, then exactly four caller items. */
  function Write(ew: ErrWriter, msg: seq<Value>, caller: Err.Caller): (r: ErrWriter)
    ensures |r.errMsgs| == |ew.errMsgs| + |msg| + 4
    ensures r.errMsgs[..|ew.errMsgs| + |msg|] == ew.errMsgs + msg
    ensures r.errMsgs[|ew.errMsgs| + |msg|..]
              == [Str("at"), Str(Err.TrimSrc(caller.file)), Str("line"), Int(caller.line)]
  {
    AddCallerMsg(ErrWriter(ew.errMsgs + msg), caller)
  }

  /** `Err()`: nil for an empty stack, else the message list. */
  function GetErr(ew: ErrWriter): (r: Option<seq<Value>>)
    ensures r == None <==> ew.errMsgs == []
    ensures r.Some? ==> r.value == ew.errMsgs
  {
    if |ew.errMsgs| < 1 then None else Some(ew.errMsgs)
  }

  /** `unshift(v...)`: `v` placed before the existing messages. */
  function Unshift(ew: ErrWriter, v: seq<Value>): (r: ErrWriter)
    ensures |r.errMsgs| == |v| + |ew.errMsgs|
    ensures r.errMsgs[..|v|] == v && r.errMsgs[|v|..] == ew.errMsgs
  {
    ErrWriter(v + ew.errMsgs)
  }

  /** A writer is nil-errored exactly until something is written: made
      without messages Err is nil, after any Write it is not. */
  lemma ErrNilUntilWritten(msg: seq<Value>, ew: ErrWriter, more: seq<Value>, c: Err.Caller)
    ensures GetErr(NewErrWriter(msg, c)) == None <==> |msg| == 0
    ensures GetErr(Write(ew, more, c)).Some?
  {
  }

  /** The older stack records the same messages as package `err` in the same
      order; only the caller records differ, by the function-name item. */
  lemma {:induction false} SameMessagesAsErr(ew: seq<Value>, msg: seq<Value>, c: Err.Caller)
    ensures var a := Write(ErrWriter(ew), msg, c).errMsgs;
            var b := Err.Write(Err.ErrWriter(ew), msg, c).errMsgs;
            a[..|ew| + |msg|] == b[..|ew| + |msg|] && a[|ew| + |msg|..] == b[|ew| + |msg| + 1..]
  {
  }
}
