/** The dynamic values (`interface{}`) that flow through the data-access layer:
    record field values, WHERE arguments, option values, error-stack items. */
module GoValues {

  datatype Value =
    | Nil                        // the nil interface, also a nil `error`
    | Str(s: string)             // a Go string
    | Int(i: int)                // a Go int
    | Uint64(u: nat)             // a Go uint64 (record sequence ids)
    | Bool(b: bool)
    | InList(items: seq<Value>)  // base.go's `In` type, the operand of IN
    | GoErr(msg: string)         // a non-nil Go `error` value
    | WhereCond(rows: seq<seq<Value>>)   // base.go's `WhereCondition`
    | OrderCond(orders: seq<seq<string>>)// base.go's `OrderByCondition`
    | OptionMap(entries: map<string, Value>)  // base.go's `Option`
    | Opaque(id: nat)            // any other value (structs, byte slices, ...)

  /** What a helper of the record executor yields: its results, an error
      made by `errors.New(msg)`, or a panic from an unchecked type
      assertion. */
  datatype Outcome<+T> = Done(value: T) | Fail(msg: string) | Panic

  /** `order` lists the keys of a string-keyed Go map in one iteration
      order: each key exactly once. Go leaves the order unspecified. */
  predicate IsKeyOrder(order: seq<string>, keys: set<string>) {
    (forall i, j :: 0 <= i < j < |order| ==> order[i] != order[j]) &&
    (forall k :: k in order ==> k in keys) && (forall k :: k in keys ==> k in order)
  }
}
