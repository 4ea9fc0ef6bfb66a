/** Ruby's `nil` alongside a value, for results that may be absent. */
module Wrappers {

  datatype Option<+T> = None | Some(value: T)

  /** A Ruby value seen only through the three shapes the core distinguishes. */
  datatype RValue = RTrue | RFalse | RNil {
    /** Ruby truthiness: only `false` and `nil` are falsy. */
    predicate Truthy() { this == RTrue }
  }
}
