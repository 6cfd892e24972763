/** The optional-value type used for the GraphQL `null` result and the nullable input id. */
module Wrappers {

  /** `None` stands for JavaScript's `null`/`undefined`; `Some(v)` for a present value. */
  datatype Option<+T> = None | Some(value: T)
}
