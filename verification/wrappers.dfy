/** The optional-value datatype used for the store's `result` field and for lookups. */
module Wrappers {

  /** `None` stands for JavaScript's `undefined`; `Some(v)` for a present value. */
  datatype Option<+T> = None | Some(value: T)
}
