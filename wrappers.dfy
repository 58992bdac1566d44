/** The optional-value datatype shared by every module of the model. */
module Wrappers {

  /** `None` stands for JavaScript's `undefined`/`null` (or, for a foreign
      call, for "it threw"); `Some(v)` for a present value. */
  datatype Option<+T> = None | Some(value: T)
}
