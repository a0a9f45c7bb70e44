/** The optional value used throughout the model: `None` stands for JavaScript's
    `undefined`/`NaN` outcomes, `Some` for a present value. */
module Wrappers {
  datatype Option<+T> = None | Some(value: T)
}
