/** The optional value used throughout the model: an absent request field,
    a JavaScript `undefined`/`null`, or a number that is NaN. */
module Wrappers {

  datatype Option<+T> = None | Some(value: T)
}
