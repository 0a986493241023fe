/** Optional values and results with an error, used for JavaScript's `null`/`undefined`
    and for the exceptions a resolver throws. */
module Wrappers {

  /** `None` stands for a JavaScript `null` or `undefined`. */
  datatype Option<+T> = None | Some(value: T)

  /** `Err` stands for an exception thrown (or a promise rejected) inside a resolver. */
  datatype Result<+R, +E> = Ok(value: R) | Err(error: E)
}
