/** Option and Result: the null/undefined values and the thrown errors of the modelled code. */
module Wrappers {

  /** `None` stands for JavaScript's `null` or `undefined`. */
  datatype Option<+T> = None | Some(value: T)

  /** `Failure` stands for an exception whose message is `error`. */
  datatype Result<+R> = Success(value: R) | Failure(error: string)
}
