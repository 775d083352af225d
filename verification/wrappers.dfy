/** Optional values and success/failure results, standing in for the
    TypeScript `T | undefined` / `T | null` types and for thrown errors. */
module Wrappers {

  /** `undefined` / `null` versus a present value. */
  datatype Option<+T> = None | Some(value: T)

  /** A computation that either produced a value or threw an error. */
  datatype Result<+R, +E> = Success(value: R) | Failure(error: E)
}
