/** Optional values and success-or-failure outcomes, as used for TypeScript's
    `T | undefined` / `T | null` and for calls that either return or throw. */
module Wrappers {

  datatype Option<+T> = None | Some(value: T)

  datatype Result<+R, +E> = Success(value: R) | Failure(error: E)
}
