/** Optional values and error-or-value results, standing in for TypeScript's
    `undefined` returns and thrown configuration errors. */
module Wrappers {

  datatype Option<+T> = None | Some(value: T)

  datatype Result<+T, +E> = Ok(value: T) | Err(error: E)
}
