/** Optional values and results with an error, used where the ledger's code
    has `undefined` fields, missing bounds or a thrown error. */
module Wrappers {

  datatype Option<+T> = None | Some(value: T)

  datatype Result<+R, +E> = Success(value: R) | Failure(error: E)
}
