/**
 * Optional values, used for the recovery of a concrete classification
 * variant, and the outcome of a transaction, the source's `Result<(), Error>`.
 */
module Wrappers {

  datatype Option<+T> = None | Some(value: T)

  datatype Outcome = Ok | Err(message: string)
}
