/** Option and Result, the failure-carrying datatypes the rest of the model uses
    instead of the source's `Option` returns and its aborting `panic!`/`unwrap` calls. */
module Wrappers {

  datatype Option<+T> = None | Some(value: T)

  datatype Result<+T, +E> = Ok(value: T) | Err(error: E)
}
