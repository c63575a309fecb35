/** Option and Result, the failure-carrying values the model returns instead of
    JavaScript's null sentinels and thrown exceptions. */
module Wrappers {

  datatype Option<+T> = None | Some(value: T)

  datatype Result<+T, +E> = Ok(value: T) | Err(error: E)
}
