/** Option and Result values shared by the puzzle models. A Rust `panic!`,
    `unreachable!()` or failed `unwrap()` in the modelled code becomes an
    error value here instead of a precondition. */
module Wrappers {

  datatype Option<+T> = None | Some(value: T)

  datatype Result<+T, +E> = Ok(value: T) | Err(error: E)
}
