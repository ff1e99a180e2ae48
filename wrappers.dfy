/** Failure-carrying result types shared by every module of the model.
    A `Failure` stands for a Rust `panic!`, `unwrap()` or `expect()` that
    aborts the program on the input at hand. */
module Wrappers {

  datatype Option<T> = None | Some(value: T)

  datatype Result<T> = Success(value: T) | Failure(error: string)
}
