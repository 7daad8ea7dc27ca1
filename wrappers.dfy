/** Failure-carrying return values shared by the three contract models.
    A contract call either commits and returns `Ok`/`Pass`, or aborts
    (a Rust `panic!`/`expect` in the contract) and returns `Err`/`Fail`
    with the reason; an aborted call changes no state. */
module Wrappers {

  datatype Option<+T> = None | Some(value: T)

  datatype Result<+T, +E> = Ok(value: T) | Err(error: E)

  datatype Outcome<+E> = Pass | Fail(error: E)
}
