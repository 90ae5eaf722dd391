/** Option and Result values used for "field missing" and for the
    exceptions the scripts raise or catch. */
module Wrappers {

  datatype Option<+T> = None | Some(value: T)

  datatype Result<+T, +E> = Ok(value: T) | Err(error: E)

  /** Python's truth value of an optional string argument: given, and not
      empty. */
  predicate Given(s: Option<string>) {
    s.Some? && s.value != []
  }
}

