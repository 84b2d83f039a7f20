/** A value that may be missing, and a value or an exception on its way up. */
module Wrappers {

  datatype Option<+T> = None | Some(value: T)

  datatype Outcome<+T> = Ok(value: T) | Raised {
    predicate IsFailure() { Raised? }
    function PropagateFailure<U>(): Outcome<U> requires IsFailure() { Raised }
    function Extract(): T requires !IsFailure() { value }
  }
}
