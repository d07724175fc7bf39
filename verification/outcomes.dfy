/** Failure-compatible wrappers for the places where the Python code raises. */
module Outcomes {

  /** The exceptions the modelled code can raise, one constructor per cause. */
  datatype Error =
    | MissingField      // IndexError: a line has fewer tokens than the code reads
    | NotANumber        // ValueError: int() or float() rejected a token
    | UnknownIndex      // KeyError: an index that is not a key of the shift table
    | SectionNotFound   // a connectivity section title never appears
    | MathDomain        // ValueError from sqrt of a negative number
    | UnexpectedEnd     // StopIteration: the manifest ends inside a structure block
    | Unset             // TypeError: iterating a relation that is still None

  datatype Option<+T> = None | Some(value: T)

  datatype Result<+T> = Success(value: T) | Failure(error: Error) {

    predicate IsFailure() {
      Failure?
    }

    function PropagateFailure<U>(): Result<U>
      requires Failure?
    {
      Failure(error)
    }

    function Extract(): T
      requires Success?
    {
      value
    }
  }
}
