/** Failure-carrying results, and the Python exceptions the modelled code can raise. */
module Wrappers {

  /** The exceptions raised by the modelled code. */
  datatype Error =
    | KeyError(key: string)      // a missing dictionary key
    | TypeError                  // subscripting a non-dictionary, or a list or dict as a dict key
    | ValueError                 // a tuple of the wrong length unpacked into two names
    | IndexError                 // a list position past the end
    | NotImplementedError        // an operation a class refuses on purpose
    | AttributeError(name: string) // a missing attribute of a class

  datatype Option<+T> = None | Some(value: T)

  datatype Result<+T> = Success(value: T) | Failure(error: Error) {
    predicate IsFailure() { Failure? }
    function PropagateFailure<U>(): Result<U>
      requires Failure?
    {
      Failure(error)
    }
    function Extract(): T
      requires Success?
    {
      value
    }
  }

  /** The outcome of a call that returns nothing but may raise. */
  datatype Outcome = Pass | Fail(error: Error)
}
