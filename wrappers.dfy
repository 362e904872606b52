/** Option and Result types shared by every module of the model.
    A Java method that can end in an unchecked exception is modelled as a
    function or method whose result is a Result: Err names the exception. */
module Wrappers {

  /** A Java reference that may be null. */
  datatype Option<+T> = None | Some(value: T) {
    function GetOr(default: T): T {
      match this
      case Some(v) => v
      case None => default
    }
  }

  /** The Java exceptions the modelled code can end in without catching them. */
  datatype Fault =
    | NullPointer                  // java.lang.NullPointerException
    | IndexOutOfBounds             // array, list or string index out of range
    | NoSuchElement                // first() of an empty NamedSet
    | StackOverflow                // recursion deeper than the model's depth bound
    | MissingConfiguration         // no configuration bound to a processor's activity
    | Unsupported(message: string) // UnsupportedWorkflowException with its message

  datatype Result<+T> = Ok(value: T) | Err(fault: Fault) {
    predicate IsFailure() {
      Err?
    }

    function PropagateFailure<U>(): Result<U>
      requires Err?
    {
      Err(fault)
    }

    function Extract(): T
      requires Ok?
    {
      value
    }
  }
}
