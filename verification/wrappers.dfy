/** Failure-carrying wrappers shared by the whole model.

    Java's `null` becomes `None`; the runtime exceptions that the modelled
    code lets escape become `Err`. */
module Wrappers {

  /** A possibly-null reference. */
  datatype Option<+T> = None | Some(value: T)

  /** The exceptions the serializer and the registry can raise. */
  datatype Error =
    | NullPointer       // a null reference is dereferenced
    | IndexOutOfBounds  // a `substring` reaches outside its string
    | StackOverflow     // the resolve recursion never bottoms out

  /** A normal return or an escaping exception. */
  datatype Result<+T> = Ok(value: T) | Err(error: Error) {

    predicate IsFailure() {
      Err?
    }

    function PropagateFailure<U>(): Result<U>
      requires Err?
    {
      Err(error)
    }

    function Extract(): T
      requires Ok?
    {
      value
    }
  }
}
