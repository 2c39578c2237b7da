/** Failure-carrying values shared by every service of the model, and the
    Java exceptions the services throw, each with its message. */
module Results {

  datatype Option<+T> = None | Some(value: T)

  /** The value a service call produces, or the exception it throws. */
  datatype Result<+T, +E> = Ok(value: T) | Err(error: E)

  /** The outcome of a call that returns nothing (`Uni<Void>`, `void`). */
  datatype Outcome<+E> = Pass | Fail(error: E)

  /** The Java exceptions that escape the modelled services. */
  datatype Exception =
    | IllegalArgument(message: string)   // java.lang.IllegalArgumentException
    | Runtime(message: string)           // java.lang.RuntimeException
    | Arithmetic(message: string)        // java.lang.ArithmeticException
}
