/** Values shared by every module: optional values, the outcome of a call that
    may raise, and the exceptions the modelled code raises or lets through. */
module Common {

  datatype Option<+T> = None | Some(value: T)

  /** A Python exception, by its class, with the message it carries. */
  datatype Error =
    | OperationalError(message: string)  // sqlite3: the table does not exist
    | IntegrityError(message: string)    // sqlite3: a primary-key violation
    | ValueError(message: string)        // raised by the provider constructors
    | TypeError(message: string)         // a call with the wrong arguments, or None subscripted
    | QueryError(message: string)        // the Exception raised when Ollama answers a status other than 200

  /** The value of a call that returns, or the exception it raises. */
  datatype Result<+T> = Success(value: T) | Failure(error: Error)

  /** The outcome of a call whose return value is not used. */
  datatype Outcome = Pass | Fail(error: Error)
}
