/** Failure-carrying values shared by every module of the model.

    The Python code reports failures by raising exceptions; here each
    operation that can raise returns a `Result` (or an `Outcome` when it
    returns nothing on success) whose failure side names the exception. */
module Results {

  /** The exceptions that can escape the modelled code. */
  datatype Exception =
    | ClientFailure(message: string)   // anything raised by the warehouse client, re-raised unchanged
    | KeyError(key: string)            // `row[key]` on a row without that column
    | AttributeError(attribute: string) // a method called on a value that does not have it
    | ValueError(message: string)      // raised by configuration validation

  /** Python's `Optional[...]`: `None` or a value. */
  datatype Option<+T> = None | Some(value: T)

  /** The value a call returns, or the exception it raises. */
  datatype Result<+T> = Success(value: T) | Failure(error: Exception)

  /** The outcome of a call that returns `None` on success. */
  datatype Outcome = Pass | Fail(error: Exception)
}
