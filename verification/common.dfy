/** Values shared by every part of the model: optional values (the source's
    nullable references), results, and the exceptions that can cross the
    interceptor. */
module Common {

  /** A nullable reference: `None` is C#'s `null`. */
  datatype Option<+T> = None | Some(value: T)

  /** The outcome of an operation that can throw. */
  datatype Result<+T> = Ok(value: T) | Err(error: Exception)

  /** The exceptions the model distinguishes. */
  datatype Exception =
    /** `AmazonServiceException`, carrying the HTTP status and the request id. */
    | ServiceException(statusCode: int, requestId: Option<string>)
    /** Any other exception thrown by the next pipeline stage. */
    | OtherException(typeName: string)
    /** `ArgumentNullException` for the named parameter. */
    | ArgumentNull(paramName: string)
    /** `NullReferenceException`. */
    | NullReference
    /** `IndexOutOfRangeException`. */
    | IndexOutOfRange
    /** `ArgumentException` from `Dictionary.Add` on a key already present. */
    | DuplicateKey(key: string)
}
