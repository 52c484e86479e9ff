/** Option and Result types shared by every module of the model, and the
    exceptions the .NET code throws, as values. */
module Wrappers {

  datatype Option<+T> = None | Some(value: T)

  /** A configuration value, or its default when the key is absent. */
  function ValueOr<T>(o: Option<T>, fallback: T): T
  {
    match o
    case Some(v) => v
    case None => fallback
  }

  /** The exceptions raised by the modelled code. */
  datatype Error =
    | ObjectNotFound(objectType: int, number: int)  // the reference file has no such entry
    | ObjectDisposed                                // a disposed data-file reader was used
    | ReaderTimeout                                 // no new data within the reading timeout
    | FormatError                                   // a node cast, index or text parse failed
    | Overflow                                      // int.Parse of a number outside Int32
    | NullReference                                 // a member of a missing object was used
    | FileNotFound(path: string)
    | InvalidSettings(message: string)
    | DuplicateKey(key: string)                     // Dictionary.Add of a present key
    | WriteFailed(indexName: string)                // a search-index bulk call reported item errors
    | TemplateFailed                                // an index-template request failed and was rethrown
    | RequestCanceled                               // a TaskCanceledException: a cancelled request or block
    | UnknownTimeZone(name: string)

  /** FormatException or OverflowException: text or a node that does not
      convert. */
  predicate Malformed(e: Error)
  {
    e == FormatError || e == Overflow
  }

  datatype Result<+T> = Ok(value: T) | Err(error: Error) {
    predicate IsFailure() { Err? }

    function PropagateFailure<U>(): Result<U>
      requires Err?
    {
      Err(error)
    }

    function Extract(): T
      requires Ok?
    {
      value
    }
  }

  /** A result without a value: the call returned or threw. */
  datatype Outcome = Pass | Fail(error: Error) {
    predicate IsFailure() { Fail? }

    function PropagateFailure(): Outcome
      requires Fail?
    {
      this
    }
  }
}
