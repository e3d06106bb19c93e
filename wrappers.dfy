/** Failure-carrying values shared by every module of the model.

    Python signals failure by raising; the model returns `Err(kind)` instead,
    where `kind` names the exception class the source raises.  A failing
    `assert` statement of the source is `Err(AssertionError)`.
 */
module Wrappers {

  datatype Option<T> = None | Some(value: T)

  /** The exception classes the modelled code can raise. */
  datatype ErrorKind =
    | ZpzError              // the repository's own exception class
    | AssertionError        // a failing `assert`
    | IndexError
    | ValueError
    | TypeError
    | AttributeError        // a missing attribute, such as a misspelt module function
    | PlainException        // a bare `Exception(...)`
    | NotImplementedError
    | FileNotFoundError     // opening a pickle file that was never written
    | OverflowError         // a date shifted outside years 1..9999
    | ParserError           // a date string that does not match its format

  datatype Result<T> = Ok(value: T) | Err(error: ErrorKind)
}
