/** Option and Result values, and the Python exception kinds the model raises. */
module Wrappers {

  datatype Option<T> = None | Some(value: T)

  /** The Python exception an operation raises; the payload names the message where it matters. */
  datatype PyError =
    | IndexError
    | KeyError
    | TypeError
    | AttributeError
    | NameError
    | ValueError(msg: string)
    | ParseError(msg: string)
    | LexerError(msg: string)
    | Unmodelled(what: string)

  datatype Result<T> = Ok(value: T) | Err(error: PyError)
  {
    predicate IsOk() { Ok? }
  }
}
