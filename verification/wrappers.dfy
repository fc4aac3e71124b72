/** Option and Result values standing in for Python's `None` and for the
    exceptions the modelled code raises. */
module Wrappers {

  datatype Option<+T> = None | Some(value: T)

  /** The Python exception classes the modelled code can raise. */
  datatype PyError =
    | AssertionError
    | ValueError
    | KeyError
    | IndexError
    | TypeError
    | AttributeError
    | NotImplementedError
    | UnicodeEncodeError

  datatype Result<+T> = Ok(value: T) | Err(error: PyError)

  /** A primitive Python value as it is stored in a flat field array or a dict. */
  datatype PyValue = Num(n: real) | Flag(b: bool) | Str(s: string)
}
