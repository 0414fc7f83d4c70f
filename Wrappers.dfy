/** Option and Result values: an undefined moving-average entry is None,
    a Python exception raised by the backtest is Err. */
module Wrappers {

  datatype Option<+T> = None | Some(value: T)

  datatype Result<+T, +E> = Ok(value: T) | Err(error: E)
}
