/** Failure-carrying values shared by every part of the model. */
module Outcome {

  /** Python's `None` or a present value. */
  datatype Option<+T> = None | Some(value: T)

  /** The Python exceptions that the modelled code raises on bad input. */
  datatype PyError =
    | ZeroDivisionError   // an average over no values
    | TypeError           // arithmetic on a JSON null
    | IndexError          // a list index outside the list
    | KeyError            // a table column that is not there
    | ValueError          // a pie chart with a negative wedge

  /** The value a Python call returns, or the exception it raises. */
  datatype Result<+T> = Ok(value: T) | Err(error: PyError)
}
