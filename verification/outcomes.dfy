/** Success/failure results, standing in for the exceptions the numerical
    library raises on malformed input. */
module Outcomes {

  datatype Result<+T, +E> = Ok(value: T) | Err(error: E)
}
