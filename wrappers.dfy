/** Option and Result values, and the exceptions the modelled Python code can raise. */
module Wrappers {

  datatype Option<+T> = None | Some(value: T)

  datatype Result<+T, +E> = Ok(value: T) | Err(error: E)

  /** Exceptions that propagate out of the modelled operations. */
  datatype Exception =
    | JsonDecodeError          // json.loads on a payload that is not (modelled) JSON
    | ZeroDivisionError        // `//` by zero in the page-count arithmetic
    | TypeError                // arguments that do not fit the called function, or an operand of the wrong type
    | ResponseError            // the store refused a command (an expire time it cannot hold)
    | Raised(message: string)  // whatever a caller-supplied producer raised
    | LockTimeout              // the retry bound of the stampede guard was exhausted
    | OverflowError            // an int bound as an SQL parameter does not fit in 64 bits
    | IntegrityError           // SQLite rejected a LIMIT or OFFSET text that is not an integer ("datatype mismatch")
}
