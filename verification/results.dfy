/** Small failure-carrying datatypes shared by the chat modules. */
module Results {

  /** An optional value; Python's `None` or a value. */
  datatype Option<+T> = None | Some(value: T)

  /** The Python exception a handler can raise in the modelled code. */
  datatype PyError =
    /** A local variable read before any assignment reached it. */
    | UnboundLocalError(name: string)

  /** Either the handler returned normally with a new value, or it raised. */
  datatype Result<+T> = Ok(value: T) | Raised(error: PyError)
}
