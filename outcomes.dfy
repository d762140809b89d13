/**
 * Python signals failure by raising; the model returns the exception
 * instead, as an `Option<Error>` for operations whose success value is
 * the receiver itself, or as a `Result` for operations that compute one.
 */
module Outcomes {
  datatype Option<+T> = None | Some(value: T)

  datatype Result<+T, +E> = Ok(value: T) | Err(error: E)
}

/** The Python values that reach the query compiler and its error cases. */
module Values {
  /** A database class: it appears as the first segment of a schema-qualified table path. */
  datatype Database = Database(name: string)

  /**
   * A value appended to the engine's parameter list. Floats are kept as
   * their IEEE-754 bit pattern; the model never does arithmetic on them.
   */
  datatype SqlValue =
    | VBool(b: bool)
    | VInt(i: int)
    | VFloat(bits: bv64)
    | VStr(s: string)
    | VDatabase(db: Database)

  /** The Python exceptions the core raises. */
  datatype Error =
    | TypeError
    | AttributeError
    | RuntimeError(message: string)
}
