/** Small shared vocabulary: Python's `None`-or-value results, and a value-or-message outcome. */
module Base {

  /** A value that may be missing, as Python's `Optional[...]`. */
  datatype Option<+T> = None | Some(value: T)

  /** The outcome of a step that either yields a value or fails with a message. */
  datatype Result<+T> = Ok(value: T) | Err(msg: string)

  function Min(a: int, b: int): int
  {
    if a <= b then a else b
  }
}
