/** Types several modules share. */
module Common {
  datatype Option<+T> = None | Some(value: T)

  datatype Result<+T> = Ok(value: T) | Err(error: string)

  /** What becomes of a request to a remote store: carried out and reported, carried out but reported
      as failed, not carried out. */
  datatype Fate = Done | DoneUnreported | NotDone

  function Min(a: int, b: int): int {
    if a <= b then a else b
  }

  function Max(a: int, b: int): int {
    if a >= b then a else b
  }
}
