module Common {
  datatype Option<+T> = None | Some(value: T)

  datatype Result<+T, +E> = Ok(value: T) | Err(error: E)

  const SIZE_LIMIT := 0x1_0000_0000_0000_0000

  /** A count the program keeps in a `usize`. */
  type Size = n: nat | n < SIZE_LIMIT

  ghost function Elements<T>(s: seq<T>): set<T> {
    set x | x in s
  }
}
