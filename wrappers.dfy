/** Small helper types shared by the modules of this model. */
module Wrappers {

  /** A value that may be absent: stands for a C pointer that may be NULL. */
  datatype Option<+T> = None | Some(value: T)

  function Min(a: int, b: int): int
  {
    if a <= b then a else b
  }

  function Max(a: int, b: int): int
  {
    if a <= b then b else a
  }
}
