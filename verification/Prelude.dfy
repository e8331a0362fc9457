/** Small value types shared by the model. */
module Prelude {

  type byte = bv8

  datatype Option<+T> = None | Some(value: T)

  /** `ReturnCode` of the program; only success and failure matter here. */
  datatype ReturnCode = Success | Error(code: string)

  function Min(a: int, b: int): int {
    if a <= b then a else b
  }

  function Max(a: int, b: int): int {
    if a >= b then a else b
  }
}
