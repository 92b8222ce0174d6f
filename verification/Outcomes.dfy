/** Success/failure and optional values shared by every part of the model. */
module Outcomes {
  datatype Option<+T> = None | Some(value: T)
  datatype Result<+T, +E> = Ok(value: T) | Err(error: E)

  function Min(a: int, b: int): int { if a <= b then a else b }
  function Max(a: int, b: int): int { if a <= b then b else a }

  /** Unsigned saturating subtraction. */
  function Monus(a: nat, b: nat): nat { if a <= b then 0 else a - b }
}
