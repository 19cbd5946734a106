/** Types shared by every part of the model. */
module Prelude {

  datatype Option<+T> = None | Some(value: T)

  /** A call either returns a value or throws with the stable code the service uses. */
  datatype Outcome<+T> = Ok(value: T) | Fail(code: string)

  /** 32-byte hashes are the numbers their hex text denotes, so letter case plays no part. */
  type Hash = nat
  type TxHash = nat

  /** Lower-case account and token addresses. */
  type Address = string

  /** A market is named by its unique symbol. */
  type Symbol = string

  function Min(a: int, b: int): int {
    if a < b then a else b
  }

  function Max(a: int, b: int): int {
    if a < b then b else a
  }
}
