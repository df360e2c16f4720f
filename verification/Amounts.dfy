/** Amounts of the balance type, and the maps that record who has how much. */
module Amounts {

  /** Largest value of the balance type, an unsigned 128-bit integer. */
  const MAX_BALANCE: nat := 0xFFFF_FFFF_FFFF_FFFF_FFFF_FFFF_FFFF_FFFF

  /** Values of the balance type. */
  type Balance = n: nat | n <= MAX_BALANCE

  type Account = nat
  type Asset = nat
  type Block = nat

  datatype Option<+T> = None | Some(value: T)

  /** What is recorded under a key, or zero. */
  function At<K>(amounts: map<K, nat>, k: K): nat {
    if k in amounts then amounts[k] else 0
  }

  function Min(a: int, b: int): int {
    if a <= b then a else b
  }

  function Max(a: int, b: int): int {
    if a >= b then a else b
  }

  function SaturatingAdd(a: int, b: int): int {
    if a + b <= MAX_BALANCE then a + b else MAX_BALANCE
  }

  function SaturatingSub(a: int, b: int): int {
    if a >= b then a - b else 0
  }
}
