/** Integer division by two that truncates toward zero. */
module Integers {

  function Halve(n: int): int {
    if n >= 0 then n / 2 else -(-n / 2)
  }
}
