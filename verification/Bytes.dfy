/** Bytes as small numbers, and their exclusive or. */
module Bytes {

  newtype Byte = x: int | 0 <= x < 256

  /** Bit by bit, lowest first: a bit is set where the two differ. */
  function BitXor(a: nat, b: nat): nat {
    if a == 0 && b == 0 then 0
    else (if a % 2 == b % 2 then 0 else 1) + 2 * BitXor(a / 2, b / 2)
  }

  function Pow2(k: nat): (p: nat)
    ensures p > 0
  {
    if k == 0 then 1 else 2 * Pow2(k - 1)
  }

  lemma {:induction false} BitXorIsBounded(a: nat, b: nat, k: nat)
    requires a < Pow2(k) && b < Pow2(k)
    ensures BitXor(a, b) < Pow2(k)
  {
    if a != 0 || b != 0 {
      assert k > 0;
      BitXorIsBounded(a / 2, b / 2, k - 1);
    }
  }

  /** A fixed first operand loses nothing of the second. */
  lemma {:induction false} BitXorCancels(s: nat, a: nat, b: nat)
    requires BitXor(s, a) == BitXor(s, b)
    ensures a == b
    decreases s + a + b
  {
    if s != 0 || a != 0 || b != 0 {
      assert BitXor(s, a) == (if s % 2 == a % 2 then 0 else 1) + 2 * BitXor(s / 2, a / 2);
      assert BitXor(s, b) == (if s % 2 == b % 2 then 0 else 1) + 2 * BitXor(s / 2, b / 2);
      BitXorCancels(s / 2, a / 2, b / 2);
    }
  }

  function XorByte(a: Byte, b: Byte): Byte {
    assert Pow2(8) == 256 by {
      assert Pow2(1) == 2 && Pow2(2) == 4 && Pow2(4) == 16 && Pow2(6) == 64;
    }
    BitXorIsBounded(a as int, b as int, 8);
    BitXor(a as int, b as int) as Byte
  }
}
