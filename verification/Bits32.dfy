/** The 32-bit integer operators of JavaScript, on unsigned bit patterns. */
module Bits32 {

  const TWO_TO_32: nat := 0x1_0000_0000

  function Pow2(n: nat): (p: nat)
    ensures p >= 1
  {
    if n == 0 then 1 else 2 * Pow2(n - 1)
  }

  /** Bitwise or. */
  function Or(a: nat, b: nat): nat
    decreases a + b
  {
    if a == 0 && b == 0 then 0
    else 2 * Or(a / 2, b / 2) + if a % 2 == 1 || b % 2 == 1 then 1 else 0
  }

  /** `x << count`: the shift count is taken modulo 32, the result modulo 2^32. */
  function ShiftLeft(x: nat, count: nat): nat {
    (x * Pow2(count % 32)) % TWO_TO_32
  }

  lemma {:induction false} OrZero(a: nat)
    ensures Or(a, 0) == a && Or(0, a) == a
  {
    if a > 0 { OrZero(a / 2); }
  }

  /** Without common bits, or is addition. */
  lemma {:induction false} OrIsPlus(low: nat, k: nat, n: nat)
    requires low < Pow2(n)
    ensures Or(low, k * Pow2(n)) == low + k * Pow2(n)
  {
    if n == 0 {
      OrZero(k);
    } else {
      var high := k * Pow2(n - 1);
      assert k * Pow2(n) == 2 * high;
      OrIsPlus(low / 2, k, n - 1);
      OrOfEven(low, high);
    }
  }

  lemma OrOfEven(low: nat, high: nat)
    ensures Or(low, 2 * high) == 2 * Or(low / 2, high) + low % 2
  {
    assert 2 * high / 2 == high && 2 * high % 2 == 0;
  }

  lemma {:induction false} Pow2Adds(a: nat, b: nat)
    ensures Pow2(a + b) == Pow2(a) * Pow2(b)
  {
    if b > 0 { Pow2Adds(a, b - 1); }
  }

  lemma {:induction false} Pow2Grows(a: nat, b: nat)
    requires a <= b
    ensures Pow2(a) <= Pow2(b)
  {
    if a < b { Pow2Grows(a, b - 1); }
  }

  lemma SomePowers()
    ensures Pow2(7) == 128 && Pow2(32) == TWO_TO_32
  {
    assert Pow2(4) == 16;
    Pow2Adds(4, 3);
    Pow2Adds(4, 4);
    Pow2Adds(8, 8);
    Pow2Adds(16, 16);
  }
}
