/** Bitwise operators on natural numbers, bit by bit from the least significant. */
module Bitwise {
  import opened Arithmetic

  function BitAnd(x: nat, y: nat): (r: nat)
    ensures r <= x && r <= y
  {
    if x == 0 || y == 0 then 0 else 2 * BitAnd(x / 2, y / 2) + (if x % 2 == 1 && y % 2 == 1 then 1 else 0)
  }

  function BitOr(x: nat, y: nat): (r: nat)
    ensures r >= x && r >= y && r <= x + y
    decreases x + y
  {
    if x == 0 then y else if y == 0 then x
    else 2 * BitOr(x / 2, y / 2) + (if x % 2 == 1 || y % 2 == 1 then 1 else 0)
  }

  function BitXor(x: nat, y: nat): (r: nat)
    ensures r <= x + y
    decreases x + y
  {
    if x == 0 then y else if y == 0 then x
    else 2 * BitXor(x / 2, y / 2) + (if x % 2 != y % 2 then 1 else 0)
  }

  /** A conjunction of k-bit numbers is all ones exactly when both are. */
  lemma {:induction false} AndOnes(x: nat, y: nat, k: nat)
    requires x < Pow2(k) && y < Pow2(k)
    ensures BitAnd(x, y) == Pow2(k) - 1 <==> x == Pow2(k) - 1 && y == Pow2(k) - 1
  {
    if k > 0 {
      AndOnes(x / 2, y / 2, k - 1);
    }
  }

  /** Exclusive or with a k-bit constant gives all ones exactly at the constant's complement. */
  lemma {:induction false} XorOnes(x: nat, c: nat, k: nat)
    requires x < Pow2(k) && c < Pow2(k)
    ensures BitXor(x, c) < Pow2(k)
    ensures BitXor(x, c) == Pow2(k) - 1 <==> x == Pow2(k) - 1 - c
  {
    if k > 0 {
      XorOnes(x / 2, c / 2, k - 1);
    }
  }
}
