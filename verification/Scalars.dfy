/** Scalars modulo the group order, at the level the curve code calls them. */
module Scalars {
  import opened Arithmetic
  import opened Secp256k1

  function NegateScalar(a: nat): (r: nat)
    requires a < N
    ensures r < N && (a + r) % N == 0
  {
    if a == 0 then 0 else N - a
  }

  function ScalarMul(a: nat, b: nat): (r: nat)
    ensures r < N && Congruent(r, a * b, N)
  {
    ModCongruent(a * b, N);
    (a * b) % N
  }

  function ScalarAdd(a: nat, b: nat): (r: nat)
    ensures r < N && Congruent(r, a + b, N)
  {
    ModCongruent(a + b, N);
    (a + b) % N
  }

  /** The representative that wNAF recoding uses: scalars with bit 255 set count as negative. */
  function Signed(a: nat): (r: int)
    requires a < N
    ensures Congruent(r, a, N)
  {
    CongruentByWitness(a, a, N, 0);
    CongruentByWitness(a - N, a, N, -1);
    if a < 0x8000000000000000000000000000000000000000000000000000000000000000 then a else a - N
  }

  function Magnitude(a: nat): (r: nat)
    requires a < N
  {
    if Signed(a) < 0 then -Signed(a) else Signed(a)
  }

  const HALF: nat := 0x1_0000_0000_0000_0000_0000_0000_0000_0000

  /** The scalar or its negative has at most 128 bits. */
  ghost predicate Small(a: nat)
    requires a < N
  {
    Magnitude(a) < HALF
  }

  /** The sign test of the recoding reads bit 255. */
  lemma HighBit(a: nat, top: nat)
    requires a < N && top == 255
    ensures Bits(a, top, 1) == if Signed(a) < 0 then 1 else 0
    ensures Magnitude(a) == if Signed(a) < 0 then NegateScalar(a) else a
  {
    Pow2At256(top + 1);
    var h := 0x8000000000000000000000000000000000000000000000000000000000000000;
    if a < h {
      DivModUnique(a, h, 0, a);
    } else {
      DivModUnique(a, h, 1, a - h);
    }
    assert Pow2(1) == 2;
  }
}
