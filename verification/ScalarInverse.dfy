/** Inversion modulo the group order by the power n - 2 (libsecp256k1/src/scalar_impl.h). */
module ScalarInverse {
  import opened Arithmetic
  import opened Scalars
  import opened Secp256k1
  import opened Primes
  import opened OrderPrime

  /** t stands for x^e modulo n. */
  ghost predicate IsPow(t: nat, x: nat, e: nat)
  {
    t < N && Congruent(t, Pow(x, e), N)
  }

  lemma ProductPow(t: nat, e: nat, u: nat, f: nat, x: nat)
    requires IsPow(t, x, e) && IsPow(u, x, f)
    ensures IsPow(ScalarMul(t, u), x, e + f)
  {
    hide Congruent, Pow, ScalarMul;
    CongruentMul(t, Pow(x, e), u, Pow(x, f), N);
    PowAdd(x, e, f);
    Transitive(ScalarMul(t, u), t * u, Pow(x, e + f), N);
  }

  /** A run of k squarings, and a multiplication by another power: k zero bits filled with f. */
  method Absorb(t: nat, k: nat, y: nat, ghost x: nat, ghost e: nat, ghost f: nat) returns (r: nat, ghost g: nat)
    requires IsPow(t, x, e) && IsPow(y, x, f)
    ensures g == e * Pow2(k) + f && IsPow(r, x, g)
  {
    hide IsPow, ScalarMul;
    r, g := t, e;
    for i := 0 to k
      invariant g == e * Pow2(i) && IsPow(r, x, g)
    {
      ProductPow(r, g, r, g, x);
      r, g := ScalarMul(r, r), g + g;
    }
    ProductPow(r, g, y, f, x);
    r, g := ScalarMul(r, y), g + f;
  }

  lemma SmallPowers()
    ensures Pow2(1) == 2 && Pow2(2) == 4 && Pow2(3) == 8 && Pow2(4) == 16 && Pow2(5) == 32 && Pow2(6) == 64
    ensures Pow2(7) == 128 && Pow2(8) == 256 && Pow2(9) == 512 && Pow2(10) == 1024
  {}

  lemma FirstPow(x: nat)
    requires x < N
    ensures IsPow(x, x, 1)
  {
    assert Pow(x, 1) == x * Pow(x, 0);
    Reflexive(x, N);
  }

  /** x^(2^j - 1) for the small j of the chain. */
  method Blocks(x: nat) returns (x2: nat, x3: nat, x4: nat, x6: nat, x7: nat, x8: nat)
    requires x < N
    ensures IsPow(x, x, 1) && IsPow(x2, x, 3) && IsPow(x3, x, 7) && IsPow(x4, x, 15)
    ensures IsPow(x6, x, 63) && IsPow(x7, x, 127) && IsPow(x8, x, 255)
  {
    FirstPow(x);
    SmallPowers();
    hide IsPow, Pow2;
    ghost var g;
    x2, g := Absorb(x, 1, x, x, 1, 1);
    x3, g := Absorb(x2, 1, x, x, 3, 1);
    x4, g := Absorb(x3, 1, x, x, 7, 1);
    x6, g := Absorb(x4, 2, x2, x, 15, 3);
    x7, g := Absorb(x6, 1, x, x, 63, 1);
    x8, g := Absorb(x7, 1, x, x, 127, 1);
  }

  /** x^(2^127 - 1). */
  method Block127(x7: nat, x8: nat, ghost x: nat) returns (x127: nat)
    requires IsPow(x7, x, 127) && IsPow(x8, x, 255)
    ensures IsPow(x127, x, 0x7FFFFFFFFFFFFFFF_FFFFFFFFFFFFFFFF)
  {
    LargePowers();
    hide IsPow, Pow2;
    ghost var g;
    var x15, x30, x60, x120;
    x15, g := Absorb(x8, 7, x7, x, 255, 127);
    x30, g := Absorb(x15, 15, x15, x, g, g);
    x60, g := Absorb(x30, 30, x30, x, g, g);
    x120, g := Absorb(x60, 60, x60, x, g, g);
    x127, g := Absorb(x120, 7, x7, x, g, 127);
  }

  lemma LargePowers()
    ensures Pow2(7) == 128 && Pow2(15) == 0x8000 && Pow2(30) == 0x40000000 && Pow2(60) == 0x1000000000000000
  {
    SmallPowers();
    var k := 15;
    assert Pow2(k) == 0x8000 by { Pow2Add(7, 8); }
    Pow2Double(k, 0x8000);
    Pow2Double(2 * k, 0x40000000);
  }

  method Tail1(t: nat, x: nat, x2: nat, x3: nat) returns (r: nat)
    requires IsPow(t, x, 0x7FFFFFFFFFFFFFFF_FFFFFFFFFFFFFFFF) && IsPow(x, x, 1)
    requires IsPow(x2, x, 3) && IsPow(x3, x, 7)
    ensures IsPow(r, x, 0x1FFFFFFFF_FFFFFFFFFFFFFFFF_FFFFFFFD755DB9CD)
  {
    SmallPowers();
    hide IsPow, Pow2;
    ghost var g := 0x7FFFFFFFFFFFFFFF_FFFFFFFFFFFFFFFF;
    r := t;
    r, g := Absorb(r, 2, x, x, g, 1);
    r, g := Absorb(r, 4, x3, x, g, 7);
    r, g := Absorb(r, 2, x, x, g, 1);
    r, g := Absorb(r, 2, x, x, g, 1);
    r, g := Absorb(r, 2, x, x, g, 1);
    r, g := Absorb(r, 4, x3, x, g, 7);
    r, g := Absorb(r, 3, x2, x, g, 3);
    r, g := Absorb(r, 4, x3, x, g, 7);
    r, g := Absorb(r, 5, x3, x, g, 7);
    r, g := Absorb(r, 4, x2, x, g, 3);
    r, g := Absorb(r, 2, x, x, g, 1);
  }

  method Tail2(t: nat, x: nat, x3: nat, x4: nat, x8: nat) returns (r: nat)
    requires IsPow(t, x, 0x1FFFFFFFF_FFFFFFFFFFFFFFFF_FFFFFFFD755DB9CD) && IsPow(x, x, 1)
    requires IsPow(x3, x, 7) && IsPow(x4, x, 15) && IsPow(x8, x, 255)
    ensures IsPow(r, x, 0x7FFF_FFFFFFFFFFFFFFFF_FFFFFFFFFFFF5D57_6E7357A4501DDFE9)
  {
    SmallPowers();
    hide IsPow, Pow2;
    ghost var g := 0x1FFFFFFFF_FFFFFFFFFFFFFFFF_FFFFFFFD755DB9CD;
    r := t;
    r, g := Absorb(r, 2, x, x, g, 1);
    r, g := Absorb(r, 5, x4, x, g, 15);
    r, g := Absorb(r, 2, x, x, g, 1);
    r, g := Absorb(r, 3, x, x, g, 1);
    r, g := Absorb(r, 4, x, x, g, 1);
    r, g := Absorb(r, 2, x, x, g, 1);
    r, g := Absorb(r, 10, x3, x, g, 7);
    r, g := Absorb(r, 4, x3, x, g, 7);
    r, g := Absorb(r, 9, x8, x, g, 255);
    r, g := Absorb(r, 2, x, x, g, 1);
    r, g := Absorb(r, 3, x, x, g, 1);
  }

  method Tail3(t: nat, x: nat, x2: nat, x4: nat, x6: nat) returns (r: nat)
    requires IsPow(t, x, 0x7FFF_FFFFFFFFFFFFFFFF_FFFFFFFFFFFF5D57_6E7357A4501DDFE9) && IsPow(x, x, 1)
    requires IsPow(x2, x, 3) && IsPow(x4, x, 15) && IsPow(x6, x, 63)
    ensures IsPow(r, x, N - 2)
  {
    SmallPowers();
    hide IsPow, Pow2;
    ghost var g := 0x7FFF_FFFFFFFFFFFFFFFF_FFFFFFFFFFFF5D57_6E7357A4501DDFE9;
    r := t;
    r, g := Absorb(r, 3, x, x, g, 1);
    r, g := Absorb(r, 5, x4, x, g, 15);
    r, g := Absorb(r, 2, x, x, g, 1);
    r, g := Absorb(r, 5, x2, x, g, 3);
    r, g := Absorb(r, 4, x2, x, g, 3);
    r, g := Absorb(r, 2, x, x, g, 1);
    r, g := Absorb(r, 8, x2, x, g, 3);
    r, g := Absorb(r, 3, x2, x, g, 3);
    r, g := Absorb(r, 3, x, x, g, 1);
    r, g := Absorb(r, 6, x, x, g, 1);
    r, g := Absorb(r, 8, x6, x, g, 63);
  }

  /** The power n - 2 modulo n. */
  ghost function OrderPower(x: nat): nat
  {
    Pow(x, N - 2) % N
  }

  /** secp256k1_scalar_inverse: the chain computes the power n - 2. */
  method Inverse(x: nat) returns (r: nat)
    requires x < N
    ensures r == OrderPower(x) < N && (x == 0 ==> r == 0)
    ensures x > 0 ==> 0 < r && Congruent(x * r, 1, N)
  {
    hide IsPow, Pow;
    var x2, x3, x4, x6, x7, x8 := Blocks(x);
    var x127 := Block127(x7, x8, x);
    var t := Tail1(x127, x, x2, x3);
    t := Tail2(t, x, x3, x4, x8);
    r := Tail3(t, x, x2, x4, x6);
    ReducedPower(r, x, N - 2);
    OrderPowerInverts(x);
  }

  lemma ReducedPower(r: nat, x: nat, e: nat)
    requires IsPow(r, x, e)
    ensures r == Pow(x, e) % N
  {
    hide Pow;
    CongruentIffMod(r, Pow(x, e), N);
    ModSmall(r, N);
  }

  /** The power n - 2 inverts every scalar but zero, which stays zero. */
  lemma OrderPowerInverts(x: nat)
    requires x < N
    ensures OrderPower(x) < N && (x == 0 ==> OrderPower(x) == 0)
    ensures x > 0 ==> 0 < OrderPower(x) && Congruent(x * OrderPower(x), 1, N)
  {
    var n := N;
    hide OrderPower, Pow;
    PowerIs(x, n);
    if x == 0 { ZeroScalar(n); } else { InverseAt(x, n); }
  }

  lemma PowerIs(x: nat, n: int)
    requires n == N
    ensures OrderPower(x) == Pow(x, n - 2) % n
  {}

  lemma ZeroScalar(n: int)
    requires n == N
    ensures Pow(0, n - 2) % n == 0
  {
    assert Pow(0, n - 2) == 0 * Pow(0, n - 3);
  }

  lemma InverseAt(a: nat, n: int)
    requires 0 < a < n && n == N
    ensures 0 < Pow(a, n - 2) % n < n && Congruent(a * (Pow(a, n - 2) % n), 1, n)
  {
    var x := Pow(a, n - 2);
    OrderIsPrime();
    NotZero(a, n);
    assert Pow(a, n - 1) == a * x;
    ModCongruent(x, n);
    hide Pow, Prime, Congruent;
    Fermat(a, n);
    CongruentScale(a, x % n, x, n);
    Transitive(a * (x % n), a * x, 1, n);
    if x % n == 0 { SmallResidues(0, 1, n); }
  }
}
