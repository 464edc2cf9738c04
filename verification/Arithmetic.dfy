/** Powers of two, bit fields and congruences, shared by the curve modules. */
module Arithmetic {

  function Pow2(e: nat): (r: nat)
    ensures r >= 1
  {
    if e == 0 then 1 else 2 * Pow2(e - 1)
  }

  lemma {:induction false} Pow2Add(a: nat, b: nat)
    ensures Pow2(a + b) == Pow2(a) * Pow2(b)
  {
    if a > 0 {
      Pow2Add(a - 1, b);
      assert Pow2(a + b) == 2 * Pow2(a - 1 + b);
      assert 2 * (Pow2(a - 1) * Pow2(b)) == (2 * Pow2(a - 1)) * Pow2(b);
    }
  }

  lemma {:induction false} Pow2Mono(a: nat, b: nat)
    requires a <= b
    ensures Pow2(a) <= Pow2(b)
    decreases b
  {
    if a < b { Pow2Mono(a, b - 1); }
  }

  /** Numerals are reached by doubling the exponent, so that no exponent is unrolled. */
  lemma Pow2Double(e: nat, v: int)
    requires Pow2(e) == v
    ensures Pow2(2 * e) == v * v
  {
    Pow2Add(e, e);
  }

  lemma Pow2At32(e: nat)
    requires e == 32
    ensures Pow2(e) == 0x1_0000_0000
  {
    Pow2Double(4, 0x10);
    Pow2Double(8, 0x100);
    Pow2Double(16, 0x1_0000);
  }

  lemma Pow2At128(e: nat)
    requires e == 128
    ensures Pow2(e) == 0x1_0000_0000_0000_0000_0000_0000_0000_0000
  {
    var h := e / 4;
    Pow2At32(h);
    Pow2Double(h, 0x1_0000_0000);
    Pow2Double(2 * h, 0x1_0000_0000_0000_0000);
  }

  lemma Pow2At256(e: nat)
    requires e == 256
    ensures Pow2(e) == 0x1_0000_0000_0000_0000_0000_0000_0000_0000_0000_0000_0000_0000_0000_0000_0000_0000
  {
    var h := e / 2;
    Pow2At128(h);
    Pow2Double(h, 0x1_0000_0000_0000_0000_0000_0000_0000_0000);
  }

  /** Quotient and remainder are the only pair that divides `a` by `m`. */
  lemma DivModUnique(a: int, m: int, q: int, r: int)
    requires m > 0 && a == q * m + r && 0 <= r < m
    ensures a / m == q && a % m == r
  {
    var d := a / m - q;
    assert a == (a / m) * m + a % m;
    assert d * m == r - a % m by {
      assert (a / m) * m - q * m == d * m;
    }
    if d > 0 {
      assert false;
    }
    if d < 0 {
      assert false;
    }
  }

  lemma DivNonNeg(s: int, m: int)
    requires s >= 0 && m > 0
    ensures s / m >= 0
  {}

  /** Bits `lo .. lo + count` of `s`, as secp256k1_scalar_get_bits returns them. */
  function Bits(s: nat, lo: nat, count: nat): (r: nat)
    ensures r < Pow2(count)
  {
    (s / Pow2(lo)) % Pow2(count)
  }

  lemma ModOfProduct(s: int, a: int, b: int)
    requires a > 0 && b > 0
    ensures a * b > 0 && s % (a * b) == s % a + a * ((s / a) % b)
    ensures s / (a * b) == (s / a) / b
  {
    var q2, r2 := (s / a) / b, (s / a) % b;
    assert s == (s / a) * a + s % a;
    assert s / a == q2 * b + r2;
    hide *;
    TwoDigits(s, a, b, s / a, s % a, q2, r2);
    DivModUnique(s, a * b, q2, s % a + a * r2);
  }

  /** Dividing by a and then by b leaves a number below a * b. */
  lemma TwoDigits(s: int, a: int, b: int, q: int, r: int, q2: int, r2: int)
    requires a > 0 && b > 0 && s == q * a + r && q == q2 * b + r2 && 0 <= r < a && 0 <= r2 < b
    ensures 0 < a * b && s == q2 * (a * b) + (r + a * r2) && 0 <= r + a * r2 < a * b
  {
    assert q * a == q2 * (a * b) + a * r2 by {
      assert (q2 * b + r2) * a == (q2 * b) * a + r2 * a;
      assert (q2 * b) * a == q2 * (a * b);
    }
    MulMono(r2, b - 1, a);
    MulMono(0, r2, a);
    assert (b - 1) * a == a * b - a;
  }

  lemma MulMono(a: int, b: int, w: int)
    requires a <= b && 0 <= w
    ensures a * w <= b * w
  {
    if a < b { assert (b - a) * w >= 0; }
  }

  /** Taking `count` more bits of `s` adds them above the bits already taken. */
  lemma LowBitsExtend(s: nat, lo: nat, count: nat)
    ensures s % Pow2(lo + count) == s % Pow2(lo) + Pow2(lo) * Bits(s, lo, count)
  {
    Pow2Add(lo, count);
    ModOfProduct(s, Pow2(lo), Pow2(count));
  }

  lemma ParityOfMod(q: int, h: int)
    requires h > 0
    ensures (q % (2 * h)) % 2 == q % 2
  {
    ModOfProduct(q, 2, h);
    var x := (q / 2) % h;
    assert (q % 2 + 2 * x) % 2 == q % 2;
  }

  /** The lowest of `count` bits has the parity of the whole field. */
  lemma BitsParity(s: nat, lo: nat, count: nat)
    requires count > 0
    ensures Bits(s, lo, count) % 2 == Bits(s, lo, 1)
  {
    assert Pow2(1) == 2;
    ParityOfMod(s / Pow2(lo), Pow2(count - 1));
  }

  /** A field of count + 1 bits is its top bit above the lower field. */
  lemma BitsTop(s: nat, lo: nat, count: nat)
    ensures Bits(s, lo, count + 1) == Bits(s, lo, count) + Pow2(count) * Bits(s, lo + count, 1)
  {
    var p, h := Pow2(lo), Pow2(count);
    Pow2Add(lo, count);
    ModOfProduct(s / p, h, 2);
    ModOfProduct(s, p, h);
    assert Pow2(1) == 2;
    assert Pow2(count + 1) == h * 2;
  }

  /** The k-th multiple of m, by repeated addition. */
  ghost function Times(k: int, m: int): int
    decreases if k < 0 then -k else k
  {
    if k == 0 then 0 else if k > 0 then Times(k - 1, m) + m else Times(k + 1, m) - m
  }

  lemma {:induction false} TimesIsProduct(k: int, m: int)
    ensures Times(k, m) == k * m
    decreases if k < 0 then -k else k
  {
    if k > 0 {
      TimesIsProduct(k - 1, m);
      assert (k - 1) * m + m == k * m;
    } else if k < 0 {
      TimesIsProduct(k + 1, m);
      assert (k + 1) * m - m == k * m;
    }
  }

  /** a and b differ by a multiple of m. */
  ghost predicate Congruent(a: int, b: int, m: int)
  {
    exists k: int {:trigger Times(k, m)} :: a == b + Times(k, m)
  }

  lemma CongruentByWitness(a: int, b: int, m: int, k: int)
    requires a == b + k * m
    ensures Congruent(a, b, m)
  {
    TimesIsProduct(k, m);
  }

  lemma CongruentWitness(a: int, b: int, m: int) returns (k: int)
    requires Congruent(a, b, m)
    ensures a == b + k * m
  {
    k :| a == b + Times(k, m);
    TimesIsProduct(k, m);
  }

  lemma Reflexive(a: int, m: int)
    ensures Congruent(a, a, m)
  {
    CongruentByWitness(a, a, m, 0);
  }

  lemma Symmetric(a: int, b: int, m: int)
    requires Congruent(a, b, m)
    ensures Congruent(b, a, m)
  {
    var k := CongruentWitness(a, b, m);
    CongruentByWitness(b, a, m, -k);
  }

  lemma Transitive(a: int, b: int, c: int, m: int)
    requires Congruent(a, b, m) && Congruent(b, c, m)
    ensures Congruent(a, c, m)
  {
    var j := CongruentWitness(a, b, m);
    var k := CongruentWitness(b, c, m);
    CongruentByWitness(a, c, m, j + k) by { assert (j + k) * m == j * m + k * m; }
  }

  lemma SameClass(a: int, b: int, c: int, m: int)
    requires Congruent(a, b, m)
    ensures Congruent(a, c, m) <==> Congruent(b, c, m)
  {
    hide Congruent;
    Symmetric(a, b, m);
    if Congruent(a, c, m) { Transitive(b, a, c, m); }
    if Congruent(b, c, m) { Transitive(a, b, c, m); }
  }

  /** Congruence is having the same remainder. */
  lemma CongruentIffMod(a: int, b: int, m: int)
    requires m > 0
    ensures Congruent(a, b, m) <==> a % m == b % m
  {
    var q, r := b / m, b % m;
    assert b == q * m + r;
    if Congruent(a, b, m) {
      var k := CongruentWitness(a, b, m);
      assert (q + k) * m == q * m + k * m;
      DivModUnique(a, m, q + k, r);
    }
    if a % m == r {
      assert a == (a / m) * m + r;
      CongruentByWitness(a, b, m, a / m - q) by { assert (a / m - q) * m == (a / m) * m - q * m; }
    }
  }

  lemma CongruentAdd(a: int, b: int, c: int, d: int, m: int)
    requires Congruent(a, b, m) && Congruent(c, d, m)
    ensures Congruent(a + c, b + d, m) && Congruent(a - c, b - d, m)
  {
    var j := CongruentWitness(a, b, m);
    var k := CongruentWitness(c, d, m);
    assert (j + k) * m == j * m + k * m;
    assert (j - k) * m == j * m - k * m;
    CongruentByWitness(a + c, b + d, m, j + k);
    CongruentByWitness(a - c, b - d, m, j - k);
  }

  lemma ProductWitness(b: int, j: int, d: int, k: int, m: int)
    ensures (b + j * m) * (d + k * m) == b * d + (j * d + b * k + (j * k) * m) * m
  {
    calc {
      (b + j * m) * (d + k * m);
      b * (d + k * m) + (j * m) * (d + k * m);
      b * d + b * (k * m) + ((j * m) * d + (j * m) * (k * m));
      b * d + (b * k) * m + ((j * d) * m + ((j * k) * m) * m);
    }
  }

  lemma CongruentMul(a: int, b: int, c: int, d: int, m: int)
    requires Congruent(a, b, m) && Congruent(c, d, m)
    ensures Congruent(a * c, b * d, m)
  {
    var j := CongruentWitness(a, b, m);
    var k := CongruentWitness(c, d, m);
    ProductWitness(b, j, d, k, m);
    CongruentByWitness(a * c, b * d, m, j * d + b * k + (j * k) * m);
  }

  lemma CongruentScale(c: int, a: int, b: int, m: int)
    requires Congruent(a, b, m)
    ensures Congruent(c * a, c * b, m)
  {
    Reflexive(c, m);
    CongruentMul(c, c, a, b, m);
  }

  lemma ModSmall(a: int, m: int)
    requires 0 <= a < m
    ensures a % m == a
  {
    DivModUnique(a, m, 0, a);
  }

  lemma ModCongruent(a: int, m: int)
    requires m > 0
    ensures 0 <= a % m < m && Congruent(a % m, a, m)
  {
    CongruentByWitness(a % m, a, m, -(a / m)) by { assert a == (a / m) * m + a % m; }
  }

  lemma SmallResidues(a: int, b: int, m: int)
    requires 0 <= a < m && 0 <= b < m && Congruent(a, b, m)
    ensures a == b
  {
    CongruentIffMod(a, b, m);
    ModSmall(a, m);
    ModSmall(b, m);
  }
}
