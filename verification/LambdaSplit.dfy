/** Splitting a scalar by the endomorphism (libsecp256k1/src/scalar_impl.h). */
module LambdaSplit {
  import opened Arithmetic
  import opened Scalars
  import opened Secp256k1

  const MINUS_LAMBDA: int := 0xAC9C52B33FA3CF1F5AD9E3FD77ED9BA4A880B9FC8EC739C2E0CFC810B51283CF
  const MINUS_B1: int := 0xE4437ED6010E88286F547FA90ABFE4C3
  const MINUS_B2: int := 0xFFFFFFFFFFFFFFFFFFFFFFFFFFFFFFFE8A280AC50774346DD765CDA83DB1562C
  const G1: int := 0x3086D221A7D46BCDE86C90E49284EB153DAB
  const G2: int := 0xE4437ED6010E88286F547FA90ABFE4C42212

  /** The short vectors (A1, -MINUS_B1) and (A2, B2), which the code does not compute with. */
  const A1: int := 0x3086D221A7D46BCDE86C90E49284EB15
  const A2: int := 0x114CA50F7A8E2F3F657C1108D9D44CFD8
  const B2: int := 0x3086D221A7D46BCDE86C90E49284EB15

  const SHIFT: nat := 272

  /** secp256k1_scalar_mul_shift_var: the product shifted right, plus the bit shifted out last. */
  function MulShift(a: nat, b: nat, shift: nat): (r: nat)
    requires shift > 0
  {
    DivNonNeg(a * b, Pow2(shift));
    DivNonNeg(a * b, Pow2(shift - 1));
    a * b / Pow2(shift) + (a * b / Pow2(shift - 1)) % 2
  }

  /** It divides by 2^shift and rounds to the nearest number, halves up. */
  lemma MulShiftRounds(a: nat, b: nat, shift: nat)
    requires shift > 0
    ensures var half: int := Pow2(shift - 1); -half <= a * b - MulShift(a, b, shift) * Pow2(shift) < half
  {
    var x, h := a * b, Pow2(shift - 1);
    var y := x / h;
    assert Pow2(shift) == h * 2;
    ModOfProduct(x, h, 2);
    assert x == y * h + x % h;
    var r := MulShift(a, b, shift);
    assert r == y / 2 + y % 2;
    hide *;
    HalfUp(x, y / 2, y % 2, h, x % h);
  }

  lemma HalfUp(x: int, q: int, b: int, h: int, rem: int)
    requires 0 <= rem < h && 0 <= b <= 1 && x == (2 * q + b) * h + rem
    ensures -h <= x - (q + b) * (h * 2) < h
  {
    assert (2 * q + b) * h == 2 * (q * h) + b * h;
    assert (q + b) * (h * 2) == 2 * (q * h) + 2 * (b * h);
    assert b * h == if b == 1 then h else 0;
  }

  /** secp256k1_scalar_split_lambda. */
  function SplitLambda(k: nat): (r: (nat, nat))
    ensures r.0 < N && r.1 < N
  {
    var c1 := ScalarMul(MulShift(k, G1, SHIFT), MINUS_B1);
    var c2 := ScalarMul(MulShift(k, G2, SHIFT), MINUS_B2);
    var r2 := ScalarAdd(c1, c2);
    (ScalarAdd(ScalarMul(r2, MINUS_LAMBDA), k), r2)
  }

  /** A scaled estimate g of t * b / n gives the quotient k * b / n to within a half and k / 2t. */
  lemma Estimate(k: int, n: int, t: int, b: int, g: int, c: int)
    requires 0 <= k && 0 <= n && -n <= 2 * (t * b - n * g) <= n && -t <= 2 * (k * g - c * t) <= t
    ensures -(k * n + n * t) <= 2 * (t * (b * k - n * c)) <= k * n + n * t
  {
    var u, v := t * b - n * g, k * g - c * t;
    EstimateError(k, n, t, b, g, c);
    Scaled(u, n, k);
    Scaled(v, t, n);
  }

  lemma Scaled(u: int, n: int, k: int)
    requires -n <= 2 * u <= n && k >= 0
    ensures -(k * n) <= 2 * (k * u) <= k * n
  {
    MulMono(-n, 2 * u, k);
    MulMono(2 * u, n, k);
    assert (2 * u) * k == 2 * (k * u) && (-n) * k == -(k * n);
  }

  lemma EstimateError(k: int, n: int, t: int, b: int, g: int, c: int)
    ensures t * (b * k - n * c) == k * (t * b - n * g) + n * (k * g - c * t)
  {
    assert t * (b * k - n * c) == t * (b * k) - t * (n * c);
    assert k * (t * b - n * g) == k * (t * b) - k * (n * g);
    assert n * (k * g - c * t) == n * (k * g) - n * (c * t);
    assert t * (b * k) == k * (t * b) && t * (n * c) == n * (c * t) && k * (n * g) == n * (k * g);
  }

  /** 2^272. */
  const T: int := 0x1_0000_0000_0000_0000_0000_0000_0000_0000_0000_0000_0000_0000_0000_0000_0000_0000_0000

  lemma Pow2At272(e: nat)
    requires e == 272
    ensures Pow2(e) == T && 2 * Pow2(e - 1) == T
  {
    Pow2At256(e - 16);
    Pow2Add(e - 16, 16);
    Pow2Double(4, 0x10);
    Pow2Double(8, 0x100);
    assert Pow2(e) == 2 * Pow2(e - 1);
  }

  /** How far the rounded multiplication by g is from dividing b * k by n: at most a half and 2^-17.
      It does not exceed b, so it is a scalar. */
  lemma Quotient(k: nat, b: nat, g: nat, shift: nat)
    requires k < N && shift == SHIFT && -N <= 2 * (T * b - N * g) <= N
    ensures -0x1_0001 * N <= 0x2_0000 * (b * k - N * MulShift(k, g, shift)) <= 0x1_0001 * N
    ensures MulShift(k, g, shift) <= b
  {
    MulShiftRounds(k, g, shift);
    Pow2At272(shift);
    var c := MulShift(k, g, shift);
    hide *;
    Estimate(k, N, T, b, g, c);
    assert k * N == N * k;
    var e := b * k - N * c;
    assert 2 * (T * e) <= N * k + N * T && -(N * k + N * T) <= 2 * (T * e);
    MulMono(k, N, b);
    assert b * k == k * b && b * N == N * b;
  }

  /** The two halves before reduction: the distance of (k, 0) from the lattice point near it. */
  ghost function Half1(k: int, c1: int, c2: int): int { k - c1 * A1 - c2 * A2 }
  ghost function Half2(c1: int, c2: int): int { c1 * MINUS_B1 - c2 * B2 }

  ghost predicate Within(x: int) { x < HALF && -x < HALF }

  lemma HalvesSmall(k: int, c1: int, c2: int)
    requires -0x1_0001 * N <= 0x2_0000 * (B2 * k - N * c1) <= 0x1_0001 * N
    requires -0x1_0001 * N <= 0x2_0000 * (MINUS_B1 * k - N * c2) <= 0x1_0001 * N
    ensures Within(Half1(k, c1, c2)) && Within(Half2(c1, c2))
  {
    var e1, e2 := B2 * k - N * c1, MINUS_B1 * k - N * c2;
    assert N * Half1(k, c1, c2) == A1 * e1 + A2 * e2;
    assert N * Half2(c1, c2) == B2 * e2 - MINUS_B1 * e1;
  }

  /** A scalar that stands for a number of at most 128 bits. */
  lemma SmallFrom(r: nat, x: int)
    requires r < N && Congruent(r, x, N) && Within(x)
    ensures Small(r)
  {
    var y := if x < 0 then x + N else x;
    CongruentByWitness(x, y, N, if x < 0 then -1 else 0);
    Transitive(r, x, y, N);
    SmallResidues(r, y, N);
  }

  /** The second half before reduction. */
  lemma SecondHalf(k: nat)
    ensures Congruent(SplitLambda(k).1, Half2(MulShift(k, G1, SHIFT), MulShift(k, G2, SHIFT)), N)
  {
    hide MulShift, Congruent, ScalarMul, ScalarAdd;
    var m1, m2 := MulShift(k, G1, SHIFT), MulShift(k, G2, SHIFT);
    var c1, c2 := ScalarMul(m1, MINUS_B1), ScalarMul(m2, MINUS_B2);
    CongruentByWitness(m2 * MINUS_B2, -(m2 * B2), N, m2);
    Transitive(c2, m2 * MINUS_B2, -(m2 * B2), N);
    CongruentAdd(c1, m1 * MINUS_B1, c2, -(m2 * B2), N);
    Transitive(ScalarAdd(c1, c2), c1 + c2, Half2(m1, m2), N);
  }

  /** The first half before reduction: both short vectors (a, b) have a + b * lambda = 0 modulo n. */
  lemma FirstHalf(k: nat)
    ensures Congruent(SplitLambda(k).0, Half1(k, MulShift(k, G1, SHIFT), MulShift(k, G2, SHIFT)), N)
  {
    SecondHalf(k);
    hide MulShift, Congruent, ScalarMul, ScalarAdd;
    var m1, m2, r2 := MulShift(k, G1, SHIFT), MulShift(k, G2, SHIFT), SplitLambda(k).1;
    var h, t := Half2(m1, m2), ScalarMul(r2, MINUS_LAMBDA);
    CongruentScale(MINUS_LAMBDA, r2, h, N);
    assert r2 * MINUS_LAMBDA == MINUS_LAMBDA * r2;
    Transitive(t, MINUS_LAMBDA * r2, MINUS_LAMBDA * h, N);
    CongruentByWitness(MINUS_LAMBDA * h, -m1 * A1 - m2 * A2, N,
                       0x99E8BC1685AF502E7D796ED168161B42 * m1 - 0x20B83703D2E8EDFB76E267DE1A148963 * m2);
    Transitive(t, MINUS_LAMBDA * h, -m1 * A1 - m2 * A2, N);
    Reflexive(k, N);
    CongruentAdd(t, -m1 * A1 - m2 * A2, k, k, N);
    Transitive(ScalarAdd(t, k), t + k, Half1(k, m1, m2), N);
  }

  /** For every scalar k the halves satisfy r1 + r2 * lambda = k, and each has at most 128 bits up to sign. */
  lemma SplitParts(k: nat)
    requires k < N
    ensures Congruent(SplitLambda(k).0 + SplitLambda(k).1 * LAMBDA, k, N)
    ensures Small(SplitLambda(k).0) && Small(SplitLambda(k).1)
  {
    hide MulShift, Congruent, ScalarMul, ScalarAdd, Small, Half1, Half2, Within, SplitLambda;
    var shift := SHIFT;
    var (r1, r2) := SplitLambda(k);
    FirstHalf(k);
    SecondHalf(k);
    Quotient(k, B2, G1, shift);
    Quotient(k, MINUS_B1, G2, shift);
    var m1, m2 := MulShift(k, G1, SHIFT), MulShift(k, G2, SHIFT);
    HalvesSmall(k, m1, m2);
    SmallFrom(r1, Half1(k, m1, m2));
    SmallFrom(r2, Half2(m1, m2));
    Recombined(k);
  }

  lemma Recombined(k: nat)
    ensures Congruent(SplitLambda(k).0 + SplitLambda(k).1 * LAMBDA, k, N)
  {
    hide MulShift, Congruent, ScalarMul, ScalarAdd;
    var (r1, r2) := SplitLambda(k);
    var t := ScalarMul(r2, MINUS_LAMBDA);
    Reflexive(k, N);
    CongruentAdd(t, r2 * MINUS_LAMBDA, k, k, N);
    Transitive(r1, t + k, r2 * MINUS_LAMBDA + k, N);
    Reflexive(r2 * LAMBDA, N);
    CongruentAdd(r1, r2 * MINUS_LAMBDA + k, r2 * LAMBDA, r2 * LAMBDA, N);
    CongruentByWitness(r2 * MINUS_LAMBDA + k + r2 * LAMBDA, k, N, r2);
    Transitive(r1 + r2 * LAMBDA, r2 * MINUS_LAMBDA + k + r2 * LAMBDA, k, N);
  }
}
