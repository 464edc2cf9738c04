/** Primality certificates: the criterion of Pocklington, and powers climbed one bit at a time. */
module Certificates {
  import opened Arithmetic
  import opened Primes

  lemma {:induction false} PowMul(b: int, e: nat, f: nat)
    ensures Pow(Pow(b, e), f) == Pow(b, e * f)
  {
    if f > 0 {
      PowMul(b, e, f - 1);
      assert e * f == e + e * (f - 1);
      PowAdd(b, e, e * (f - 1));
    }
  }

  /** Congruent modulo n is congruent modulo every divisor of n. */
  lemma ModDivisor(a: int, b: int, n: int, s: int)
    requires Congruent(a, b, n) && Congruent(n, 0, s)
    ensures Congruent(a, b, s)
  {
    var j := CongruentWitness(a, b, n);
    var k := CongruentWitness(n, 0, s);
    CongruentByWitness(a, b, s, j * k) by { assert j * (k * s) == (j * k) * s; }
  }

  /** An element whose power q is 1, and which is not 1 itself, has order q: q divides s - 1. */
  lemma OrderDivides(y: int, q: int, s: int)
    requires Prime(q) && Prime(s) && Congruent(Pow(y, q), 1, s) && !Congruent(y, 1, s)
    ensures Congruent(s, 1, q)
  {
    if !Congruent(s, 1, q) {
      Difference(s, 1, q);
      NonZeroBase(y, q, s);
      hide Prime, Congruent;
      Fermat(y, s);
      var x := InvertAny(s - 1, q);
      ModCongruent(x, q);
      CongruentScale(s - 1, x % q, x, q);
      Transitive((s - 1) * (x % q), (s - 1) * x, 1, q);
      OrderOne(y, q, s, x % q);
    }
  }

  lemma NonZeroBase(y: int, q: int, s: int)
    requires q > 0 && s > 1 && Congruent(Pow(y, q), 1, s)
    ensures !Congruent(y, 0, s)
  {
    if Congruent(y, 0, s) {
      ZeroPower(y, q, s);
      NotZero(1, s);
      hide Congruent;
      Symmetric(Pow(y, q), 1, s);
      Transitive(1, Pow(y, q), 0, s);
    }
  }

  /** Exponents s - 1 and q that both give 1, and are coprime, leave only 1. */
  lemma OrderOne(y: int, q: int, s: int, x: nat)
    requires q > 1 && s > 1 && Congruent((s - 1) * x, 1, q)
    requires Congruent(Pow(y, q), 1, s) && Congruent(Pow(y, s - 1), 1, s)
    ensures Congruent(y, 1, s)
  {
    var k := CongruentWitness((s - 1) * x, 1, q);
    MulMono(0, s - 1, x);
    if k < 0 { MulMono(k, -1, q); }
    hide Congruent;
    PowerOfOne(y, s - 1, x, s);
    PowerOfOne(y, q, k, s);
    assert q * k == k * q;
    PowAdd(y, 1, q * k);
    assert Pow(y, 1) == y * Pow(y, 0);
    CongruentScale(y, Pow(y, q * k), 1, s);
    Symmetric(y * Pow(y, q * k), y, s);
    Transitive(y, Pow(y, (s - 1) * x), 1, s);
  }

  lemma PowerOfOne(y: int, e: nat, f: nat, s: int)
    requires Congruent(Pow(y, e), 1, s)
    ensures e * f >= 0 && Congruent(Pow(y, e * f), 1, s)
  {
    PowResidue(Pow(y, e), 1, f, s);
    PowOne(f);
    PowMul(y, e, f);
  }

  /** Every prime divisor of n is 1 modulo f. */
  ghost predicate OneModulo(n: int, f: int)
  {
    forall s: int {:trigger Prime(s)} :: Prime(s) && Congruent(n, 0, s) ==> Congruent(s, 1, f)
  }

  /** What a witness y for the prime q shows about n. */
  lemma WitnessShows(n: int, q: int, y: int, u: int)
    requires Prime(q) && Congruent(Pow(y, q), 1, n) && Congruent((y - 1) * u, 1, n)
    ensures OneModulo(n, q)
  {
    forall s: int | Prime(s) && Congruent(n, 0, s) ensures Congruent(s, 1, q) {
      ModDivisor(Pow(y, q), 1, n, s);
      ModDivisor((y - 1) * u, 1, n, s);
      NotZero(1, s);
      hide Prime, Congruent;
      if Congruent(y, 1, s) {
        Difference(y, 1, s);
        CongruentScale(u, y - 1, 0, s);
        assert u * (y - 1) == (y - 1) * u;
        Symmetric((y - 1) * u, 1, s);
        Transitive(1, (y - 1) * u, 0, s);
      }
      OrderDivides(y, q, s);
    }
  }

  /** Two coprime moduli join. */
  lemma JoinModuli(n: int, f: int, q: int)
    requires Prime(q) && !Congruent(f, 0, q) && OneModulo(n, f) && OneModulo(n, q)
    ensures OneModulo(n, f * q)
  {
    forall s: int | Prime(s) && Congruent(n, 0, s) ensures Congruent(s, 1, f * q) {
      JoinAt(s, f, q);
    }
  }

  lemma JoinAt(s: int, f: int, q: int)
    requires Prime(q) && !Congruent(f, 0, q) && Congruent(s, 1, f) && Congruent(s, 1, q)
    ensures Congruent(s, 1, f * q)
  {
    hide Prime, Congruent;
    var k := CongruentWitness(s, 1, f);
    Difference(s, 1, q);
    assert s - 1 == f * k;
    ZeroProduct(f, k, q);
    var j := CongruentWitness(k, 0, q);
    CongruentByWitness(s, 1, f * q, j) by { Exchange(j, f, q); }
  }

  /** The least divisor of a number that is not prime is prime, and its square does not exceed the number. */
  lemma {:induction false} LeastDivisor(n: int, d: int) returns (s: int)
    requires 1 < d < n && Congruent(n, 0, d)
    ensures Prime(s) && Congruent(n, 0, s) && s * s <= n
    decreases d
  {
    var k := CongruentWitness(n, 0, d);
    Cofactor(n, d, k);
    if k < d {
      CongruentByWitness(n, 0, k, d) by { assert k * d == d * k; }
      s := LeastDivisor(n, k);
    } else if Prime(d) {
      s := d;
      MulMono(d, k, d);
    } else {
      var e: int :| 1 < e < d && Congruent(d, 0, e);
      ModDivisor(n, 0, d, e);
      s := LeastDivisor(n, e);
    }
  }

  lemma Cofactor(n: int, d: int, k: int)
    requires 1 < d < n && n == k * d
    ensures 1 < k
  {
    if k <= 1 { MulMono(k, 1, d); }
  }

  /** The criterion of Pocklington. */
  lemma Pocklington(n: int, f: int)
    requires n > 1 && 0 < f && n < f * f && OneModulo(n, f)
    ensures Prime(n)
  {
    if !Prime(n) {
      var d: int :| 1 < d < n && Congruent(n, 0, d);
      var s := LeastDivisor(n, d);
      assert Congruent(s, 1, f);
      TooLarge(n, f, s);
    }
  }

  lemma TooLarge(n: int, f: int, s: int)
    requires 0 < f && 1 < s && Congruent(s, 1, f)
    ensures f * f < s * s
  {
    var k := CongruentWitness(s, 1, f);
    if k <= 0 { MulMono(k, 0, f); } else { MulMono(1, k, f); }
    MulMono(f, s, f);
    MulMono(f, s, s);
    assert f * s < s * s by { assert (s - f) * s > 0; }
  }

  ghost predicate PowerIs(y: int, e: nat, x: int, n: int)
  {
    Congruent(Pow(y, e), x, n)
  }

  lemma FirstPower(y: int, n: int)
    ensures PowerIs(y, 1, y, n)
  {
    assert Pow(y, 1) == y * Pow(y, 0);
    Reflexive(y, n);
  }

  /** One bit of an exponent: square, multiply by the base when the bit is set, and reduce. */
  lemma Climb(y: int, e: nat, x: int, n: int, bit: bool, k: int, next: int) returns (f: nat, z: int)
    requires PowerIs(y, e, x, n) && (if bit then (x * x) * y else x * x) == k * n + next
    ensures f == 2 * e + (if bit then 1 else 0) && z == next && PowerIs(y, f, z, n)
  {
    f, z := 2 * e + (if bit then 1 else 0), next;
    PowAdd(y, e, e);
    hide Congruent;
    var t := Pow(y, e) * Pow(y, e);
    CongruentMul(Pow(y, e), x, Pow(y, e), x, n);
    if bit {
      CongruentScale(y, t, x * x, n);
      CongruentByWitness(y * (x * x), next, n, k);
      Transitive(y * t, y * (x * x), next, n);
    } else {
      CongruentByWitness(x * x, next, n, k);
      Transitive(t, x * x, next, n);
    }
  }

  /** No number from d up to the square root divides n. */
  predicate NoDivisor(n: nat, d: nat)
    requires d > 0
    decreases n - d
  {
    d * d > n || d >= n || (n % d != 0 && NoDivisor(n, d + 1))
  }

  lemma {:induction false} NoDivisorAt(n: nat, d: nat, s: nat)
    requires 0 < d <= s < n && s * s <= n && NoDivisor(n, d)
    ensures n % s != 0
    decreases s - d
  {
    MulMono(d, s, d);
    MulMono(d, s, s);
    if d < s { NoDivisorAt(n, d + 1, s); }
  }

  lemma TrialDivision(n: nat)
    requires n > 1 && NoDivisor(n, 2)
    ensures Prime(n)
  {
    if !Prime(n) {
      var d: int :| 1 < d < n && Congruent(n, 0, d);
      var s := LeastDivisor(n, d);
      if s >= n { MulMono(n, s, s); MulMono(2, s, s); }
      CongruentIffMod(n, 0, s);
      ModSmall(0, s);
      NoDivisorAt(n, 2, s);
    }
  }

  /** A power q that came out as 1 is a witness for q. */
  lemma OfPowerOne(n: int, q: nat, y: int, x: int, u: int, k: int)
    requires Prime(q) && x == 1 && PowerIs(y, q, x, n) && (y - 1) * u == 1 + k * n
    ensures OneModulo(n, q)
  {
    hide Prime, OneModulo, Congruent;
    CongruentByWitness((y - 1) * u, 1, n, k);
    WitnessShows(n, q, y, u);
  }

  lemma NotMultiple(f: int, q: int, k: int, r: int)
    requires f == k * q + r && 0 < r < q
    ensures !Congruent(f, 0, q)
  {
    CongruentByWitness(r, f, q, -k);
    NotZero(r, q);
    hide Congruent;
    if Congruent(f, 0, q) { Transitive(r, f, 0, q); }
  }
}
