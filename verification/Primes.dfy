/** Prime moduli: inverses, the lemma of Euclid and the little theorem of Fermat. */
module Primes {
  import opened Arithmetic

  ghost predicate Prime(p: int)
  {
    p > 1 && forall d: int {:trigger Congruent(p, 0, d)} :: 1 < d < p ==> !Congruent(p, 0, d)
  }

  ghost function Pow(b: int, e: nat): int
  {
    if e == 0 then 1 else b * Pow(b, e - 1)
  }

  lemma {:induction false} PowAdd(b: int, e: nat, f: nat)
    ensures Pow(b, e + f) == Pow(b, e) * Pow(b, f)
  {
    if e > 0 {
      PowAdd(b, e - 1, f);
      assert b * (Pow(b, e - 1) * Pow(b, f)) == (b * Pow(b, e - 1)) * Pow(b, f);
    }
  }

  lemma {:induction false} PowResidue(a: int, b: int, e: nat, m: int)
    requires Congruent(a, b, m)
    ensures Congruent(Pow(a, e), Pow(b, e), m)
  {
    if e == 0 {
      Reflexive(1, m);
    } else {
      PowResidue(a, b, e - 1, m);
      hide Congruent;
      CongruentMul(a, b, Pow(a, e - 1), Pow(b, e - 1), m);
    }
  }

  lemma {:induction false} PowOne(e: nat)
    ensures Pow(1, e) == 1
  {
    if e > 0 { PowOne(e - 1); }
  }

  lemma ZeroPower(a: int, e: nat, m: int)
    requires e > 0 && Congruent(a, 0, m)
    ensures Congruent(Pow(a, e), 0, m)
  {
    PowResidue(a, 0, e, m);
    assert Pow(0, e) == 0 * Pow(0, e - 1);
  }

  /** Everything between 0 and a prime has an inverse: that of p mod a gives that of a. */
  lemma {:induction false} Invert(a: int, p: int) returns (x: int)
    requires Prime(p) && 0 < a < p
    ensures Congruent(a * x, 1, p)
    decreases a
  {
    if a == 1 {
      x := 1;
      Reflexive(1, p);
    } else {
      var q, r := p / a, p % a;
      assert p == q * a + r;
      if r == 0 { CongruentByWitness(p, 0, a, q); assert false; }
      var y := Invert(r, p);
      x := -q * y;
      hide *;
      PreviousInverse(a, p, q, r, y);
    }
  }

  lemma PreviousInverse(a: int, p: int, q: int, r: int, y: int)
    requires p == q * a + r && Congruent(r * y, 1, p)
    ensures Congruent(a * (-q * y), 1, p)
  {
    CongruentByWitness(a * (-q * y), r * y, p, -y) by {
      assert a * (-q * y) == -((q * a) * y);
      assert -y * p == -((q * a) * y) - r * y by { assert (q * a + r) * y == (q * a) * y + r * y; }
    }
    hide Congruent;
    Transitive(a * (-q * y), r * y, 1, p);
  }

  /** Every value that is not 0 modulo a prime has an inverse. */
  lemma InvertAny(a: int, p: int) returns (x: int)
    requires Prime(p) && !Congruent(a, 0, p)
    ensures Congruent(a * x, 1, p)
  {
    var r := a % p;
    hide Prime;
    ModCongruent(a, p);
    if r == 0 { Symmetric(0, a, p); assert false; }
    hide Congruent;
    x := Invert(r, p);
    CongruentScale(x, r, a, p);
    Symmetric(x * r, x * a, p);
    assert x * r == r * x && x * a == a * x;
    Transitive(a * x, r * x, 1, p);
  }

  /** The lemma of Euclid. */
  lemma ZeroProduct(a: int, b: int, p: int)
    requires Prime(p) && Congruent(a * b, 0, p) && !Congruent(a, 0, p)
    ensures Congruent(b, 0, p)
  {
    hide Prime, Congruent;
    var x := InvertAny(a, p);
    CongruentScale(b, a * x, 1, p);
    CongruentScale(x, a * b, 0, p);
    assert b * (a * x) == x * (a * b);
    Symmetric(x * (a * b), b * 1, p);
    Transitive(b, x * (a * b), 0, p);
  }

  lemma CancelFactor(a: int, b: int, c: int, p: int)
    requires Prime(p) && Congruent(c * a, c * b, p) && !Congruent(c, 0, p)
    ensures Congruent(a, b, p)
  {
    Difference(c * a, c * b, p);
    assert c * a - c * b == c * (a - b);
    hide Prime, Congruent;
    ZeroProduct(c, a - b, p);
    Difference(a, b, p);
  }

  lemma Difference(a: int, b: int, m: int)
    ensures Congruent(a, b, m) <==> Congruent(a - b, 0, m)
  {
    if Congruent(a, b, m) {
      var k := CongruentWitness(a, b, m);
      CongruentByWitness(a - b, 0, m, k);
    }
    if Congruent(a - b, 0, m) {
      var k := CongruentWitness(a - b, 0, m);
      CongruentByWitness(a, b, m, k);
    }
  }

  lemma NotZero(a: int, p: int)
    requires 0 < a < p
    ensures !Congruent(a, 0, p)
  {
    if Congruent(a, 0, p) { SmallResidues(a, 0, p); }
  }

  ghost function Factorial(n: nat): int
  {
    if n == 0 then 1 else n * Factorial(n - 1)
  }

  lemma {:induction false} FactorialNotZero(n: nat, p: int)
    requires Prime(p) && n < p
    ensures !Congruent(Factorial(n), 0, p)
  {
    if n == 0 {
      NotZero(1, p);
    } else {
      FactorialNotZero(n - 1, p);
      NotZero(n, p);
      hide Prime, Congruent;
      if Congruent(Factorial(n), 0, p) { ZeroProduct(n, Factorial(n - 1), p); }
    }
  }

  /** The product of the members of s among 1, ..., n. */
  ghost function Product(s: set<int>, n: nat): int
  {
    if n == 0 then 1 else (if n in s then n else 1) * Product(s, n - 1)
  }

  lemma {:induction false} ProductSame(s: set<int>, t: set<int>, n: nat)
    requires forall i :: 1 <= i <= n ==> (i in s <==> i in t)
    ensures Product(s, n) == Product(t, n)
  {
    if n > 0 { ProductSame(s, t, n - 1); }
  }

  lemma {:induction false} ProductAdd(s: set<int>, x: int, n: nat)
    requires x !in s && 1 <= x <= n
    ensures Product(s + {x}, n) == x * Product(s, n)
  {
    if x == n {
      ProductSame(s, s + {x}, n - 1);
    } else {
      ProductAdd(s, x, n - 1);
      Exchange(x, if n in s then n else 1, Product(s, n - 1));
    }
  }

  lemma Exchange(x: int, y: int, t: int)
    ensures y * (x * t) == x * (y * t)
  {}

  lemma {:induction false} ProductNone(n: nat)
    ensures Product({}, n) == 1
  {
    if n > 0 { ProductNone(n - 1); }
  }

  /** The residues b, 2b, ..., nb. */
  ghost function Image(b: int, p: int, n: nat): set<int>
    requires p > 0
  {
    if n == 0 then {} else Image(b, p, n - 1) + {(b * n) % p}
  }

  lemma {:induction false} ImageMember(b: int, p: int, n: nat, x: int) returns (i: nat)
    requires p > 0 && x in Image(b, p, n)
    ensures 1 <= i <= n && x == (b * i) % p
  {
    if x == (b * n) % p { i := n; } else { i := ImageMember(b, p, n - 1, x); }
  }

  /** Multiplication by b != 0 never repeats a residue and never gives 0. */
  lemma FreshResidue(b: int, p: int, n: nat)
    requires Prime(p) && !Congruent(b, 0, p) && n + 1 < p
    ensures (b * (n + 1)) % p !in Image(b, p, n) && 0 < (b * (n + 1)) % p < p
  {
    var k := n + 1;
    var x := (b * k) % p;
    if x in Image(b, p, n) {
      var i := ImageMember(b, p, n, x);
      CongruentIffMod(b * k, b * i, p);
      hide Prime, Congruent, Image;
      CancelFactor(k, i, b, p);
      SmallResidues(k, i, p);
    }
    if x == 0 {
      CongruentIffMod(b * k, 0, p);
      NotZero(k, p);
      hide Prime, Congruent, Image;
      ZeroProduct(b, k, p);
    }
  }

  lemma {:induction false} ImageProduct(b: int, p: int, n: nat)
    requires Prime(p) && !Congruent(b, 0, p) && n < p
    ensures |Image(b, p, n)| == n && (forall x :: x in Image(b, p, n) ==> 0 < x < p)
    ensures Congruent(Product(Image(b, p, n), p - 1), Pow(b, n) * Factorial(n), p)
  {
    if n == 0 {
      ProductNone(p - 1);
      Reflexive(1, p);
    } else {
      ImageProduct(b, p, n - 1);
      FreshResidue(b, p, n - 1);
      var s, x := Image(b, p, n - 1), (b * n) % p;
      ProductAdd(s, x, p - 1);
      ModCongruent(b * n, p);
      var f, g := Pow(b, n - 1), Factorial(n - 1);
      assert Pow(b, n) * Factorial(n) == (b * n) * (f * g) by { Regroup(b, f, n, g); }
      hide Congruent, Product, Image, Prime;
      CongruentMul(x, b * n, Product(s, p - 1), f * g, p);
    }
  }

  lemma Regroup(b: int, f: int, n: int, g: int)
    ensures (b * f) * (n * g) == (b * n) * (f * g)
  {
    assert (b * f) * (n * g) == b * (f * (n * g)) == b * (n * (f * g));
  }

  ghost function Upto(n: nat): (s: set<int>)
    ensures |s| == n && forall x :: x in s <==> 1 <= x <= n
  {
    if n == 0 then {} else Upto(n - 1) + {n}
  }

  /** n different numbers among 1, ..., n are all of them. */
  lemma {:induction false} AllOfThem(s: set<int>, n: nat)
    requires s <= Upto(n)
    ensures |s| <= n && (|s| == n ==> s == Upto(n))
  {
    if n > 0 {
      AllOfThem(s - {n}, n - 1);
      if n in s { assert s == s - {n} + {n}; } else { assert s == s - {n}; }
    } else {
      assert s == {};
    }
  }

  /** The little theorem: b, 2b, ..., (p-1)b are 1, 2, ..., p-1 in another order. */
  lemma Fermat(b: int, p: int)
    requires Prime(p) && !Congruent(b, 0, p)
    ensures Congruent(Pow(b, p - 1), 1, p)
  {
    var n, f := p - 1, Factorial(p - 1);
    NotZero(1, p);
    FactorialNotZero(n, p);
    hide Prime, Congruent, Product, Image, Factorial;
    ImageProduct(b, p, n);
    ImageProduct(1, p, n);
    AllOfThem(Image(b, p, n), n);
    AllOfThem(Image(1, p, n), n);
    PowOne(n);
    var s := Product(Upto(n), n);
    Symmetric(s, Pow(b, n) * f, p);
    Transitive(Pow(b, n) * f, s, 1 * f, p);
    assert Pow(b, n) * f == f * Pow(b, n);
    CancelFactor(Pow(b, n), 1, f, p);
  }
}
