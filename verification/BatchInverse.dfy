/** Inverting a batch of residues through the inverse of their product. */
module BatchInverse {
  import opened Arithmetic
  import opened Primes

  /** u inverts x modulo p, or both are zero. */
  ghost predicate IsInverse(u: int, x: int, p: int)
  {
    if Congruent(x, 0, p) then Congruent(u, 0, p) else Congruent(Times(u, x), 1, p)
  }

  /** The product of the first n values. */
  ghost function Prefix(a: seq<int>, n: nat): int
    requires n <= |a|
  {
    if n == 0 then 1 else Prefix(a, n - 1) * a[n - 1]
  }

  ghost predicate HasZero(a: seq<int>, p: int)
  {
    exists i :: 0 <= i < |a| && Congruent(a[i], 0, p)
  }

  /** What the batch promises about output k: the inverse, unless some input is zero. */
  ghost predicate Outcome(s: seq<int>, k: nat, x: int, p: int)
    requires k < |s|
  {
    if HasZero(s, p) then Congruent(x, 0, p) else Congruent(Times(x, s[k]), 1, p)
  }

  /** The running inverse: of the first n values, or zero. */
  ghost predicate Partial(s: seq<int>, n: nat, u: int, p: int)
    requires n <= |s|
  {
    if HasZero(s, p) then Congruent(u, 0, p) else Congruent(Times(u, Prefix(s, n)), 1, p)
  }

  /** A product is zero exactly when a factor is. */
  lemma {:induction false} PrefixZero(a: seq<int>, n: nat, p: int)
    requires Prime(p) && n <= |a|
    ensures Congruent(Prefix(a, n), 0, p) <==> HasZero(a[..n], p)
  {
    if n == 0 {
      NotZero(1, p);
    } else {
      PrefixZero(a, n - 1, p);
      hide Congruent, Prime;
      ProductZero(Prefix(a, n - 1), a[n - 1], p);
      assert a[..n] == a[..n - 1] + [a[n - 1]];
      assert a[..n][n - 1] == a[n - 1];
    }
  }

  lemma ProductZero(x: int, y: int, p: int)
    requires Prime(p)
    ensures Congruent(x * y, 0, p) <==> Congruent(x, 0, p) || Congruent(y, 0, p)
  {
    hide Congruent, Prime;
    if Congruent(y, 0, p) { CongruentScale(x, y, 0, p); }
    if Congruent(x, 0, p) {
      CongruentScale(y, x, 0, p);
      assert y * x == x * y;
    } else if Congruent(x * y, 0, p) {
      ZeroProduct(x, y, p);
    }
  }

  lemma FirstPrefix(s: seq<int>, p: int)
    requires |s| > 0
    ensures Congruent(s[0], Prefix(s, 1), p)
  {
    assert Prefix(s, 1) == Prefix(s, 0) * s[0];
    Reflexive(s[0], p);
  }

  lemma NextPrefix(s: seq<int>, i: nat, prev: int, next: int, p: int)
    requires i < |s| && Congruent(prev, Prefix(s, i), p) && Congruent(next, prev * s[i], p)
    ensures Congruent(next, Prefix(s, i + 1), p)
  {
    hide Congruent;
    Reflexive(s[i], p);
    CongruentMul(prev, Prefix(s, i), s[i], s[i], p);
    Transitive(next, prev * s[i], Prefix(s, i + 1), p);
  }

  lemma InvertPrefix(s: seq<int>, u: int, x: int, p: int)
    requires Prime(p) && IsInverse(u, x, p) && Congruent(x, Prefix(s, |s|), p)
    ensures Partial(s, |s|, u, p)
  {
    var prod := Prefix(s, |s|);
    PrefixZero(s, |s|, p);
    assert s[..|s|] == s;
    hide Congruent, HasZero, Prefix, Prime;
    SameClass(x, prod, 0, p);
    if !HasZero(s, p) {
      TimesIsProduct(u, x);
      TimesIsProduct(u, prod);
      Symmetric(x, prod, p);
      CongruentScale(u, prod, x, p);
      Transitive(u * prod, u * x, 1, p);
    }
  }

  /** Peeling element j off the running inverse leaves output j and the running inverse of the rest. */
  lemma Peel(s: seq<int>, j: nat, prev: int, u: int, rj: int, v: int, p: int)
    requires 0 < j < |s| && Congruent(prev, Prefix(s, j), p) && Partial(s, j + 1, u, p)
    requires Congruent(rj, prev * u, p) && Congruent(v, u * s[j], p)
    ensures Outcome(s, j, rj, p) && Partial(s, j, v, p)
  {
    var f, a := Prefix(s, j), s[j];
    assert Prefix(s, j + 1) == f * a;
    hide Congruent, HasZero, Prefix, Times;
    if HasZero(s, p) {
      ZeroFactor(prev, u, rj, p);
      ZeroFactor(a, u, v, p) by { assert a * u == u * a; }
    } else {
      TimesIsProduct(u, f * a);
      TimesIsProduct(rj, a);
      TimesIsProduct(v, f);
      PeelOutput(f, a, prev, u, rj, p);
      PeelRest(f, a, u, v, p);
    }
  }

  lemma ZeroFactor(a: int, u: int, v: int, p: int)
    requires Congruent(u, 0, p) && Congruent(v, a * u, p)
    ensures Congruent(v, 0, p)
  {
    hide Congruent;
    CongruentScale(a, u, 0, p);
    Transitive(v, a * u, 0, p);
  }

  lemma PeelOutput(f: int, a: int, prev: int, u: int, rj: int, p: int)
    requires Congruent(prev, f, p) && Congruent(u * (f * a), 1, p) && Congruent(rj, prev * u, p)
    ensures Congruent(rj * a, 1, p)
  {
    hide Congruent;
    CongruentScale(u, prev, f, p);
    assert u * prev == prev * u;
    Transitive(rj, prev * u, u * f, p);
    CongruentScale(a, rj, u * f, p);
    assert a * rj == rj * a && a * (u * f) == u * (f * a) by { Exchange(u, a, f); }
    Transitive(rj * a, u * (f * a), 1, p);
  }

  lemma PeelRest(f: int, a: int, u: int, v: int, p: int)
    requires Congruent(u * (f * a), 1, p) && Congruent(v, u * a, p)
    ensures Congruent(v * f, 1, p)
  {
    hide Congruent;
    CongruentScale(f, v, u * a, p);
    assert f * v == v * f && f * (u * a) == u * (f * a) by { Exchange(u, f, a); }
    Transitive(v * f, u * (f * a), 1, p);
  }

  lemma LastInverse(s: seq<int>, u: int, p: int)
    requires |s| > 0 && Partial(s, 1, u, p)
    ensures Outcome(s, 0, u, p)
  {
    assert Prefix(s, 1) == Prefix(s, 0) * s[0];
  }
}
