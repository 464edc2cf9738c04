/** Powers, inverses and square roots in the field (libsecp256k1/src/field_impl.h). */
module FieldPower {
  import opened Arithmetic
  import opened Secp256k1
  import opened Field5x52
  import opened FieldNormalize
  import opened Primes
  import opened FieldPrime
  import opened BatchInverse

  /** x stands for a^e modulo p. */
  ghost predicate IsPower(x: Fe, a: int, e: nat)
  {
    Congruent(Value(x), Pow(a, e), FIELD_P)
  }

  lemma PowerProduct(x: Fe, e: nat, y: Fe, f: nat, r: Fe, a: int)
    requires IsPower(x, a, e) && IsPower(y, a, f) && Congruent(Value(r), Value(x) * Value(y), FIELD_P)
    ensures IsPower(r, a, e + f)
  {
    hide Congruent, Value, Pow;
    CongruentMul(Value(x), Pow(a, e), Value(y), Pow(a, f), FIELD_P);
    PowAdd(a, e, f);
    Transitive(Value(r), Value(x) * Value(y), Pow(a, e + f), FIELD_P);
  }

  /** secp256k1_fe_mul, on inputs of magnitude up to 8. */
  method FeMul(a: Fe, b: Fe) returns (r: Fe)
    requires HasMagnitude(a, 8) && HasMagnitude(b, 8)
    ensures HasMagnitude(r, 1) && HasMagnitude(r, 8)
    ensures Congruent(Value(r), Value(a) * Value(b), FIELD_P)
  {
    hide Congruent, Value, ReducedLimbs, MulColumns, Limbs;
    r := MulInner(a, b);
  }

  /** secp256k1_fe_sqr. */
  method FeSqr(a: Fe) returns (r: Fe)
    requires HasMagnitude(a, 8)
    ensures HasMagnitude(r, 1) && HasMagnitude(r, 8)
    ensures Congruent(Value(r), Value(a) * Value(a), FIELD_P)
  {
    hide Congruent, Value, ReducedLimbs, MulColumns, Limbs;
    r := SqrInner(a);
  }

  /** A product of two powers of a. */
  method MulPower(x: Fe, ghost e: nat, y: Fe, ghost f: nat, ghost a: int) returns (r: Fe)
    requires HasMagnitude(x, 8) && HasMagnitude(y, 8) && IsPower(x, a, e) && IsPower(y, a, f)
    ensures HasMagnitude(r, 8) && HasMagnitude(r, 1) && IsPower(r, a, e + f)
  {
    hide IsPower, Value, HasMagnitude, Congruent;
    r := FeMul(x, y);
    PowerProduct(x, e, y, f, r, a);
  }

  /** A run of squarings. */
  method SqrTimes(x: Fe, n: nat, ghost a: int, ghost e: nat) returns (r: Fe)
    requires HasMagnitude(x, 8) && IsPower(x, a, e)
    ensures HasMagnitude(r, 8) && IsPower(r, a, e * Pow2(n))
    ensures n > 0 ==> HasMagnitude(r, 1)
  {
    hide IsPower, Value, HasMagnitude, Congruent;
    r := x;
    for j := 0 to n
      invariant HasMagnitude(r, 8) && IsPower(r, a, e * Pow2(j))
      invariant j > 0 ==> HasMagnitude(r, 1)
    {
      var s := FeSqr(r);
      PowerProduct(r, e * Pow2(j), r, e * Pow2(j), s, a);
      assert e * Pow2(j) + e * Pow2(j) == e * Pow2(j + 1);
      r := s;
    }
  }

  /** a^(2^k - 1): a block of k one bits. */
  ghost predicate IsOnes(x: Fe, a: int, k: nat)
  {
    HasMagnitude(x, 8) && IsPower(x, a, Pow2(k) - 1)
  }

  /** A block of j ones shifted by k and joined by a block of k ones is a block of j + k ones. */
  method Join(x: Fe, ghost j: nat, y: Fe, k: nat, ghost a: int) returns (r: Fe)
    requires IsOnes(x, a, j) && IsOnes(y, a, k)
    ensures IsOnes(r, a, j + k)
  {
    hide IsPower, HasMagnitude;
    r := SqrTimes(x, k, a, Pow2(j) - 1);
    r := MulPower(r, (Pow2(j) - 1) * Pow2(k), y, Pow2(k) - 1, a);
    OnesJoin(j, k);
  }

  lemma OnesJoin(j: nat, k: nat)
    ensures (Pow2(j) - 1) * Pow2(k) + (Pow2(k) - 1) == Pow2(j + k) - 1
  {
    Pow2Add(j, k);
  }

  /** The addition chain shared by inversion and square root: blocks of 2, 22 and 223 ones. */
  method OnesBlocks(a: Fe) returns (x2: Fe, x22: Fe, x223: Fe)
    requires HasMagnitude(a, 8)
    ensures IsOnes(x2, Value(a), 2) && IsOnes(x22, Value(a), 22) && IsOnes(x223, Value(a), 223)
  {
    ghost var v := Value(a);
    SelfPower(a);
    hide *;
    x2 := Join(a, 1, a, 1, v);
    var x3 := Join(x2, 2, a, 1, v);
    var x6 := Join(x3, 3, x3, 3, v);
    var x9 := Join(x6, 6, x3, 3, v);
    var x11 := Join(x9, 9, x2, 2, v);
    x22 := Join(x11, 11, x11, 11, v);
    var x44 := Join(x22, 22, x22, 22, v);
    var x88 := Join(x44, 44, x44, 44, v);
    var x176 := Join(x88, 88, x88, 88, v);
    var x220 := Join(x176, 176, x44, 44, v);
    x223 := Join(x220, 220, x3, 3, v);
  }

  lemma SelfPower(a: Fe)
    requires HasMagnitude(a, 8)
    ensures IsOnes(a, Value(a), 1) && IsPower(a, Value(a), 1)
  {
    PowFirst(Value(a));
    assert Pow2(1) == 2;
    Reflexive(Value(a), FIELD_P);
  }

  /** The numeral behind the last steps of both chains. */
  lemma TopBlock(k: nat)
    requires k == 223
    ensures Pow2(k) * 0x2_0000_0000 == 0x1_0000_0000_0000_0000_0000_0000_0000_0000_0000_0000_0000_0000_0000_0000_0000_0000
  {
    Pow2At256(k + 33);
    Pow2At32(k - 191);
    assert Pow2(k - 190) == 2 * Pow2(k - 191);
    Pow2Add(k, k - 190);
  }

  lemma SmallPowers()
    ensures Pow2(1) == 2 && Pow2(2) == 4 && Pow2(3) == 8 && Pow2(5) == 32 && Pow2(6) == 64
    ensures Pow2(22) == 0x40_0000 && Pow2(23) == 0x80_0000
  {
    assert Pow2(11) == 2048;
    Pow2Double(11, 2048);
  }

  /** secp256k1_fe_inv: a^(p-2), which is the inverse. */
  method Inv(a: Fe) returns (r: Fe)
    requires HasMagnitude(a, 8)
    ensures HasMagnitude(r, 1) && HasMagnitude(r, 8) && IsPower(r, Value(a), FIELD_P - 2)
    ensures IsInverse(Value(r), Value(a), FIELD_P)
  {
    ghost var v := Value(a);
    SelfPower(a);
    var k := 223;
    TopBlock(k);
    SmallPowers();
    hide IsPower, HasMagnitude, Pow2, Value, IsInverse;
    var x2, x22, x223 := OnesBlocks(a);
    var t1 := SqrTimes(x223, 23, v, Pow2(k) - 1);
    ghost var e := (Pow2(k) - 1) * 0x80_0000;
    t1 := MulPower(t1, e, x22, 0x3F_FFFF, v);
    e := e + 0x3F_FFFF;
    t1 := SqrTimes(t1, 5, v, e);
    t1 := MulPower(t1, e * 32, a, 1, v);
    e := e * 32 + 1;
    t1 := SqrTimes(t1, 3, v, e);
    t1 := MulPower(t1, e * 8, x2, 3, v);
    e := e * 8 + 3;
    t1 := SqrTimes(t1, 2, v, e);
    r := MulPower(a, 1, t1, e * 4, v);
    assert 1 + e * 4 == FIELD_P - 2;
    PowerInverts(r, v);
  }

  /** secp256k1_fe_sqrt: r = a^((p+1)/4), a root exactly when a has one. */
  method Sqrt(a: Fe) returns (r: Fe, ok: bool)
    requires HasMagnitude(a, 8)
    ensures HasMagnitude(r, 1) && IsPower(r, Value(a), (FIELD_P + 1) / 4)
    ensures ok <==> Congruent(Value(r) * Value(r), Value(a), FIELD_P)
    ensures ok <==> IsSquare(Value(a))
  {
    ghost var v := Value(a);
    var k := 223;
    TopBlock(k);
    SmallPowers();
    hide IsPower, Pow2, Value, Congruent, HasMagnitude;
    var x2, x22, x223 := OnesBlocks(a);
    var t1 := SqrTimes(x223, 23, v, Pow2(k) - 1);
    ghost var e := (Pow2(k) - 1) * 0x80_0000;
    t1 := MulPower(t1, e, x22, 0x3F_FFFF, v);
    e := e + 0x3F_FFFF;
    t1 := SqrTimes(t1, 6, v, e);
    t1 := MulPower(t1, e * 64, x2, 3, v);
    e := e * 64 + 3;
    r := SqrTimes(t1, 2, v, e);
    assert e * 4 == (FIELD_P + 1) / 4;
    t1 := FeSqr(r);
    MagnitudeGrows(a, 8, 2045);
    ok := Equal(t1, a);
    SameClass(Value(t1), Value(r) * Value(r), v, FIELD_P);
    if IsSquare(v) {
      var b: int :| Congruent(b * b, v, FIELD_P);
      SqrtOfSquare(v, b, r);
    }
  }

  lemma MagnitudeGrows(a: Fe, m: int, n: int)
    requires HasMagnitude(a, m) && 0 <= m <= n
    ensures HasMagnitude(a, n)
  {}

  /** The power p - 2 inverts every element but zero, which it leaves at zero. */
  lemma PowerInverts(r: Fe, a: int)
    requires IsPower(r, a, FIELD_P - 2)
    ensures IsInverse(Value(r), a, FIELD_P)
  {
    var e := FIELD_P - 2;
    FieldPrimeIsPrime();
    hide Congruent, Value, Prime, Pow;
    if Congruent(a, 0, FIELD_P) {
      ZeroPower(a, e, FIELD_P);
      Transitive(Value(r), Pow(a, e), 0, FIELD_P);
    } else {
      Fermat(a, FIELD_P);
      PowAdd(a, e, 1);
      PowFirst(a);
      Reflexive(a, FIELD_P);
      CongruentMul(Value(r), Pow(a, e), a, a, FIELD_P);
      Transitive(Value(r) * a, Pow(a, e + 1), 1, FIELD_P);
      TimesIsProduct(Value(r), a);
    }
  }

  lemma PowFirst(a: int)
    ensures Pow(a, 1) == a && Pow(a, 2) == a * a
  {
    assert Pow(a, 1) == a * Pow(a, 0);
  }

  /** a is a square modulo p. */
  ghost predicate IsSquare(a: int)
  {
    exists b: int {:trigger Congruent(b * b, a, FIELD_P)} :: Congruent(b * b, a, FIELD_P)
  }

  /** A square has its square root found: the test at the end of Sqrt never rejects one. */
  lemma SqrtOfSquare(a: int, b: int, r: Fe)
    requires Congruent(b * b, a, FIELD_P) && IsPower(r, a, (FIELD_P + 1) / 4)
    ensures Congruent(Value(r) * Value(r), a, FIELD_P)
  {
    var q, w := (FIELD_P + 1) / 4, Value(r);
    assert q + q + (q + q) == (FIELD_P - 1) + 2;
    hide Congruent, Value, Pow;
    // r^2 = a^(2q) = b^(4q) = b^(p-1) * b^2
    CongruentMul(w, Pow(a, q), w, Pow(a, q), FIELD_P);
    PowAdd(a, q, q);
    PowResidue(b * b, a, q + q, FIELD_P);
    SquarePower(b, q + q);
    Symmetric(Pow(b * b, q + q), Pow(a, q + q), FIELD_P);
    Transitive(w * w, Pow(a, q + q), Pow(b, FIELD_P - 1 + 2), FIELD_P);
    WrapsToSquare(b, FIELD_P);
    Transitive(w * w, Pow(b, FIELD_P - 1 + 2), b * b, FIELD_P);
    Transitive(w * w, b * b, a, FIELD_P);
  }

  lemma WrapsToSquare(b: int, p: int)
    requires p == FIELD_P
    ensures Congruent(Pow(b, p - 1 + 2), b * b, p)
  {
    FieldPrimeIsPrime();
    hide Congruent, Prime, Pow;
    PowAdd(b, p - 1, 2);
    PowFirst(b);
    if Congruent(b, 0, p) {
      ZeroPower(b, p + 1, p);
      CongruentMul(b, 0, b, 0, p);
      Symmetric(b * b, 0, p);
      Transitive(Pow(b, p - 1 + 2), 0, b * b, p);
    } else {
      Fermat(b, p);
      Reflexive(b * b, p);
      CongruentMul(Pow(b, p - 1), 1, b * b, b * b, p);
    }
  }

  lemma {:induction false} SquarePower(b: int, e: nat)
    ensures Pow(b * b, e) == Pow(b, e + e)
  {
    if e > 0 {
      SquarePower(b, e - 1);
      assert Pow(b, e + e) == b * (b * Pow(b, (e - 1) + (e - 1)));
      assert (b * b) * Pow(b * b, e - 1) == b * (b * Pow(b * b, e - 1));
    }
  }

  ghost function Values(a: seq<Fe>): (r: seq<int>)
    ensures |r| == |a| && forall i :: 0 <= i < |a| ==> r[i] == Value(a[i])
  {
    seq(|a|, i requires 0 <= i < |a| => Value(a[i]))
  }

  /** secp256k1_fe_inv_all_var: every element inverted at the cost of one inversion; a single zero among the
      inputs makes every output zero. */
  method InvAllVar(r: array<Fe>, a: array<Fe>)
    requires r != a && r.Length == a.Length
    requires forall i :: 0 <= i < a.Length ==> HasMagnitude(a[i], 8)
    modifies r
    ensures forall i :: 0 <= i < a.Length ==> Outcome(Values(a[..]), i, Value(r[i]), FIELD_P)
  {
    hide Congruent, Value, Values, HasMagnitude, IsPower, Prefix, HasZero, IsInverse, Outcome, Partial, Prime;
    if r.Length < 1 {
      return;
    }
    ghost var s := Values(a[..]);
    r[0] := a[0];
    FirstPrefix(s, FIELD_P);
    var i := 1;
    while i < r.Length
      invariant 1 <= i <= r.Length
      invariant forall k :: 0 <= k < i ==> HasMagnitude(r[k], 8) && Congruent(Value(r[k]), Prefix(s, k + 1), FIELD_P)
    {
      r[i] := FeMul(r[i - 1], a[i]);
      NextPrefix(s, i, Value(r[i - 1]), Value(r[i]), FIELD_P);
      i := i + 1;
    }
    i := i - 1;
    FieldPrimeIsPrime();
    var u := Inv(r[i]);
    InvertPrefix(s, Value(u), Value(r[i]), FIELD_P);
    while i > 0
      invariant 0 <= i < r.Length
      invariant forall k :: 0 <= k <= i ==> HasMagnitude(r[k], 8) && Congruent(Value(r[k]), Prefix(s, k + 1), FIELD_P)
      invariant forall k :: i < k < r.Length ==> Outcome(s, k, Value(r[k]), FIELD_P)
      invariant HasMagnitude(u, 8) && Partial(s, i + 1, Value(u), FIELD_P)
    {
      var j := i;
      i := i - 1;
      r[j] := FeMul(r[i], u);
      var v := FeMul(u, a[j]);
      Peel(s, j, Value(r[i]), Value(u), Value(r[j]), Value(v), FIELD_P);
      u := v;
    }
    r[0] := u;
    LastInverse(s, Value(u), FIELD_P);
  }
}
