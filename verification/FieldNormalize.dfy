/** Normalisation, zero tests and comparison of field elements (libsecp256k1/src/field_5x52_impl.h). */
module FieldNormalize {
  import opened Arithmetic
  import opened Secp256k1
  import opened Bitwise
  import opened Field5x52

  const M: u64 := 0xF_FFFF_FFFF_FFFF
  const M_TOP: u64 := 0xFFFF_FFFF_FFFF

  /** An element of magnitude m: twice m times the limb masks at most. */
  predicate HasMagnitude(a: Fe, m: int)
  {
    && a.n0 as int <= M as int * 2 * m && a.n1 as int <= M as int * 2 * m && a.n2 as int <= M as int * 2 * m
    && a.n3 as int <= M as int * 2 * m && a.n4 as int <= M_TOP as int * 2 * m
  }

  /** Limbs as carrying leaves them: 52 bits, and 49 in the top limb. */
  predicate Carried(a: Fe)
  {
    a.n0 <= M && a.n1 <= M && a.n2 <= M && a.n3 <= M && a.n4 < 0x2_0000_0000_0000
  }

  /** The unique representative of a residue: every limb within its mask and the value below p. */
  ghost predicate Normalized(a: Fe)
  {
    a.n0 <= M && a.n1 <= M && a.n2 <= M && a.n3 <= M && a.n4 <= M_TOP && Value(a) < FIELD_P
  }

  lemma NormalizedUnique(a: Fe, b: Fe)
    requires Normalized(a) && Normalized(b) && Congruent(Value(a), Value(b), FIELD_P)
    ensures a == b
  {
    SmallResidues(Value(a), Value(b), FIELD_P);
    SameLimbs(a, b);
  }

  /** Limbs within their masks are the digits of the value. */
  lemma SameLimbs(a: Fe, b: Fe)
    requires a.n0 <= M && a.n1 <= M && a.n2 <= M && a.n3 <= M && b.n0 <= M && b.n1 <= M && b.n2 <= M && b.n3 <= M
    requires Value(a) == Value(b)
    ensures a == b
  {
    LowDigit(a.n0, a.n1 as int + a.n2 as int * W1 + a.n3 as int * W2 + a.n4 as int * W3,
             b.n0, b.n1 as int + b.n2 as int * W1 + b.n3 as int * W2 + b.n4 as int * W3);
    hide Value;
    LowDigit(a.n1, a.n2 as int + a.n3 as int * W1 + a.n4 as int * W2, b.n1, b.n2 as int + b.n3 as int * W1 + b.n4 as int * W2);
    LowDigit(a.n2, a.n3 as int + a.n4 as int * W1, b.n2, b.n3 as int + b.n4 as int * W1);
    LowDigit(a.n3, a.n4 as int, b.n3, b.n4 as int);
  }

  lemma LowDigit(x: u64, q: int, y: u64, t: int)
    requires x <= M && y <= M && x as int + q * W1 == y as int + t * W1
    ensures x == y && q == t
  {}

  /** Carry excess bits upwards, limb by limb. */
  method Carry(t: Fe) returns (r: Fe)
    requires t.n0 as int < 0xFFFF_FFFF_FFFF_F000 && t.n1 as int < 0xFFFF_FFFF_FFFF_F000
    requires t.n2 as int < 0xFFFF_FFFF_FFFF_F000 && t.n3 as int < 0xFFFF_FFFF_FFFF_F000
    requires t.n4 < 0x1_FFFF_FFFF_E000
    ensures Carried(r) && r.n4 <= t.n4 + 0x1000 && Value(r) == Value(t)
    ensures r.n0 == t.n0 % (M + 1)
  {
    var t0, t1, t2, t3, t4 := t.n0, t.n1, t.n2, t.n3, t.n4;
    t1 := t1 + t0 / (M + 1);  t0 := t0 % (M + 1);
    t2 := t2 + t1 / (M + 1);  t1 := t1 % (M + 1);
    t3 := t3 + t2 / (M + 1);  t2 := t2 % (M + 1);
    t4 := t4 + t3 / (M + 1);  t3 := t3 % (M + 1);
    r := Fe(t0, t1, t2, t3, t4);
  }

  /** The first pass of every normalisation: bits from 256 up return as multiples of 2^256 - p. */
  method FirstPass(a: Fe) returns (r: Fe, ghost x: int)
    requires HasMagnitude(a, 2047)
    ensures Carried(r) && 0 <= x && Value(a) == Value(r) + x * FIELD_P
    ensures r.n4 < 0x1_0000_0000_2000 && Value(r) < 2 * FIELD_P
  {
    var t4 := a.n4;
    var x0 := t4 / (M_TOP + 1);  t4 := t4 % (M_TOP + 1);
    x := x0 as int;
    var t0 := a.n0 + x0 * 0x1_0000_03D1;
    r := Carry(Fe(t0, a.n1, a.n2, a.n3, t4));
  }

  function And64(x: u64, y: u64): (r: u64)
    ensures r <= x && r <= y
    ensures x <= M && y <= M ==> (r == M <==> x == M && y == M)
  {
    if x <= M && y <= M then AndMask(x as int, y as int, 52); BitAnd(x as int, y as int) as u64
    else BitAnd(x as int, y as int) as u64
  }

  function Or64(x: u64, y: u64): (r: u64)
    requires x < 0x10_0000_0000_0000 && y < 0x8000_0000_0000_0000
    ensures r == 0 <==> x == 0 && y == 0
    ensures r as int <= x as int + y as int
  {
    BitOr(x as int, y as int) as u64
  }

  function Xor64(x: u64, c: u64): (r: u64)
    requires x <= M && c <= M
    ensures r <= M && (r == M <==> x == M - c)
  {
    XorMask(x as int, c as int, 52);
    BitXor(x as int, c as int) as u64
  }

  lemma Pow2At52(k: nat)
    requires k == 52
    ensures Pow2(k) == M as int + 1
  {
    Pow2At32(k - 20);
    assert Pow2(20) == 0x10_0000;
    Pow2Add(k - 20, 20);
  }

  lemma AndMask(x: int, y: int, k: nat)
    requires 0 <= x <= M as int && 0 <= y <= M as int && k == 52
    ensures BitAnd(x, y) == M as int <==> x == M as int && y == M as int
  {
    Pow2At52(k);
    AndOnes(x, y, k);
  }

  lemma XorMask(x: int, c: int, k: nat)
    requires 0 <= x <= M as int && 0 <= c <= M as int && k == 52
    ensures BitXor(x, c) <= M as int && (BitXor(x, c) == M as int <==> x == M as int - c)
  {
    Pow2At52(k);
    XorOnes(x, c, k);
  }

  /** The limb pattern the source tests for: carried limbs stand for p or more. */
  predicate AtLeastP(t: Fe, m: u64)
  {
    t.n4 / (M_TOP + 1) != 0 || (t.n4 == M_TOP && m == M && t.n0 >= 0xF_FFFE_FFFF_FC2F)
  }

  lemma AtLeastPDecides(t: Fe, m: u64)
    requires Carried(t) && (m == M <==> t.n1 == M && t.n2 == M && t.n3 == M)
    ensures AtLeastP(t, m) <==> Value(t) >= FIELD_P
  {}

  /** secp256k1_fe_normalize: the unique representative below p, in constant time. */
  method Normalize(a: Fe) returns (r: Fe)
    requires HasMagnitude(a, 2047)
    ensures Normalized(r) && Congruent(Value(r), Value(a), FIELD_P)
  {
    hide Congruent, Value;
    var t, k := FirstPass(a);
    var m := And64(And64(t.n1, t.n2), t.n3);
    AtLeastPDecides(t, m);
    var x: u64 := if AtLeastP(t, m) then 1 else 0;
    r := Carry(Fe(t.n0 + x * 0x1_0000_03D1, t.n1, t.n2, t.n3, t.n4));
    FinalReduction(t, r, x as int);
    assert r.n4 / (M_TOP + 1) == x;
    r := Fe(r.n0, r.n1, r.n2, r.n3, r.n4 % (M_TOP + 1));
    CongruentByWitness(Value(a), Value(r), FIELD_P, k + x as int);
    Symmetric(Value(a), Value(r), FIELD_P);
  }

  /** Adding x*(2^256 - p) and dropping bit 256 subtracts x*p. */
  lemma FinalReduction(t: Fe, u: Fe, x: int)
    requires Carried(t) && Carried(u) && 0 <= x <= 1 && Value(t) < 2 * FIELD_P && t.n0 < 0x1000_0000_0000_0000
    requires x == 1 <==> Value(t) >= FIELD_P
    requires Value(u) == Value(Fe((t.n0 as int + x * 0x1_0000_03D1) as u64, t.n1, t.n2, t.n3, t.n4))
    ensures (u.n4 / (M_TOP + 1)) as int == x
    ensures var r := Fe(u.n0, u.n1, u.n2, u.n3, u.n4 % (M_TOP + 1));
            Normalized(r) && Value(r) == Value(t) - x * FIELD_P
  {}

  /** secp256k1_fe_normalize_var: the same representative, skipping the reduction when it is not needed. */
  method NormalizeVar(a: Fe) returns (r: Fe)
    requires HasMagnitude(a, 2047)
    ensures Normalized(r) && Congruent(Value(r), Value(a), FIELD_P)
  {
    hide Congruent, Value;
    var t, k := FirstPass(a);
    var m := And64(And64(t.n1, t.n2), t.n3);
    AtLeastPDecides(t, m);
    r := t;
    ghost var x := 0;
    if AtLeastP(t, m) {
      x := 1;
      r := Carry(Fe(t.n0 + 0x1_0000_03D1, t.n1, t.n2, t.n3, t.n4));
      FinalReduction(t, r, x);
      r := Fe(r.n0, r.n1, r.n2, r.n3, r.n4 % (M_TOP + 1));
    } else {
      BelowP(t);
    }
    CongruentByWitness(Value(a), Value(r), FIELD_P, k + x);
    Symmetric(Value(a), Value(r), FIELD_P);
  }

  lemma BelowP(t: Fe)
    requires Carried(t) && Value(t) < FIELD_P
    ensures Normalized(t)
  {}

  /** secp256k1_fe_normalize_weak: magnitude 1, same residue. */
  method NormalizeWeak(a: Fe) returns (r: Fe)
    requires HasMagnitude(a, 2047)
    ensures HasMagnitude(r, 1) && Congruent(Value(r), Value(a), FIELD_P)
  {
    hide Congruent, Value;
    var t, k := FirstPass(a);
    r := t;
    CongruentByWitness(Value(a), Value(r), FIELD_P, k);
    Symmetric(Value(a), Value(r), FIELD_P);
  }

  /** Carried limbs stand for 0 exactly when all are 0, and for p exactly at p's own limbs. */
  lemma ZeroPatterns(t: Fe)
    requires Carried(t)
    ensures Value(t) == 0 <==> t.n0 == 0 && t.n1 == 0 && t.n2 == 0 && t.n3 == 0 && t.n4 == 0
    ensures Value(t) == FIELD_P <==> t.n0 == M - 0x1_0000_03D0 && t.n1 == M && t.n2 == M && t.n3 == M
                                     && t.n4 == M - 0xF_0000_0000_0000
  {}

  lemma ResidueZero(a: int, v: int, x: int)
    requires a == v + x * FIELD_P && 0 <= v < 2 * FIELD_P
    ensures Congruent(a, 0, FIELD_P) <==> v == 0 || v == FIELD_P
  {
    CongruentByWitness(a, v, FIELD_P, x);
    SameClass(a, v, 0, FIELD_P);
    if Congruent(v, 0, FIELD_P) {
      var k := CongruentWitness(v, 0, FIELD_P);
    } else {
      if v == 0 { CongruentByWitness(v, 0, FIELD_P, 0); }
      if v == FIELD_P { CongruentByWitness(v, 0, FIELD_P, 1); }
    }
  }

  lemma ValueNonNegative(t: Fe)
    ensures Value(t) >= 0
  {}

  /** secp256k1_fe_normalizes_to_zero. */
  method NormalizesToZero(a: Fe) returns (zero: bool)
    requires HasMagnitude(a, 2047)
    ensures zero <==> Congruent(Value(a), 0, FIELD_P)
  {
    hide Congruent, Value, And64, Or64, Xor64;
    var t, x := FirstPass(a);
    var z0, z1 := t.n0, Xor64(t.n0, 0x1_0000_03D0);
    z0, z1 := Or64(t.n1, z0), And64(z1, t.n1);
    z0, z1 := Or64(t.n2, z0), And64(z1, t.n2);
    z0, z1 := Or64(t.n3, z0), And64(z1, t.n3);
    z0, z1 := Or64(t.n4, z0), And64(z1, Xor64(t.n4, 0xF_0000_0000_0000));
    zero := z0 == 0 || z1 == M;
    ZeroPatterns(t);
    ValueNonNegative(t);
    ResidueZero(Value(a), Value(t), x);
  }

  /** secp256k1_fe_normalizes_to_zero_var: decided by the lowest limb alone in most cases. */
  method NormalizesToZeroVar(a: Fe) returns (zero: bool)
    requires HasMagnitude(a, 2047)
    ensures zero <==> Congruent(Value(a), 0, FIELD_P)
  {
    hide Congruent, Value, And64, Or64, Xor64;
    var x := a.n4 / (M_TOP + 1);
    var t0 := a.n0 + x * 0x1_0000_03D1;
    var z0 := t0 % (M + 1);
    var z1 := Xor64(z0, 0x1_0000_03D0);
    LowLimbDecides(a, t0);
    if z0 != 0 && z1 != M {
      return false;
    }
    var t := Carry(Fe(t0, a.n1, a.n2, a.n3, a.n4 % (M_TOP + 1)));
    z0, z1 := Or64(t.n1, z0), And64(z1, t.n1);
    z0, z1 := Or64(t.n2, z0), And64(z1, t.n2);
    z0, z1 := Or64(t.n3, z0), And64(z1, t.n3);
    z0, z1 := Or64(t.n4, z0), And64(z1, Xor64(t.n4, 0xF_0000_0000_0000));
    zero := z0 == 0 || z1 == M;
    ZeroPatterns(t);
  }

  /** The value once the bits from 256 up have been folded into the lowest limb, before any carry. */
  ghost function FoldedValue(a: Fe): int
  {
    a.n0 as int + (a.n4 as int / 0x1_0000_0000_0000) * 0x1_0000_03D1
    + a.n1 as int * W1 + a.n2 as int * W2 + a.n3 as int * W3 + (a.n4 as int % 0x1_0000_0000_0000) * W4
  }

  /** Folding subtracts a multiple of p and leaves less than 2p. */
  lemma FoldTop(a: Fe)
    requires HasMagnitude(a, 2047)
    ensures Value(a) == FoldedValue(a) + (a.n4 as int / 0x1_0000_0000_0000) * FIELD_P
    ensures 0 <= FoldedValue(a) < 2 * FIELD_P
  {
    var q, r := a.n4 as int / 0x1_0000_0000_0000, a.n4 as int % 0x1_0000_0000_0000;
    assert a.n4 as int == q * 0x1_0000_0000_0000 + r;
  }

  /** The lowest limb of the folded value is fixed by the lowest limb and what was folded into it. */
  lemma FoldLow(a: Fe)
    ensures FoldedValue(a) % W1 == (a.n0 as int + (a.n4 as int / 0x1_0000_0000_0000) * 0x1_0000_03D1) % W1
  {
    var low := a.n0 as int + (a.n4 as int / 0x1_0000_0000_0000) * 0x1_0000_03D1;
    var k := a.n1 as int + a.n2 as int * W1 + a.n3 as int * W2 + (a.n4 as int % 0x1_0000_0000_0000) * W3;
    assert FoldedValue(a) == low + k * W1;
    hide FoldedValue;
    CongruentByWitness(FoldedValue(a), low, W1, k);
    CongruentIffMod(FoldedValue(a), low, W1);
  }

  /** A value that is 0 modulo p folds to 0 or p, so its lowest limb is 0 or that of p. */
  lemma LowLimbDecides(a: Fe, t0: u64)
    requires HasMagnitude(a, 2047) && t0 as int == a.n0 as int + (a.n4 as int / 0x1_0000_0000_0000) * 0x1_0000_03D1
    ensures var v := Value(Fe(t0, a.n1, a.n2, a.n3, a.n4 % (M_TOP + 1)));
            && (Congruent(Value(a), 0, FIELD_P) <==> v == 0 || v == FIELD_P)
            && (Congruent(Value(a), 0, FIELD_P) ==> t0 % (M + 1) == 0 || t0 % (M + 1) == M - 0x1_0000_03D0)
  {
    FoldTop(a);
    FoldLow(a);
    assert FIELD_P % W1 == M as int - 0x1_0000_03D0;
    assert FoldedValue(a) == Value(Fe(t0, a.n1, a.n2, a.n3, a.n4 % (M_TOP + 1)));
    hide Congruent, Value, FoldedValue;
    ResidueZero(Value(a), FoldedValue(a), a.n4 as int / 0x1_0000_0000_0000);
  }

  /** secp256k1_fe_negate: 2(m+1)p minus the value, with no limb going below zero. */
  method Negate(a: Fe, m: int) returns (r: Fe)
    requires 0 <= m <= 2047 && HasMagnitude(a, m)
    ensures HasMagnitude(r, m + 1) && Value(r) == 2 * (m + 1) * FIELD_P - Value(a)
  {
    var k := (2 * (m + 1)) as u64;
    r := Fe(0xF_FFFE_FFFF_FC2F * k - a.n0, M * k - a.n1, M * k - a.n2, M * k - a.n3, M_TOP * k - a.n4);
  }

  /** secp256k1_fe_add. */
  method Add(r0: Fe, a: Fe, ghost m: int, ghost n: int) returns (r: Fe)
    requires 0 <= m && 0 <= n && m + n <= 2048 && HasMagnitude(r0, m) && HasMagnitude(a, n)
    ensures HasMagnitude(r, m + n) && Value(r) == Value(r0) + Value(a)
  {
    r := Fe(r0.n0 + a.n0, r0.n1 + a.n1, r0.n2 + a.n2, r0.n3 + a.n3, r0.n4 + a.n4);
  }

  /** secp256k1_fe_equal: decides congruence modulo p. */
  method Equal(a: Fe, b: Fe) returns (eq: bool)
    requires HasMagnitude(a, 1) && HasMagnitude(b, 2045)
    ensures eq <==> Congruent(Value(a), Value(b), FIELD_P)
  {
    hide Congruent, Value, HasMagnitude;
    var na := Negate(a, 1);
    na := Add(na, b, 2, 2045);
    eq := NormalizesToZero(na);
    DifferenceZero(Value(a), Value(b));
  }

  lemma DifferenceZero(a: int, b: int)
    ensures Congruent(4 * FIELD_P - a + b, 0, FIELD_P) <==> Congruent(a, b, FIELD_P)
  {
    if Congruent(a, b, FIELD_P) {
      var k := CongruentWitness(a, b, FIELD_P);
      CongruentByWitness(4 * FIELD_P - a + b, 0, FIELD_P, 4 - k);
    } else if Congruent(4 * FIELD_P - a + b, 0, FIELD_P) {
      var k := CongruentWitness(4 * FIELD_P - a + b, 0, FIELD_P);
      CongruentByWitness(a, b, FIELD_P, 4 - k);
    }
  }

  /** Magnitude 2047 is the limit: at 2048, which fe_verify admits, the first addition can pass 64 bits. */
  lemma MagnitudeLimit(m: int)
    requires 0 <= m <= 2048
    ensures (forall a: Fe :: HasMagnitude(a, m) ==>
               a.n0 as int + (a.n4 as int / 0x1_0000_0000_0000) * 0x1_0000_03D1 < 0x1_0000_0000_0000_0000)
            <==> m <= 2047
  {
    if m == 2048 {
      var a := Fe(0xFFFF_FFFF_FFFF_F000, 0, 0, 0, 0xFFF_FFFF_FFFF_F000);
      assert HasMagnitude(a, m);
    }
  }
}
