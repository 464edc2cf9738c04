/** Field elements as five 52-bit limbs (libsecp256k1/src/field_5x52_int128_impl.h). */
module Field5x52 {
  import opened Arithmetic
  import opened Secp256k1

  /** uint64_t and uint128_t: every operation written on them is proved not to wrap. */
  newtype u64 = x: int | 0 <= x < 0x1_0000_0000_0000_0000
  newtype u128 = x: int | 0 <= x < 0x1_0000_0000_0000_0000_0000_0000_0000_0000

  /** One more than the limb mask M, R = 2^260 mod p, and R >> 4. */
  const LIMB: u128 := 0x10_0000_0000_0000
  const R: u128 := 0x10_0000_3D10
  const R4: u128 := 0x1_0000_03D1

  /** Weights of limbs 1 to 4. */
  const W1: int := 0x10_0000_0000_0000
  const W2: int := 0x100_0000_0000_0000_0000_0000_0000
  const W3: int := 0x1000_0000_0000_0000_0000_0000_0000_0000_0000_0000
  const W4: int := 0x1_0000_0000_0000_0000_0000_0000_0000_0000_0000_0000_0000_0000_0000

  datatype Fe = Fe(n0: u64, n1: u64, n2: u64, n3: u64, n4: u64)

  ghost function Value(a: Fe): int
  {
    a.n0 as int + a.n1 as int * W1 + a.n2 as int * W2 + a.n3 as int * W3 + a.n4 as int * W4
  }

  /** The widths multiplication accepts: 56 bits, and 52 for the top limb. */
  predicate MulInput(a: Fe)
  {
    && a.n0 < 0x100_0000_0000_0000 && a.n1 < 0x100_0000_0000_0000 && a.n2 < 0x100_0000_0000_0000
    && a.n3 < 0x100_0000_0000_0000 && a.n4 < 0x10_0000_0000_0000
  }

  /** The widths it returns: 52 bits, and 49 for the top limb, whose largest pattern is never reached. */
  predicate MulOutput(r: Fe)
  {
    && r.n0 < 0x10_0000_0000_0000 && r.n1 < 0x10_0000_0000_0000 && r.n2 < 0x10_0000_0000_0000
    && r.n3 < 0x10_0000_0000_0000 && r.n4 < 0x1_FFFF_FFFF_FFFF
  }

  /** A product of limbs in 128 bits. */
  function Product(a: u64, b: u64): (r: u128)
    ensures r as int == a as int * b as int
    ensures a < 0x100_0000_0000_0000 && b < 0x100_0000_0000_0000 ==> r < 0x1_0000_0000_0000_0000_0000_0000_0000
    ensures a < 0x10_0000_0000_0000 && b < 0x100_0000_0000_0000 ==> r < 0x1000_0000_0000_0000_0000_0000_0000
    ensures a < 0x100_0000_0000_0000 && b < 0x10_0000_0000_0000 ==> r < 0x1000_0000_0000_0000_0000_0000_0000
    ensures a < 0x10_0000_0000_0000 && b < 0x10_0000_0000_0000 ==> r < 0x100_0000_0000_0000_0000_0000_0000
  {
    ProductBound(a as int, b as int, 0x1_0000_0000_0000_0000, 0x1_0000_0000_0000_0000);
    ProductBound(a as int, b as int, 0x100_0000_0000_0000, 0x100_0000_0000_0000);
    ProductBound(a as int, b as int, 0x10_0000_0000_0000, 0x100_0000_0000_0000);
    ProductBound(a as int, b as int, 0x100_0000_0000_0000, 0x10_0000_0000_0000);
    ProductBound(a as int, b as int, 0x10_0000_0000_0000, 0x10_0000_0000_0000);
    a as u128 * b as u128
  }

  lemma ProductBound(a: int, b: int, m: int, n: int)
    requires 0 <= a && 0 <= b && 0 < m && 0 < n
    ensures 0 <= a * b
    ensures a < m && b < n ==> a * b < m * n
  {
    if a < m && b < n {
      assert a * b <= a * n;
      assert a * n < m * n;
    }
  }

  /** The nine columns p0 .. p8 of the product: pk is the sum of a[i]*b[k-i]. */
  datatype Columns = Columns(p0: u128, p1: u128, p2: u128, p3: u128, p4: u128, p5: u128, p6: u128, p7: u128, p8: u128)

  predicate Bounded(c: Columns)
  {
    && c.p0 < 0x1_0000_0000_0000_0000_0000_0000_0000 && c.p1 < 0x2_0000_0000_0000_0000_0000_0000_0000
    && c.p2 < 0x3_0000_0000_0000_0000_0000_0000_0000 && c.p3 < 0x4_0000_0000_0000_0000_0000_0000_0000
    && c.p4 < 0x3_2000_0000_0000_0000_0000_0000_0000 && c.p5 < 0x2_2000_0000_0000_0000_0000_0000_0000
    && c.p6 < 0x1_2000_0000_0000_0000_0000_0000_0000 && c.p7 < 0x2000_0000_0000_0000_0000_0000_0000
    && c.p8 < 0x100_0000_0000_0000_0000_0000_0000
  }

  /** The integer the columns stand for. */
  ghost function ColumnValue(c: Columns): int
  {
    c.p0 as int + c.p1 as int * W1 + c.p2 as int * W2 + c.p3 as int * W3 + c.p4 as int * W4
    + c.p5 as int * (W1 * W4) + c.p6 as int * (W2 * W4) + c.p7 as int * (W3 * W4) + c.p8 as int * (W4 * W4)
  }

  function MulColumns(a: Fe, b: Fe): (c: Columns)
    requires MulInput(a) && MulInput(b)
    ensures Bounded(c)
  {
    Columns(
      Product(a.n0, b.n0),
      Product(a.n0, b.n1) + Product(a.n1, b.n0),
      Product(a.n0, b.n2) + Product(a.n1, b.n1) + Product(a.n2, b.n0),
      Product(a.n0, b.n3) + Product(a.n1, b.n2) + Product(a.n2, b.n1) + Product(a.n3, b.n0),
      Product(a.n0, b.n4) + Product(a.n1, b.n3) + Product(a.n2, b.n2) + Product(a.n3, b.n1) + Product(a.n4, b.n0),
      Product(a.n1, b.n4) + Product(a.n2, b.n3) + Product(a.n3, b.n2) + Product(a.n4, b.n1),
      Product(a.n2, b.n4) + Product(a.n3, b.n3) + Product(a.n4, b.n2),
      Product(a.n3, b.n4) + Product(a.n4, b.n3),
      Product(a.n4, b.n4))
  }

  // The accumulation and reduction shared by fe_mul_inner and fe_sqr_inner, block by block. Column
  // sums enter the accumulators c and d in the source's order; `& M` and `>> 52` are remainder and
  // quotient by LIMB, and the asserts are the source's VERIFY_BITS.

  /** Columns 3, 4 and 8: limbs t3 and t4, the excess tx above bit 256, and the carry d. */
  method FoldHigh(p3: u128, p4: u128, p8: u128)
    returns (t3: u128, t4: u128, tx: u128, d: u128)
    requires p3 < 0x4_0000_0000_0000_0000_0000_0000_0000 && p4 < 0x3_2000_0000_0000_0000_0000_0000_0000
    requires p8 < 0x100_0000_0000_0000_0000_0000_0000
    ensures t3 < LIMB && t4 < 0x1_0000_0000_0000 && tx < 16 && d < 0x1_0000_0000_0000_0000
    ensures var x3 := p3 as int + Rem(p8 as int) * 0x10_0000_3D10;
            var x4 := Quo(x3) + p4 as int + Quo(p8 as int) * 0x10_0000_3D10;
            && t3 as int == Rem(x3) && d as int == Quo(x4) && tx as int == Excess(Rem(x4))
            && t4 as int == Rem(x4) - Excess(Rem(x4)) * 0x1_0000_0000_0000
  {
    d := p3;
    var c := p8;
    d := d + (c % LIMB) * R;  c := c / LIMB;
    assert d < 0x8_0000_0000_0000_0000_0000_0000_0000 && c < 0x1000_0000_0000_0000;
    t3 := d % LIMB;  d := d / LIMB;
    assert d < 0x8000_0000_0000_0000;
    d := d + p4;
    assert d < 0x8_0000_0000_0000_0000_0000_0000_0000;
    d := d + c * R;
    assert d < 0x10_0000_0000_0000_0000_0000_0000_0000;
    t4 := d % LIMB;  d := d / LIMB;
    tx := t4 / 0x1_0000_0000_0000;  t4 := t4 % 0x1_0000_0000_0000;
  }

  /** Columns 0 and 5: the bits from 256 up return to limb 0 as multiples of R >> 4. */
  method FoldLow(p0: u128, p5: u128, tx: u128, dIn: u128)
    returns (r0: u128, c: u128, d: u128)
    requires p0 < 0x1_0000_0000_0000_0000_0000_0000_0000 && p5 < 0x2_2000_0000_0000_0000_0000_0000_0000
    requires tx < 16 && dIn < 0x1_0000_0000_0000_0000
    ensures r0 < LIMB && c < 0x2000_0000_0000_0000 && d < 0x4000_0000_0000_0000
    ensures var x5 := dIn as int + p5 as int;
            var y0 := p0 as int + (Rem(x5) * 16 + tx as int) * 0x1_0000_03D1;
            d as int == Quo(x5) && r0 as int == Rem(y0) && c as int == Quo(y0)
  {
    c := p0;
    d := dIn + p5;
    assert d < 0x4_0000_0000_0000_0000_0000_0000_0000;
    var u0 := d % LIMB;  d := d / LIMB;
    u0 := u0 * 16 + tx;
    assert u0 < 0x100_0000_0000_0000;
    c := c + u0 * R4;
    assert c < 0x2_0000_0000_0000_0000_0000_0000_0000;
    r0 := c % LIMB;  c := c / LIMB;
  }

  /** Columns k and k + 5, for k = 1 and 2. */
  method FoldPair(pLow: u128, pHigh: u128, cIn: u128, dIn: u128)
    returns (r: u128, c: u128, d: u128)
    requires pLow < 0x3_0000_0000_0000_0000_0000_0000_0000 && pHigh < 0x1_2000_0000_0000_0000_0000_0000_0000
    requires cIn < 0x8000_0000_0000_0000 && dIn < 0x4000_0000_0000_0000
    ensures r < LIMB && c < 0x8000_0000_0000_0000 && d < 0x4000_0000_0000_0000
    ensures var x := dIn as int + pHigh as int;
            var y := cIn as int + pLow as int + Rem(x) * 0x10_0000_3D10;
            d as int == Quo(x) && r as int == Rem(y) && c as int == Quo(y)
  {
    c := cIn + pLow;
    assert c < 0x4_0000_0000_0000_0000_0000_0000_0000;
    d := dIn + pHigh;
    assert d < 0x4_0000_0000_0000_0000_0000_0000_0000;
    c := c + (d % LIMB) * R;  d := d / LIMB;
    assert c < 0x8_0000_0000_0000_0000_0000_0000_0000 && d < 0x4000_0000_0000_0000;
    r := c % LIMB;  c := c / LIMB;
  }

  /** The last carry joins limbs 3 and 4. */
  method FoldTop(t3: u128, t4: u128, cIn: u128, d: u128) returns (r3: u128, r4: u128)
    requires t3 < LIMB && t4 < 0x1_0000_0000_0000
    requires cIn < 0x8000_0000_0000_0000 && d < 0x4000_0000_0000_0000
    ensures r3 < LIMB && r4 < 0x1_FFFF_FFFF_FFFF
    ensures var y3 := cIn as int + d as int * 0x10_0000_3D10 + t3 as int;
            r3 as int == Rem(y3) && r4 as int == Quo(y3) + t4 as int
  {
    var c := cIn + (d * R + t3);
    assert c < 0x10_0000_0000_0000_0000_0000_0000;
    r3 := c % LIMB;  c := c / LIMB;
    assert c < 0x1_0000_0000_0000;
    c := c + t4;
    r4 := c;
  }

  /** The limbs the blocks produce, as unbounded integers: the specification of Reduce. The accumulator
      d takes the values X3 .. X7 and c the values Y0 .. Y3 just before each is split into limb and carry. */
  ghost function ReducedLimbs(p: Columns): (int, int, int, int, int)
  {
    (Rem(Y0(p)), Rem(Y1(p)), Rem(Y2(p)), Rem(Y3(p)),
     Quo(Y3(p)) + (Rem(X4(p)) - Excess(Rem(X4(p))) * 0x1_0000_0000_0000))
  }

  ghost function X3(p: Columns): int { p.p3 as int + Rem(p.p8 as int) * 0x10_0000_3D10 }
  ghost function X4(p: Columns): int { Quo(X3(p)) + p.p4 as int + Quo(p.p8 as int) * 0x10_0000_3D10 }
  ghost function X5(p: Columns): int { Quo(X4(p)) + p.p5 as int }
  ghost function X6(p: Columns): int { Quo(X5(p)) + p.p6 as int }
  ghost function X7(p: Columns): int { Quo(X6(p)) + p.p7 as int }
  ghost function Y0(p: Columns): int { p.p0 as int + (Rem(X5(p)) * 16 + Excess(Rem(X4(p)))) * 0x1_0000_03D1 }
  ghost function Y1(p: Columns): int { Quo(Y0(p)) + p.p1 as int + Rem(X6(p)) * 0x10_0000_3D10 }
  ghost function Y2(p: Columns): int { Quo(Y1(p)) + p.p2 as int + Rem(X7(p)) * 0x10_0000_3D10 }
  ghost function Y3(p: Columns): int { Quo(Y2(p)) + Quo(X7(p)) * 0x10_0000_3D10 + Rem(X3(p)) }

  ghost function Quo(x: int): int { x / 0x10_0000_0000_0000 }
  ghost function Rem(x: int): int { x % 0x10_0000_0000_0000 }
  ghost function Excess(x: int): int { x / 0x1_0000_0000_0000 }

  lemma QuoRem(x: int)
    ensures x == Quo(x) * 0x10_0000_0000_0000 + Rem(x)
  {}

  ghost function LimbValue(t: (int, int, int, int, int)): int
  {
    t.0 + t.1 * W1 + t.2 * W2 + t.3 * W3 + t.4 * W4
  }

  /** The multiple of p that the reduction drops. */
  ghost function Dropped(p: Columns): int
  {
    16 * (Rem(p.p8 as int) * W3 + Quo(p.p8 as int) * W4 + Rem(X6(p)) * W1 + Rem(X7(p)) * W2 + Quo(X7(p)) * W3)
    + (Rem(X5(p)) * 16 + Excess(Rem(X4(p))))
  }

  lemma ReducedIdentity(p: Columns)
    ensures ColumnValue(p) == LimbValue(ReducedLimbs(p)) + Dropped(p) * FIELD_P
  {
    QuoRem(p.p8 as int);
    QuoRem(X3(p));
    QuoRem(X4(p));
    QuoRem(X5(p));
    QuoRem(X6(p));
    QuoRem(X7(p));
    QuoRem(Y0(p));
    QuoRem(Y1(p));
    QuoRem(Y2(p));
    QuoRem(Y3(p));
    hide Quo, Rem, Excess;
  }

  ghost function Limbs(r: Fe): (int, int, int, int, int)
  {
    (r.n0 as int, r.n1 as int, r.n2 as int, r.n3 as int, r.n4 as int)
  }

  lemma LimbsReduce(p: Columns, r: Fe)
    requires Limbs(r) == ReducedLimbs(p)
    ensures Congruent(Value(r), ColumnValue(p), FIELD_P)
  {
    assert Value(r) == LimbValue(Limbs(r));
    hide *;
    ReducedIdentity(p);
    CongruentByWitness(ColumnValue(p), Value(r), FIELD_P, Dropped(p));
    Symmetric(ColumnValue(p), Value(r), FIELD_P);
  }

  method Reduce(p: Columns) returns (r: Fe)
    requires Bounded(p)
    ensures MulOutput(r) && Limbs(r) == ReducedLimbs(p)
    ensures Congruent(Value(r), ColumnValue(p), FIELD_P)
  {
    hide ColumnValue, Value, Congruent, Quo, Rem, Excess;
    var t3, t4, tx, dA := FoldHigh(p.p3, p.p4, p.p8);
    var r0, cB, dB := FoldLow(p.p0, p.p5, tx, dA);
    var r1, cC, dC := FoldPair(p.p1, p.p6, cB, dB);
    var r2, cD, dD := FoldPair(p.p2, p.p7, cC, dC);
    var r3, r4 := FoldTop(t3, t4, cD, dD);
    r := Fe(r0 as u64, r1 as u64, r2 as u64, r3 as u64, r4 as u64);
    LimbsReduce(p, r);
  }

  /** x times a field element, limb by limb. */
  lemma RowValue(x: int, b: Fe)
    ensures x * Value(b) == x * b.n0 as int + (x * b.n1 as int) * W1 + (x * b.n2 as int) * W2
                            + (x * b.n3 as int) * W3 + (x * b.n4 as int) * W4
  {
    var b0, b1, b2, b3, b4 := b.n0 as int, b.n1 as int, b.n2 as int, b.n3 as int, b.n4 as int;
    assert x * (b0 + b1 * W1 + b2 * W2 + b3 * W3 + b4 * W4)
           == x * b0 + x * (b1 * W1) + x * (b2 * W2) + x * (b3 * W3) + x * (b4 * W4);
  }

  lemma SumTimes(a0: int, a1: int, a2: int, a3: int, a4: int, v: int)
    ensures (a0 + a1 * W1 + a2 * W2 + a3 * W3 + a4 * W4) * v
            == a0 * v + (a1 * v) * W1 + (a2 * v) * W2 + (a3 * v) * W3 + (a4 * v) * W4
  {
    assert (a1 * W1) * v == (a1 * v) * W1;
    assert (a2 * W2) * v == (a2 * v) * W2;
    assert (a3 * W3) * v == (a3 * v) * W3;
    assert (a4 * W4) * v == (a4 * v) * W4;
  }

  /** The columns stand for the product of the two values. */
  lemma ColumnsMultiply(a: Fe, b: Fe)
    requires MulInput(a) && MulInput(b)
    ensures ColumnValue(MulColumns(a, b)) == Value(a) * Value(b)
  {
    hide Product;
    SumTimes(a.n0 as int, a.n1 as int, a.n2 as int, a.n3 as int, a.n4 as int, Value(b));
    RowValue(a.n0 as int, b);
    RowValue(a.n1 as int, b);
    RowValue(a.n2 as int, b);
    RowValue(a.n3 as int, b);
    RowValue(a.n4 as int, b);
    ColumnSums(a, b);
  }

  /** The columns regroup the 25 limb products by weight. */
  lemma ColumnSums(a: Fe, b: Fe)
    requires MulInput(a) && MulInput(b)
    ensures var p := (x: u64, y: u64) => x as int * y as int;
            ColumnValue(MulColumns(a, b))
            == p(a.n0, b.n0) + p(a.n0, b.n1) * W1 + p(a.n0, b.n2) * W2 + p(a.n0, b.n3) * W3 + p(a.n0, b.n4) * W4
               + (p(a.n1, b.n0) + p(a.n1, b.n1) * W1 + p(a.n1, b.n2) * W2 + p(a.n1, b.n3) * W3 + p(a.n1, b.n4) * W4) * W1
               + (p(a.n2, b.n0) + p(a.n2, b.n1) * W1 + p(a.n2, b.n2) * W2 + p(a.n2, b.n3) * W3 + p(a.n2, b.n4) * W4) * W2
               + (p(a.n3, b.n0) + p(a.n3, b.n1) * W1 + p(a.n3, b.n2) * W2 + p(a.n3, b.n3) * W3 + p(a.n3, b.n4) * W4) * W3
               + (p(a.n4, b.n0) + p(a.n4, b.n1) * W1 + p(a.n4, b.n2) * W2 + p(a.n4, b.n3) * W3 + p(a.n4, b.n4) * W4) * W4
  {
    hide Product;
  }

  /** secp256k1_fe_mul_inner. */
  method MulInner(a: Fe, b: Fe) returns (r: Fe)
    requires MulInput(a) && MulInput(b)
    ensures MulOutput(r) && Limbs(r) == ReducedLimbs(MulColumns(a, b))
    ensures Congruent(Value(r), Value(a) * Value(b), FIELD_P)
  {
    hide MulColumns, ReducedLimbs, Congruent, Value, ColumnValue;
    r := Reduce(MulColumns(a, b));
    ColumnsMultiply(a, b);
  }

  /** The columns of a square, with equal products taken once and doubled. */
  function SqrColumns(a: Fe): (c: Columns)
    requires MulInput(a)
    ensures c == MulColumns(a, a)
  {
    var (a0, a1, a2, a3, a4) := (a.n0, a.n1, a.n2, a.n3, a.n4);
    var (d0, d1, d2, d4) := (a0 * 2, a1 * 2, a2 * 2, a4 * 2);
    Doubled(a0, a1); Doubled(a0, a2); Doubled(a0, a3); Doubled(a1, a2); Doubled(a1, a3); Doubled(a2, a3);
    Doubled(a4, a0); Doubled(a4, a1); Doubled(a4, a2); Doubled(a4, a3);
    Columns(
      Product(a0, a0),
      Product(d0, a1),
      Product(d0, a2) + Product(a1, a1),
      Product(d0, a3) + Product(d1, a2),
      Product(a0, d4) + Product(d1, a3) + Product(a2, a2),
      Product(a1, d4) + Product(d2, a3),
      Product(a2, d4) + Product(a3, a3),
      Product(a3, d4),
      Product(a4, a4))
  }

  lemma Doubled(x: u64, y: u64)
    requires x < 0x100_0000_0000_0000 && y < 0x100_0000_0000_0000
    ensures Product(x, y) == Product(y, x) && Product(x, y) < 0x1_0000_0000_0000_0000_0000_0000_0000
    ensures Product(x * 2, y) == Product(x, y) + Product(y, x) && Product(y, x * 2) == Product(x, y) + Product(y, x)
  {
    hide Product;
    DoubledProduct(x as int, y as int);
  }

  lemma DoubledProduct(x: int, y: int)
    ensures x * y == y * x && (x * 2) * y == x * y + y * x && y * (x * 2) == x * y + y * x
  {}

  /** secp256k1_fe_sqr_inner: limb for limb what multiplying a by itself gives. */
  method SqrInner(a: Fe) returns (r: Fe)
    requires MulInput(a)
    ensures MulOutput(r) && Limbs(r) == ReducedLimbs(MulColumns(a, a))
    ensures Congruent(Value(r), Value(a) * Value(a), FIELD_P)
  {
    hide MulColumns, ReducedLimbs, Congruent, Value, ColumnValue;
    r := Reduce(SqrColumns(a));
    ColumnsMultiply(a, a);
  }
}
