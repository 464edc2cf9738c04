/**
 * Field elements as ten 26-bit limbs (libsecp256k1/src/field_10x26_impl.h): multiplication and squaring
 * in 64-bit accumulators. A column is the sum of a[i]*b[k-i]; the source writes the sums out.
 */
module Field10x26 {
  import opened Arithmetic
  import opened Secp256k1

  newtype u32 = x: int | 0 <= x < 0x1_0000_0000
  newtype u64 = x: int | 0 <= x < 0x1_0000_0000_0000_0000

  type Limbs = seq<u32>

  /** The limb weight 2^26, one more than the mask M. */
  const W: int := 0x400_0000
  const LIMB: u64 := 0x400_0000

  /** The largest limbs multiplication accepts: 30 bits, and 26 for the top one. */
  function Max(i: int): (m: int)
  {
    if i == 9 then 0x3FF_FFFF else 0x3FFF_FFFF
  }

  ghost predicate MulInput(a: Limbs)
  {
    |a| == 10 && forall i :: 0 <= i < 10 ==> a[i] as int <= Max(i)
  }

  ghost function Value(a: Limbs): int
  {
    if a == [] then 0 else a[0] as int + W * Value(a[1..])
  }

  // ---- columns ----

  function Lo(k: int): (i: int) { if k <= 9 then 0 else k - 9 }
  function Hi(k: int): (i: int) { if k <= 9 then k else 9 }

  /** Products as terms of sums. */
  ghost function Term(x: int, y: int): int { x * y }

  /** The terms a[m] * b[k - m] for m from i to j. */
  ghost function Sum(a: Limbs, b: Limbs, k: int, i: int, j: int): int
    requires |a| == 10 && |b| == 10 && 0 <= k <= 18 && Lo(k) <= i && j <= Hi(k)
    decreases j - i
  {
    if i > j then 0 else Term(a[i] as int, b[k - i] as int) + Sum(a, b, k, i + 1, j)
  }

  /** The same sum at the largest limbs. */
  ghost function Cap(k: int, i: int, j: int): int
    decreases j - i
  {
    if i > j then 0 else Term(Max(i), Max(k - i)) + Cap(k, i + 1, j)
  }

  lemma ProductCap(x: int, y: int, m: int, n: int)
    requires 0 <= x <= m && 0 <= y <= n
    ensures 0 <= Term(x, y) <= Term(m, n)
  {
    assert x * y <= x * n <= m * n;
  }

  lemma {:induction false} CapNonNeg(k: int, i: int, j: int)
    ensures Cap(k, i, j) >= 0
    decreases j - i
  {
    if i <= j {
      ProductCap(0, 0, Max(i), Max(k - i));
      CapNonNeg(k, i + 1, j);
    }
  }

  function Product(x: u32, y: u32, m: int, n: int): (r: u64)
    requires x as int <= m && y as int <= n && Term(m, n) < 0x1_0000_0000_0000_0000
    ensures r as int == Term(x as int, y as int) <= Term(m, n)
  {
    ProductCap(x as int, y as int, m, n);
    x as u64 * y as u64
  }

  /** The product with the first limb doubled in 32 bits. */
  function TwiceProduct(x: u32, y: u32, m: int, n: int): (r: u64)
    requires x as int <= m && y as int <= n && m < 0x8000_0000 && 2 * Term(m, n) < 0x1_0000_0000_0000_0000
    ensures r as int == 2 * Term(x as int, y as int) <= 2 * Term(m, n)
  {
    ProductCap(x as int, y as int, m, n);
    Doubled(x as int, y as int);
    (x * 2) as u64 * y as u64
  }

  lemma Doubled(x: int, y: int)
    ensures (x * 2) * y == 2 * Term(x, y) && Term(x, y) == Term(y, x)
  {}

  function ColumnFrom(a: Limbs, b: Limbs, k: int, i: int, j: int): (s: u64)
    requires MulInput(a) && MulInput(b) && 0 <= k <= 18 && Lo(k) <= i && j <= Hi(k)
    requires Cap(k, i, j) < 0x1_0000_0000_0000_0000
    ensures s as int == Sum(a, b, k, i, j) <= Cap(k, i, j)
    decreases j - i
  {
    if i > j then 0
    else
      CapNonNeg(k, i + 1, j);
      Product(a[i], b[k - i], Max(i), Max(k - i)) + ColumnFrom(a, b, k, i + 1, j)
  }

  /** Products of two 30-bit limbs, of a 30-bit and a 26-bit one, and of two 26-bit ones. */
  const WIDE: int := 0xFFF_FFFF_8000_0001
  const MIXED: int := 0xFF_FFFF_BC00_0001
  const NARROW: int := 0xF_FFFF_F800_0001

  /** What the column of index k can reach. */
  function Limit(k: int): (r: int)
  {
    if k <= 8 then (k + 1) * WIDE else if k <= 17 then (17 - k) * WIDE + 2 * MIXED else NARROW
  }

  lemma {:induction false} CapLow(k: int, i: int)
    requires 0 <= i <= k + 1 <= 9
    ensures Cap(k, i, k) == (k - i + 1) * WIDE
    decreases k - i
  {
    if i <= k { CapLow(k, i + 1); }
  }

  lemma {:induction false} CapHigh(k: int, i: int)
    requires 9 <= k <= 17 && k - 9 < i <= 9
    ensures Cap(k, i, 9) == (9 - i) * WIDE + MIXED
    decreases 9 - i
  {
    if i < 9 { CapHigh(k, i + 1); } else { assert Cap(k, 10, 9) == 0; }
  }

  lemma Limits(k: int)
    requires 0 <= k <= 18
    ensures Cap(k, Lo(k), Hi(k)) == Limit(k)
  {
    if k <= 8 {
      CapLow(k, 0);
    } else if k <= 17 {
      CapHigh(k, k - 8);
      assert Cap(k, k - 9, 9) == MIXED + Cap(k, k - 8, 9);
    } else {
      assert Cap(18, 9, 9) == NARROW;
    }
  }

  type Columns = seq<u64>

  ghost predicate Bounded(p: Columns)
  {
    |p| == 19 && forall k :: 0 <= k < 19 ==> p[k] as int <= Limit(k)
  }

  /** Column k of the product. */
  function Column(a: Limbs, b: Limbs, k: int): (s: u64)
    requires MulInput(a) && MulInput(b) && 0 <= k <= 18
    ensures s as int == Sum(a, b, k, Lo(k), Hi(k)) <= Limit(k)
  {
    Limits(k);
    ColumnFrom(a, b, k, Lo(k), Hi(k))
  }

  function MulColumns(a: Limbs, b: Limbs): (p: Columns)
    requires MulInput(a) && MulInput(b)
    ensures Bounded(p)
  {
    seq(19, k requires 0 <= k < 19 => Column(a, b, k))
  }

  // ---- reduction ----

  /** 2^260 = 16 p + R1 2^26 + R0, and 2^256 = p + (R1 >> 4) 2^26 + (R0 >> 4). */
  const R0: u64 := 0x3D10
  const R1: u64 := 0x400
  const W9: int := 0x400_0000_0000_0000_0000_0000_0000_0000_0000_0000_0000_0000_0000_0000_0000
  const W10: int := 0x10_0000_0000_0000_0000_0000_0000_0000_0000_0000_0000_0000_0000_0000_0000_0000_0000

  /** A limb, the limb moved down from the upper half, and the carries of both accumulators. */
  datatype Carry = Carry(t: u64, u: u64, c: u64, d: u64)

  /** Columns k and k + 10 with the carries so far. */
  function Block(pLow: u64, pHigh: u64, cIn: u64, dIn: u64): (r: Carry)
    requires pLow as int <= 9 * WIDE && pHigh as int <= 7 * WIDE + 2 * MIXED
    requires cIn < 0x80_0000_0000 && dIn < 0x40_0000_0000
    ensures r.t < LIMB && r.u < LIMB && r.c < 0x80_0000_0000 && r.d < 0x20_0000_0000
    ensures dIn as int + pHigh as int == r.d as int * W + r.u as int
    ensures cIn as int + pLow as int + r.u as int * 0x3D10 == (r.c as int - r.u as int * 0x400) * W + r.t as int
  {
    var d := dIn + pHigh;
    var u := d % LIMB;
    var c := cIn + pLow + u * R0;
    Carry(c % LIMB, u, c / LIMB + u * R1, d / LIMB)
  }

  /** The nine blocks, each taking the carries of the one before; the first starts from column 9. */
  function Step(p: Columns, k: nat): (r: Carry)
    requires Bounded(p) && k <= 8
    ensures r.t < LIMB && r.u < LIMB && r.c < 0x80_0000_0000 && r.d < 0x20_0000_0000
  {
    ColumnRange(p, k);
    if k == 0 then Block(p[0], p[10], 0, p[9] / LIMB)
    else Block(p[k], p[10 + k], Step(p, k - 1).c, Step(p, k - 1).d)
  }

  lemma ColumnRange(p: Columns, k: nat)
    requires Bounded(p) && k <= 8
    ensures p[k] as int <= 9 * WIDE && p[10 + k] as int <= 7 * WIDE + 2 * MIXED && p[9] as int <= 8 * WIDE + 2 * MIXED
  {
    assert p[k] as int <= Limit(k) && p[10 + k] as int <= Limit(10 + k) && p[9] as int <= Limit(9);
  }

  /** The last carry folds into the top limb, and its bits from 256 up into the three lowest. */
  function Finish(t0: u64, t1: u64, t2: u64, t9: u64, cIn: u64, dIn: u64): (r: (u64, u64, u64, u64))
    requires t0 < LIMB && t1 < LIMB && t2 < LIMB && t9 < LIMB && cIn < 0x80_0000_0000 && dIn < 0x8000_0000
    ensures r.0 < LIMB && r.1 < LIMB && r.2 < 0x800_0000 && r.3 < 0x40_0000
  {
    var c := cIn + (dIn * R0 + t9);
    assert c < 0x2000_0000_0000;
    var r9 := c % 0x40_0000;
    var c2 := c / 0x40_0000 + dIn * 0x4000;
    assert c2 < 0x4000_0000_0000;
    var d0 := c2 * 0x3D1 + t0;
    assert d0 < 0x100_0000_0000_0000;
    var d1 := d0 / LIMB + (c2 * 0x40 + t1);
    assert d0 / LIMB < 0x4000_0000 && d1 < 0x20_0000_0000_0000 && d1 <= 0x10_0000_03FF_FFBF;
    assert d1 / LIMB <= 0x400_0000;
    (d0 % LIMB, d1 % LIMB, d1 / LIMB + t2, r9)
  }

  ghost function CarryC(p: Columns, k: nat): int
    requires Bounded(p) && k <= 9
  {
    if k == 0 then 0 else Step(p, k - 1).c as int
  }

  ghost function CarryD(p: Columns, k: nat): int
    requires Bounded(p) && k <= 9
  {
    if k == 0 then p[9] as int / W else Step(p, k - 1).d as int
  }

  /** What block k computes. */
  lemma StepIs(p: Columns, k: nat)
    requires Bounded(p) && k <= 8
    ensures var s := Step(p, k);
            && CarryD(p, k) + p[10 + k] as int == s.d as int * W + s.u as int
            && CarryC(p, k) + p[k] as int + s.u as int * 0x3D10 == (s.c as int - s.u as int * 0x400) * W + s.t as int
            && s.c as int == CarryC(p, k + 1) && s.d as int == CarryD(p, k + 1)
            && 0 <= CarryC(p, k) < 0x80_0000_0000 && 0 <= CarryD(p, k) < 0x40_0000_0000
  {
    ColumnRange(p, k);
    hide Block;
  }

  /** The values VERIFY_BITS bounds in block k: c and d after the columns are added, d after its shift,
      c after the R0 term, and c after its shift and the R1 term. */
  ghost predicate Within(p: Columns, k: nat, cSum: int, dSum: int, dOut: int, cMid: int, cOut: int)
    requires Bounded(p) && k <= 8
  {
    && CarryC(p, k) + p[k] as int <= cSum && CarryD(p, k) + p[10 + k] as int <= dSum
    && Step(p, k).d as int <= dOut && CarryC(p, k) + p[k] as int + Step(p, k).u as int * 0x3D10 <= cMid
    && Step(p, k).c as int <= cOut
  }

  lemma WithinAt(p: Columns, k: nat, cSum: int, dSum: int, dOut: int, cMid: int, cOut: int)
    requires Bounded(p) && k <= 8
    requires CarryC(p, k) + Limit(k) <= cSum && CarryD(p, k) + Limit(10 + k) <= dSum && dSum < (dOut + 1) * W
    requires CarryC(p, k) + Limit(k) + 0x3FF_FFFF * 0x3D10 <= cMid && cMid / W + 0x3FF_FFFF * 0x400 <= cOut
    ensures Within(p, k, cSum, dSum, dOut, cMid, cOut)
  {
    StepIs(p, k);
    assert p[k] as int <= Limit(k) && p[10 + k] as int <= Limit(10 + k);
    hide Limit, Step, CarryC, CarryD;
  }

  /** Every bound the source checks on the way, block by block. */
  lemma Widths(p: Columns)
    requires Bounded(p)
    ensures Within(p, 0, 0xFFF_FFFF_FFFF_FFFF, 0x7FFF_FFFF_FFFF_FFFF, 0x1F_FFFF_FFFF, 0x1FFF_FFFF_FFFF_FFFF, 0x1F_FFFF_FFFF)
    ensures Within(p, 1, 0x3FFF_FFFF_FFFF_FFFF, 0x7FFF_FFFF_FFFF_FFFF, 0x1F_FFFF_FFFF, 0x7FFF_FFFF_FFFF_FFFF, 0x3F_FFFF_FFFF)
    ensures Within(p, 2, 0x3FFF_FFFF_FFFF_FFFF, 0x7FFF_FFFF_FFFF_FFFF, 0x1F_FFFF_FFFF, 0x7FFF_FFFF_FFFF_FFFF, 0x3F_FFFF_FFFF)
    ensures Within(p, 3, 0x7FFF_FFFF_FFFF_FFFF, 0x7FFF_FFFF_FFFF_FFFF, 0x1F_FFFF_FFFF, 0xFFFF_FFFF_FFFF_FFFF, 0x7F_FFFF_FFFF)
    ensures Within(p, 4, 0x7FFF_FFFF_FFFF_FFFF, 0x3FFF_FFFF_FFFF_FFFF, 0xF_FFFF_FFFF, 0xFFFF_FFFF_FFFF_FFFF, 0x7F_FFFF_FFFF)
    ensures Within(p, 5, 0x7FFF_FFFF_FFFF_FFFF, 0x3FFF_FFFF_FFFF_FFFF, 0xF_FFFF_FFFF, 0xFFFF_FFFF_FFFF_FFFF, 0x7F_FFFF_FFFF)
    ensures Within(p, 6, 0x7FFF_FFFF_FFFF_FFFF, 0x1FFF_FFFF_FFFF_FFFF, 0x7_FFFF_FFFF, 0xFFFF_FFFF_FFFF_FFFF, 0x7F_FFFF_FFFF)
    ensures Within(p, 7, 0x8000_007C_0000_0007, 0x3FF_FFFF_FFFF_FFFF, 0xFFFF_FFFF, 0x8000_0170_3FFF_C2F7, 0x3F_FFFF_FFFF)
    ensures Within(p, 8, 0x9000_007B_8000_0008, 0x1FF_FFFF_FFFF_FFFF, 0x7FFF_FFFF, 0x9000_016F_BFFF_C2F8, 0x7F_FFFF_FFFF)
  {
    StepIs(p, 0);
    WithinAt(p, 0, 0xFFF_FFFF_FFFF_FFFF, 0x7FFF_FFFF_FFFF_FFFF, 0x1F_FFFF_FFFF, 0x1FFF_FFFF_FFFF_FFFF, 0x1F_FFFF_FFFF);
    StepIs(p, 1);
    WithinAt(p, 1, 0x3FFF_FFFF_FFFF_FFFF, 0x7FFF_FFFF_FFFF_FFFF, 0x1F_FFFF_FFFF, 0x7FFF_FFFF_FFFF_FFFF, 0x3F_FFFF_FFFF);
    StepIs(p, 2);
    WithinAt(p, 2, 0x3FFF_FFFF_FFFF_FFFF, 0x7FFF_FFFF_FFFF_FFFF, 0x1F_FFFF_FFFF, 0x7FFF_FFFF_FFFF_FFFF, 0x3F_FFFF_FFFF);
    StepIs(p, 3);
    WithinAt(p, 3, 0x7FFF_FFFF_FFFF_FFFF, 0x7FFF_FFFF_FFFF_FFFF, 0x1F_FFFF_FFFF, 0xFFFF_FFFF_FFFF_FFFF, 0x7F_FFFF_FFFF);
    StepIs(p, 4);
    WithinAt(p, 4, 0x7FFF_FFFF_FFFF_FFFF, 0x3FFF_FFFF_FFFF_FFFF, 0xF_FFFF_FFFF, 0xFFFF_FFFF_FFFF_FFFF, 0x7F_FFFF_FFFF);
    StepIs(p, 5);
    WithinAt(p, 5, 0x7FFF_FFFF_FFFF_FFFF, 0x3FFF_FFFF_FFFF_FFFF, 0xF_FFFF_FFFF, 0xFFFF_FFFF_FFFF_FFFF, 0x7F_FFFF_FFFF);
    StepIs(p, 6);
    WithinAt(p, 6, 0x7FFF_FFFF_FFFF_FFFF, 0x1FFF_FFFF_FFFF_FFFF, 0x7_FFFF_FFFF, 0xFFFF_FFFF_FFFF_FFFF, 0x7F_FFFF_FFFF);
    StepIs(p, 7);
    WithinAt(p, 7, 0x8000_007C_0000_0007, 0x3FF_FFFF_FFFF_FFFF, 0xFFFF_FFFF, 0x8000_0170_3FFF_C2F7, 0x3F_FFFF_FFFF);
    StepIs(p, 8);
    WithinAt(p, 8, 0x9000_007B_8000_0008, 0x1FF_FFFF_FFFF_FFFF, 0x7FFF_FFFF, 0x9000_016F_BFFF_C2F8, 0x7F_FFFF_FFFF);
  }

  /** Columns k to 8, and 10 + k to 18, as numbers in base 2^26. */
  ghost function Low(p: Columns, k: nat): int
    requires |p| == 19 && k <= 9
    decreases 9 - k
  {
    if k == 9 then 0 else p[k] as int + W * Low(p, k + 1)
  }

  ghost function High(p: Columns, k: nat): int
    requires |p| == 19 && k <= 9
    decreases 9 - k
  {
    if k == 9 then 0 else p[10 + k] as int + W * High(p, k + 1)
  }

  /** The integer the columns stand for. */
  ghost function ColumnValue(p: Columns): int
    requires |p| == 19
  {
    Low(p, 0) + W9 * p[9] as int + W10 * High(p, 0)
  }

  /** What is left before block k, in units of 2^(26 k). */
  ghost function Tail(p: Columns, k: nat): int
    requires Bounded(p) && k <= 9
  {
    Low(p, k) + CarryC(p, k) + W10 * (High(p, k) + CarryD(p, k))
  }

  /** A block splits off one limb and a multiple of 16 p. */
  lemma TailStep(p: Columns, k: nat)
    requires Bounded(p) && k <= 8
    ensures Tail(p, k) == Step(p, k).t as int + W * Tail(p, k + 1) + 16 * FIELD_P * Step(p, k).u as int
  {
    StepIs(p, k);
    var l, h, st := Low(p, k + 1), High(p, k + 1), Step(p, k);
    assert Low(p, k) == p[k] as int + W * l && High(p, k) == p[10 + k] as int + W * h;
    hide Step, Low, High, CarryC, CarryD;
    SplitOff(p[k] as int, p[10 + k] as int, l, h, CarryC(p, k), CarryD(p, k), st.c as int, st.d as int, st.t as int, st.u as int);
  }

  lemma SplitOff(x: int, y: int, l: int, h: int, c: int, d: int, c': int, d': int, t: int, u: int)
    requires d + y == d' * W + u && c + x + u * 0x3D10 == (c' - u * 0x400) * W + t
    ensures (x + W * l) + c + W10 * ((y + W * h) + d) == t + W * (l + c' + W10 * (h + d')) + 16 * FIELD_P * u
  {}

  /** The limbs from k to 8 with what is left above them, and the upper limbs folded down. */
  ghost function LimbsFrom(p: Columns, k: nat): int
    requires Bounded(p) && k <= 9
    decreases 9 - k
  {
    if k == 9 then Tail(p, 9) else Step(p, k).t as int + W * LimbsFrom(p, k + 1)
  }

  ghost function Folded(p: Columns, k: nat): int
    requires Bounded(p) && k <= 9
    decreases 9 - k
  {
    if k == 9 then 0 else Step(p, k).u as int + W * Folded(p, k + 1)
  }

  lemma {:induction false} TailIs(p: Columns, k: nat)
    requires Bounded(p) && k <= 9
    ensures Tail(p, k) == LimbsFrom(p, k) + 16 * FIELD_P * Folded(p, k)
    decreases 9 - k
  {
    hide Tail, Step;
    if k < 9 {
      TailStep(p, k);
      TailIs(p, k + 1);
      Nest(Step(p, k).t as int, Step(p, k).u as int, LimbsFrom(p, k + 1), Folded(p, k + 1));
    }
  }

  lemma Nest(t: int, u: int, l: int, f: int)
    ensures t + W * (l + 16 * FIELD_P * f) + 16 * FIELD_P * u == (t + W * l) + 16 * FIELD_P * (u + W * f)
  {}

  function Reduce(p: Columns): (r: Limbs)
    requires Bounded(p)
  {
    Widths(p);
    var s := Step(p, 8);
    var low := Finish(Step(p, 0).t, Step(p, 1).t, Step(p, 2).t, p[9] % LIMB, s.c, s.d);
    [low.0 as u32, low.1 as u32, low.2 as u32, Step(p, 3).t as u32, Step(p, 4).t as u32, Step(p, 5).t as u32,
     Step(p, 6).t as u32, Step(p, 7).t as u32, s.t as u32, low.3 as u32]
  }

  /** 26 bits a limb, 27 for limb 2 and 22 for limb 9. */
  ghost predicate MulOutput(r: Limbs)
  {
    && |r| == 10 && r[0] < 0x400_0000 && r[1] < 0x400_0000 && r[2] < 0x800_0000 && r[9] < 0x40_0000
    && forall i :: 3 <= i <= 8 ==> r[i] < 0x400_0000
  }

  /** Three limbs below what the rest stands for. */
  ghost function Three(x0: int, x1: int, x2: int, rest: int): int
  {
    x0 + W * (x1 + W * (x2 + W * rest))
  }

  /** The bits from 256 up. */
  ghost function Above256(c: int, d: int, t9: int): int
  {
    (c + d * 0x3D10 + t9) / 0x40_0000 + d * 0x4000
  }

  /** Finish removes multiples of p: the top carry d counts 2^494, c counts 2^234. */
  lemma FinishValue(t0: u64, t1: u64, t2: u64, t9: u64, c: u64, d: u64, mid: int)
    requires t0 < LIMB && t1 < LIMB && t2 < LIMB && t9 < LIMB && c < 0x80_0000_0000 && d < 0x8000_0000
    ensures var (r0, r1, r2, r9) := Finish(t0, t1, t2, t9, c, d);
            Three(t0 as int, t1 as int, t2 as int, mid) + W9 * (t9 as int + c as int + W10 * d as int)
            == Three(r0 as int, r1 as int, r2 as int, mid) + W9 * r9 as int
               + FIELD_P * (16 * W9 * d as int + Above256(c as int, d as int, t9 as int))
  {
    var cc := c as int + d as int * 0x3D10 + t9 as int;
    var e, r9 := cc / 0x40_0000, cc % 0x40_0000;
    var c2 := e + d as int * 0x4000;
    var d0 := c2 * 0x3D1 + t0 as int;
    var d1 := d0 / 0x400_0000 + c2 * 0x40 + t1 as int;
    assert cc == e * 0x40_0000 + r9;
    assert d0 == (d0 / 0x400_0000) * 0x400_0000 + d0 % 0x400_0000;
    assert d1 == (d1 / 0x400_0000) * 0x400_0000 + d1 % 0x400_0000;
  }

  /** The multiple of p that disappears. */
  ghost function Quotient(p: Columns): int
    requires Bounded(p)
  {
    var s := Step(p, 8);
    16 * Folded(p, 0) + (16 * W9 * s.d as int + Above256(s.c as int, s.d as int, (p[9] % LIMB) as int))
  }

  lemma ColumnsSplit(p: Columns)
    requires Bounded(p)
    ensures ColumnValue(p) == Tail(p, 0) + W9 * (p[9] % LIMB) as int
  {
    hide Low, High;
    assert p[9] as int == (p[9] as int / W) * W + (p[9] % LIMB) as int;
  }

  lemma Assemble(cv: int, tail: int, limbs: int, fold: int, t: int, t9: int, c: int, d: int, c2: int, r: int, r9: int, val: int)
    requires cv == tail + W9 * t9 && tail == limbs + 16 * FIELD_P * fold && limbs == t + W9 * (c + W10 * d)
    requires t + W9 * (t9 + c + W10 * d) == r + W9 * r9 + FIELD_P * (16 * W9 * d + c2) && val == r + W9 * r9
    ensures cv == val + (16 * fold + (16 * W9 * d + c2)) * FIELD_P
  {}

  lemma ReducedLow(p: Columns)
    requires Bounded(p)
    ensures Step(p, 8).d < 0x8000_0000
    ensures var s, r := Step(p, 8), Reduce(p);
            |r| == 10 && (r[0] as u64, r[1] as u64, r[2] as u64, r[9] as u64) ==
            Finish(Step(p, 0).t, Step(p, 1).t, Step(p, 2).t, p[9] % LIMB, s.c, s.d)
  {
    Widths(p);
    hide Step, Finish;
  }

  lemma ReduceIdentity(p: Columns)
    requires Bounded(p)
    ensures ColumnValue(p) == Value(Reduce(p)) + Quotient(p) * FIELD_P
  {
    hide Step, LimbsFrom, Folded, Reduce, Finish, Value, Middle, ColumnValue, Tail, Three, Above256;
    ColumnsSplit(p);
    TailIs(p, 0);
    LimbsUnfold(p);
    ReducedUnfold(p);
    ReducedLow(p);
    var s, t9, mid, r := Step(p, 8), p[9] % LIMB, Middle(p), Reduce(p);
    var t0, t1, t2 := Step(p, 0).t, Step(p, 1).t, Step(p, 2).t;
    FinishValue(t0, t1, t2, t9, s.c, s.d, mid);
    Assemble(ColumnValue(p), Tail(p, 0), LimbsFrom(p, 0), Folded(p, 0),
             Three(t0 as int, t1 as int, t2 as int, mid), t9 as int, s.c as int, s.d as int,
             Above256(s.c as int, s.d as int, t9 as int),
             Three(r[0] as int, r[1] as int, r[2] as int, mid), r[9] as int, Value(r));
  }

  /** The reduced limbs stand for the columns modulo p. */
  lemma ReduceValue(p: Columns)
    requires Bounded(p)
    ensures MulOutput(Reduce(p)) && Congruent(Value(Reduce(p)), ColumnValue(p), FIELD_P)
  {
    hide *;
    Nineteen(p);
    ReduceIdentity(p);
    ReducedWidths(p);
    FromMultiple(ColumnValue(p), Value(Reduce(p)), Quotient(p));
  }

  lemma Nineteen(p: Columns)
    requires Bounded(p)
    ensures |p| == 19
  {}

  lemma FromMultiple(cv: int, val: int, k: int)
    requires cv == val + k * FIELD_P
    ensures Congruent(val, cv, FIELD_P)
  {
    hide Congruent;
    CongruentByWitness(cv, val, FIELD_P, k);
    Symmetric(cv, val, FIELD_P);
  }

  lemma ReducedWidths(p: Columns)
    requires Bounded(p)
    ensures MulOutput(Reduce(p))
  {
    Widths(p);
    hide Step, Finish;
  }

  /** Limbs 3 to 8. */
  ghost function Middle(p: Columns): int
    requires Bounded(p)
  {
    Step(p, 3).t as int + W * (Step(p, 4).t as int + W * (Step(p, 5).t as int + W * (Step(p, 6).t as int
    + W * (Step(p, 7).t as int + W * Step(p, 8).t as int))))
  }

  lemma LimbsUnfold(p: Columns)
    requires Bounded(p)
    ensures LimbsFrom(p, 0) == Three(Step(p, 0).t as int, Step(p, 1).t as int, Step(p, 2).t as int, Middle(p))
                               + W9 * (Step(p, 8).c as int + W10 * Step(p, 8).d as int)
  {
    hide Step;
    assert LimbsFrom(p, 9) == CarryC(p, 9) + W10 * CarryD(p, 9);
    assert LimbsFrom(p, 8) == Step(p, 8).t as int + W * LimbsFrom(p, 9);
    assert LimbsFrom(p, 7) == Step(p, 7).t as int + W * LimbsFrom(p, 8);
    assert LimbsFrom(p, 6) == Step(p, 6).t as int + W * LimbsFrom(p, 7);
    assert LimbsFrom(p, 5) == Step(p, 5).t as int + W * LimbsFrom(p, 6);
    assert LimbsFrom(p, 4) == Step(p, 4).t as int + W * LimbsFrom(p, 5);
    assert LimbsFrom(p, 3) == Step(p, 3).t as int + W * LimbsFrom(p, 4);
    assert LimbsFrom(p, 2) == Step(p, 2).t as int + W * LimbsFrom(p, 3);
    assert LimbsFrom(p, 1) == Step(p, 1).t as int + W * LimbsFrom(p, 2);
    hide LimbsFrom;
  }

  lemma ReducedUnfold(p: Columns)
    requires Bounded(p)
    ensures var r := Reduce(p);
            Value(r) == Three(r[0] as int, r[1] as int, r[2] as int, Middle(p)) + W9 * r[9] as int
  {
    hide Step, Finish;
    Widths(p);
    var r := Reduce(p);
    assert Value(r[10..]) == 0;
    assert Value(r[9..]) == r[9] as int + W * Value(r[10..]);
    assert Value(r[8..]) == r[8] as int + W * Value(r[9..]);
    assert Value(r[7..]) == r[7] as int + W * Value(r[8..]);
    assert Value(r[6..]) == r[6] as int + W * Value(r[7..]);
    assert Value(r[5..]) == r[5] as int + W * Value(r[6..]);
    assert Value(r[4..]) == r[4] as int + W * Value(r[5..]);
    assert Value(r[3..]) == r[3] as int + W * Value(r[4..]);
    assert Value(r[2..]) == r[2] as int + W * Value(r[3..]);
    assert Value(r[1..]) == r[1] as int + W * Value(r[2..]);
    hide Value;
  }

  // ---- the columns stand for the product ----

  ghost function At(b: Limbs, j: int): int
  {
    if 0 <= j < |b| then b[j] as int else 0
  }

  /** The terms a[m] * b[k - m] for all m from i on. */
  ghost function Diagonal(a: Limbs, b: Limbs, k: int, i: nat): int
    decreases |a| - i
  {
    if i >= |a| then 0 else Term(a[i] as int, At(b, k - i)) + Diagonal(a, b, k, i + 1)
  }

  /** The diagonals from lo to n - 1, as a number in base 2^26. */
  ghost function Diagonals(a: Limbs, b: Limbs, lo: int, n: int): int
    decreases n - lo
  {
    if lo >= n then 0 else Diagonal(a, b, lo, 0) + W * Diagonals(a, b, lo + 1, n)
  }

  /** x times b, from limb lo to n - 1. */
  ghost function Row(x: int, b: Limbs, lo: int, n: int): int
    decreases n - lo
  {
    if lo >= n then 0 else Term(x, At(b, lo)) + W * Row(x, b, lo + 1, n)
  }

  lemma {:induction false} RowIs(x: int, b: Limbs, lo: int, n: int)
    requires 0 <= lo <= |b| <= n
    ensures Row(x, b, lo, n) == x * Value(b[lo..])
    decreases n - lo
  {
    if lo < |b| {
      RowIs(x, b, lo + 1, n);
      assert b[lo..][1..] == b[lo + 1..];
      Spread(x, b[lo] as int, Value(b[lo + 1..]));
    } else {
      RowEnds(x, b, lo, n);
    }
  }

  lemma {:induction false} RowEnds(x: int, b: Limbs, lo: int, n: int)
    requires lo >= |b|
    ensures Row(x, b, lo, n) == 0
    decreases n - lo
  {
    if lo < n { RowEnds(x, b, lo + 1, n); }
  }

  lemma Spread(x: int, y: int, v: int)
    ensures x * (y + W * v) == x * y + W * (x * v)
  {}

  lemma {:induction false} DiagonalShift(a: Limbs, b: Limbs, k: int, i: nat)
    requires a != []
    ensures Diagonal(a, b, k, i + 1) == Diagonal(a[1..], b, k - 1, i)
    decreases |a| - i
  {
    if i + 1 < |a| { DiagonalShift(a, b, k, i + 1); }
  }

  lemma {:induction false} DiagonalsSplit(a: Limbs, b: Limbs, lo: int, n: int)
    requires a != []
    ensures Diagonals(a, b, lo, n) == Row(a[0] as int, b, lo, n) + Diagonals(a[1..], b, lo - 1, n - 1)
    decreases n - lo
  {
    if lo < n {
      DiagonalShift(a, b, lo, 0);
      DiagonalsSplit(a, b, lo + 1, n);
    }
  }

  lemma {:induction false} DiagonalNegative(a: Limbs, b: Limbs, k: int, i: nat)
    requires k < 0
    ensures Diagonal(a, b, k, i) == 0
    decreases |a| - i
  {
    if i < |a| { DiagonalNegative(a, b, k, i + 1); }
  }

  lemma {:induction false} NoDiagonals(b: Limbs, lo: int, n: int)
    ensures Diagonals([], b, lo, n) == 0
    decreases n - lo
  {
    if lo < n { NoDiagonals(b, lo + 1, n); }
  }

  /** Schoolbook multiplication, for any number of limbs. */
  lemma {:induction false} DiagonalsMultiply(a: Limbs, b: Limbs, n: int)
    requires a == [] || n >= |a| + |b| - 1
    ensures Diagonals(a, b, 0, n) == Value(a) * Value(b)
    decreases |a|
  {
    if a == [] {
      NoDiagonals(b, 0, n);
    } else {
      DiagonalsSplit(a, b, 0, n);
      RowIs(a[0] as int, b, 0, n);
      assert b[0..] == b;
      DiagonalNegative(a[1..], b, -1, 0);
      DiagonalsMultiply(a[1..], b, n - 1);
      var v, w := Value(a[1..]), Value(b);
      if n - 1 > -1 { assert Diagonals(a[1..], b, -1, n - 1) == W * Diagonals(a[1..], b, 0, n - 1); }
      Spread(w, a[0] as int, v);
    }
  }

  lemma {:induction false} SumIsDiagonal(a: Limbs, b: Limbs, k: int, i: int)
    requires |a| == 10 && |b| == 10 && 0 <= k <= 18 && Lo(k) <= i <= Hi(k) + 1
    ensures Sum(a, b, k, i, Hi(k)) == Diagonal(a, b, k, i)
    decreases Hi(k) - i
  {
    if i <= Hi(k) {
      SumIsDiagonal(a, b, k, i + 1);
    } else {
      DiagonalEnds(a, b, k, i);
    }
  }

  lemma {:induction false} DiagonalEnds(a: Limbs, b: Limbs, k: int, i: nat)
    requires i > k || i >= |a|
    ensures Diagonal(a, b, k, i) == 0
    decreases |a| - i
  {
    if i < |a| { DiagonalEnds(a, b, k, i + 1); }
  }

  lemma {:induction false} DiagonalStarts(a: Limbs, b: Limbs, k: int, i: nat)
    requires |a| == 10 && |b| == 10 && 0 <= k <= 18 && i <= Lo(k)
    ensures Diagonal(a, b, k, i) == Diagonal(a, b, k, Lo(k))
    decreases Lo(k) - i
  {
    if i < Lo(k) { DiagonalStarts(a, b, k, i + 1); }
  }

  lemma ColumnIs(a: Limbs, b: Limbs, k: int)
    requires MulInput(a) && MulInput(b) && 0 <= k <= 18
    ensures Column(a, b, k) as int == Diagonal(a, b, k, 0)
  {
    DiagonalStarts(a, b, k, 0);
    SumIsDiagonal(a, b, k, Lo(k));
  }

  ghost function LowThen(p: Columns, k: nat, x: int): int
    requires |p| == 19 && k <= 9
    decreases 9 - k
  {
    if k == 9 then x else p[k] as int + W * LowThen(p, k + 1, x)
  }

  lemma LowThenIs(p: Columns, x: int)
    requires |p| == 19
    ensures LowThen(p, 0, x) == Low(p, 0) + W9 * x
  {
    assert LowThen(p, 9, x) == Low(p, 9) + 0x1 * x;
    assert LowThen(p, 8, x) == Low(p, 8) + 0x4000000 * x;
    assert LowThen(p, 7, x) == Low(p, 7) + 0x10_0000_0000_0000 * x;
    assert LowThen(p, 6, x) == Low(p, 6) + 0x4000_0000_0000_0000_0000 * x;
    assert LowThen(p, 5, x) == Low(p, 5) + 0x100_0000_0000_0000_0000_0000_0000 * x;
    assert LowThen(p, 4, x) == Low(p, 4) + 0x4_0000_0000_0000_0000_0000_0000_0000_0000 * x;
    assert LowThen(p, 3, x) == Low(p, 3) + 0x1000_0000_0000_0000_0000_0000_0000_0000_0000_0000 * x;
    assert LowThen(p, 2, x) == Low(p, 2) + 0x40_0000_0000_0000_0000_0000_0000_0000_0000_0000_0000_0000 * x;
    assert LowThen(p, 1, x) == Low(p, 1) + 0x1_0000_0000_0000_0000_0000_0000_0000_0000_0000_0000_0000_0000_0000 * x;
    assert LowThen(p, 0, x) == Low(p, 0) + 0x400_0000_0000_0000_0000_0000_0000_0000_0000_0000_0000_0000_0000_0000_0000 * x;
  }

  lemma {:induction false} LowDiagonals(a: Limbs, b: Limbs, k: nat)
    requires MulInput(a) && MulInput(b) && k <= 9
    ensures Diagonals(a, b, k, 19) == LowThen(MulColumns(a, b), k, Diagonals(a, b, 9, 19))
    decreases 9 - k
  {
    if k < 9 {
      ColumnIs(a, b, k);
      LowDiagonals(a, b, k + 1);
    }
  }

  lemma {:induction false} HighDiagonals(a: Limbs, b: Limbs, k: nat)
    requires MulInput(a) && MulInput(b) && k <= 9
    ensures Diagonals(a, b, 10 + k, 19) == High(MulColumns(a, b), k)
    decreases 9 - k
  {
    if k < 9 {
      ColumnIs(a, b, 10 + k);
      HighDiagonals(a, b, k + 1);
    }
  }

  lemma NinthDiagonal(a: Limbs, b: Limbs)
    requires MulInput(a) && MulInput(b)
    ensures Diagonals(a, b, 9, 19) == MulColumns(a, b)[9] as int + W * High(MulColumns(a, b), 0)
  {
    hide *;
    ColumnAt(a, b, 9);
    HighDiagonals(a, b, 0);
    DiagonalsStep(a, b, 9, 19);
  }

  lemma ColumnAt(a: Limbs, b: Limbs, k: int)
    requires MulInput(a) && MulInput(b) && 0 <= k <= 18
    ensures MulColumns(a, b)[k] as int == Diagonal(a, b, k, 0)
  {
    ColumnIs(a, b, k);
    hide Column, Diagonal;
  }

  lemma DiagonalsStep(a: Limbs, b: Limbs, lo: int, n: int)
    requires lo < n
    ensures Diagonals(a, b, lo, n) == Diagonal(a, b, lo, 0) + W * Diagonals(a, b, lo + 1, n)
  {}

  lemma Shifted(low: int, p9: int, high: int)
    ensures low + W9 * (p9 + W * high) == low + W9 * p9 + W10 * high
  {}

  /** The columns stand for the product of the two values. */
  lemma ColumnsMultiply(a: Limbs, b: Limbs)
    requires MulInput(a) && MulInput(b)
    ensures ColumnValue(MulColumns(a, b)) == Value(a) * Value(b)
  {
    hide Diagonals, High, Low, LowThen, Value, MulColumns;
    var p := MulColumns(a, b);
    DiagonalsMultiply(a, b, 19);
    LowDiagonals(a, b, 0);
    NinthDiagonal(a, b);
    LowThenIs(p, Diagonals(a, b, 9, 19));
    Shifted(Low(p, 0), p[9] as int, High(p, 0));
  }

  /** secp256k1_fe_mul_inner. */
  method MulInner(a: Limbs, b: Limbs) returns (r: Limbs)
    requires MulInput(a) && MulInput(b)
    ensures MulOutput(r) && r == Reduce(MulColumns(a, b))
    ensures Congruent(Value(r), Value(a) * Value(b), FIELD_P)
  {
    hide MulColumns, Reduce, Congruent, Value, ColumnValue, MulOutput;
    r := Reduce(MulColumns(a, b));
    ReduceValue(MulColumns(a, b));
    ColumnsMultiply(a, b);
  }

  // ---- squaring ----

  lemma {:induction false} SumLast(a: Limbs, b: Limbs, k: int, i: int, j: int)
    requires |a| == 10 && |b| == 10 && 0 <= k <= 18 && Lo(k) <= i <= j <= Hi(k)
    ensures Sum(a, b, k, i, j) == Sum(a, b, k, i, j - 1) + Term(a[j] as int, b[k - j] as int)
    decreases j - i
  {
    if i < j { SumLast(a, b, k, i + 1, j); }
  }

  lemma {:induction false} CapLast(k: int, i: int, j: int)
    requires i <= j
    ensures Cap(k, i, j) == Cap(k, i, j - 1) + Term(Max(j), Max(k - j))
    decreases j - i
  {
    if i < j { CapLast(k, i + 1, j); }
  }

  /** The first and the last term of a square's column are the same product. */
  lemma SumEnds(a: Limbs, k: int, i: int)
    requires |a| == 10 && 0 <= k <= 18 && Lo(k) <= i && 2 * i <= k
    ensures 2 * i == k ==> Sum(a, a, k, i, k - i) == Term(a[i] as int, a[i] as int)
    ensures 2 * i < k ==> Sum(a, a, k, i, k - i) == 2 * Term(a[i] as int, a[k - i] as int) + Sum(a, a, k, i + 1, k - i - 1)
  {
    hide Term;
    if 2 * i < k {
      SumLast(a, a, k, i + 1, k - i);
      Doubled(a[i] as int, a[k - i] as int);
    }
  }

  lemma CapEnds(k: int, i: int)
    requires 2 * i <= k
    ensures 2 * i == k ==> Cap(k, i, k - i) == Term(Max(i), Max(i))
    ensures 2 * i < k ==> Cap(k, i, k - i) == 2 * Term(Max(i), Max(k - i)) + Cap(k, i + 1, k - i - 1)
  {
    hide Term, Max;
    if 2 * i < k {
      CapLast(k, i + 1, k - i);
      Doubled(Max(i), Max(k - i));
    }
  }

  /** A column of a square from limb i on: equal products are taken once, with the first limb doubled. */
  function SquareFrom(a: Limbs, k: int, i: int): (s: u64)
    requires MulInput(a) && 0 <= k <= 18 && Lo(k) <= i <= Hi(k) + 1 && Cap(k, i, k - i) < 0x1_0000_0000_0000_0000
    ensures s as int == Sum(a, a, k, i, k - i) <= Cap(k, i, k - i)
    decreases k - 2 * i
  {
    if 2 * i > k then 0
    else
      SumEnds(a, k, i);
      CapEnds(k, i);
      if 2 * i == k then Product(a[i], a[i], Max(i), Max(i))
      else
        CapNonNeg(k, i + 1, k - i - 1);
        TwiceProduct(a[i], a[k - i], Max(i), Max(k - i)) + SquareFrom(a, k, i + 1)
  }

  function SqrColumn(a: Limbs, k: int): (s: u64)
    requires MulInput(a) && 0 <= k <= 18
    ensures s == Column(a, a, k)
  {
    Limits(k);
    SquareFrom(a, k, Lo(k))
  }

  function SqrColumns(a: Limbs): (p: Columns)
    requires MulInput(a)
    ensures p == MulColumns(a, a)
  {
    seq(19, k requires 0 <= k < 19 => SqrColumn(a, k))
  }

  /** secp256k1_fe_sqr_inner: limb for limb what multiplying a by itself gives. */
  method SqrInner(a: Limbs) returns (r: Limbs)
    requires MulInput(a)
    ensures MulOutput(r) && r == Reduce(MulColumns(a, a))
    ensures Congruent(Value(r), Value(a) * Value(a), FIELD_P)
  {
    hide MulColumns, Reduce, Congruent, Value, ColumnValue, MulOutput;
    r := Reduce(SqrColumns(a));
    ReduceValue(MulColumns(a, a));
    ColumnsMultiply(a, a);
  }
}
