/** Blinded comb multiplication of the generator (libsecp256k1/src/ecmult_gen_impl.h). */
module EcmultGen {
  import opened Arithmetic
  import opened Digits
  import opened Groups
  import opened Scalars
  import opened Secp256k1
  import opened Ecmult

  const ROWS: nat := 64

  /** Row j is masked by Mask(j)*nums: powers of two, and a last one that cancels their sum. */
  ghost function Mask(j: nat): int
  {
    if j == 63 then 1 - Pow2(j) else Pow2(j)
  }

  ghost function MaskSum(j: nat): int
  {
    if j == 0 then 0 else MaskSum(j - 1) + Mask(j - 1)
  }

  lemma {:induction false} MaskSumBelow(j: nat)
    requires j <= 63
    ensures MaskSum(j) == Pow2(j) - 1
  {
    if j > 0 { MaskSumBelow(j - 1); }
  }

  /** The 64 masks sum to zero. */
  lemma MasksCancel(j: nat)
    requires j == ROWS
    ensures MaskSum(j) == 0
  {
    MaskSumBelow(j - 1);
  }

  /** Entry i of row j: Mask(j)*nums + i*16^j*G. */
  ghost predicate RowOk<P(!new)>(g: Group<P>, nums: P, gen: P, row: seq<P>, j: nat)
  {
    |row| == 16 && forall i :: 0 <= i < 16 ==> row[i] == Lin(g, Mask(j), nums, i * Weight(4, j), gen)
  }

  ghost predicate TableOk<P(!new)>(g: Group<P>, nums: P, gen: P, prec: seq<seq<P>>)
  {
    |prec| == ROWS && forall j :: 0 <= j < ROWS ==> RowOk(g, nums, gen, prec[j], j)
  }

  /** One row of the table loop: add 16^j*G fifteen times. */
  method BuildRow<P(!new)>(g: Group<P>, nums: P, gen: P, numsbase: P, gbase: P, j: nat) returns (row: seq<P>)
    requires Abelian(g) && numsbase == Mul(g, Mask(j), nums) && gbase == Mul(g, Weight(4, j), gen)
    ensures RowOk(g, nums, gen, row, j)
  {
    hide Abelian, Mask, Weight;
    var w := Weight(4, j);
    row := [numsbase];
    AddZero(g, numsbase);
    assert Mul(g, 0 * w, gen) == g.zero;
    hide Mul;
    for i := 1 to 16
      invariant |row| == i
      invariant forall k :: 0 <= k < i ==> row[k] == Lin(g, Mask(j), nums, k * w, gen)
    {
      LinAddRight(g, Mask(j), (i - 1) * w, w, nums, gen);
      assert (i - 1) * w + w == i * w;
      row := row + [g.add(row[i - 1], gbase)];
    }
  }

  /** gbase is multiplied by sixteen: four doublings. */
  method TimesSixteen<P(!new)>(g: Group<P>, p: P, ghost w: int, ghost gen: P) returns (r: P)
    requires Abelian(g) && p == Mul(g, w, gen)
    ensures r == Mul(g, 16 * w, gen)
  {
    hide Mul, Abelian;
    r := p;
    for i := 0 to 4
      invariant r == Mul(g, Pow2(i) * w, gen)
    {
      MulAdd(g, Pow2(i) * w, Pow2(i) * w, gen);
      assert Pow2(i) * w + Pow2(i) * w == Pow2(i + 1) * w;
      r := g.add(r, r);
    }
    assert Pow2(4) == 16;
  }

  /** The table of secp256k1_ecmult_gen_context_build. */
  method BuildTable<P(!new)>(g: Group<P>, nums: P, gen: P) returns (prec: seq<seq<P>>)
    requires Abelian(g)
    ensures TableOk(g, nums, gen, prec)
  {
    hide Mul, Abelian, RowOk, Mask, Weight, Pow2;
    MaskSteps(0);
    MulOne(g, nums);
    MulOne(g, gen);
    var gbase, numsbase := gen, nums;
    prec := [];
    for j := 0 to ROWS
      invariant |prec| == j
      invariant gbase == Mul(g, Weight(4, j), gen)
      invariant j < ROWS ==> numsbase == Mul(g, Mask(j), nums)
      invariant forall k :: 0 <= k < j ==> RowOk(g, nums, gen, prec[k], k)
    {
      var row := BuildRow(g, nums, gen, numsbase, gbase, j);
      prec := prec + [row];
      gbase := TimesSixteen(g, gbase, Weight(4, j), gen);
      MaskSteps(j);
      MulAdd(g, Mask(j), Mask(j), nums);
      numsbase := g.add(numsbase, numsbase);
      if j == 62 {
        MulNeg(g, 2 * Mask(j), nums);
        MulAdd(g, -(2 * Mask(j)), 1, nums);
        numsbase := g.neg(numsbase);
        numsbase := g.add(numsbase, nums);
      }
    }
  }

  lemma MaskSteps(j: nat)
    ensures Weight(4, 0) == 1 && Mask(0) == 1 && Weight(4, j + 1) == 16 * Weight(4, j)
    ensures j < 62 ==> Mask(j + 1) == 2 * Mask(j)
    ensures j == 62 ==> Mask(j + 1) == -(2 * Mask(j)) + 1
  {
    assert Pow2(4) == 16;
  }

  /** Adding the entry of row j selected by bits 4j..4j+4 extends both coefficients. */
  lemma CombStep<P(!new)>(g: Group<P>, nums: P, gen: P, r: P, initial: P, gnb: nat, j: nat, bits: nat, entry: P)
    requires Abelian(g) && bits == Bits(gnb, 4 * j, 4)
    requires r == g.add(initial, Lin(g, MaskSum(j), nums, gnb % Weight(4, j), gen))
    requires entry == Lin(g, Mask(j), nums, bits * Weight(4, j), gen)
    ensures g.add(r, entry) == g.add(initial, Lin(g, MaskSum(j + 1), nums, gnb % Weight(4, j + 1), gen))
  {
    var w, low := Weight(4, j), gnb % Weight(4, j);
    CombDigit(gnb, j);
    assert MaskSum(j + 1) == MaskSum(j) + Mask(j);
    hide Abelian, Lin, Weight, Bits, MaskSum, Mask;
    LinAdd(g, MaskSum(j), low, Mask(j), bits * w, nums, gen);
    Assoc(g, initial, Lin(g, MaskSum(j), nums, low, gen), entry);
  }

  lemma CombDigit(gnb: nat, j: nat)
    ensures gnb % Weight(4, j + 1) == gnb % Weight(4, j) + Bits(gnb, 4 * j, 4) * Weight(4, j)
  {
    WeightIsPow2(4, j);
    WeightIsPow2(4, j + 1);
    assert 4 * (j + 1) == 4 * j + 4;
    LowBitsExtend(gnb, 4 * j, 4);
  }

  class GenContext<P(!new)> {
    const curve: Curve<P>
    const nums: P
    var prec: seq<seq<P>>
    var blind: nat
    var initial: P

    ghost predicate Built()
      reads this
    {
      CurveLaws(curve) && TableOk(curve.group, nums, curve.gen, prec)
    }

    /** Every blinding state keeps initial = -(blind*G). */
    ghost predicate Valid()
      reads this
    {
      && Built() && blind < N
      && initial == curve.group.neg(Mul(curve.group, blind, curve.gen))
    }

    /** secp256k1_ecmult_gen_context_build; `b` is the blinding value the generator draws. */
    constructor (curve: Curve<P>, nums: P, b: nat)
      requires CurveLaws(curve) && 0 < b < N
      ensures Valid() && this.curve == curve && this.nums == nums && blind == NegateScalar(b)
    {
      Order(curve, nums);
      this.curve, this.nums := curve, nums;
      blind, initial := 0, curve.group.zero;
      prec := [];
      new;
      prec := BuildTable(curve.group, nums, curve.gen);
      Blind(true, b);
    }

    /** The constant-time selection scans the whole row. */
    static method Select(row: seq<P>, bits: nat) returns (r: P)
      requires |row| == 16 && bits < 16
      ensures r == row[bits]
    {
      r := row[0];
      for i := 0 to 16
        invariant i > bits ==> r == row[bits]
      {
        if i == bits {
          r := row[i];
        }
      }
    }

    /** secp256k1_ecmult_gen: gn*G in every blinding state. */
    method EcmultGen(gn: nat) returns (r: P)
      requires Valid() && gn < N
      ensures r == Mul(curve.group, gn, curve.gen)
    {
      hide CurveLaws, Abelian, Mul, Weight, Bits, MaskSum, Lin, Congruent;
      var g, gen := curve.group, curve.gen;
      Order(curve, gen);
      r := initial;
      var gnb := (gn + blind) % N;
      CombStart(g, nums, gen, initial, gnb);
      for j := 0 to ROWS
        invariant r == g.add(initial, Lin(g, MaskSum(j), nums, gnb % Weight(4, j), gen))
      {
        var bits := Bits(gnb, 4 * j, 4);
        assert Pow2(4) == 16;
        var add := Select(prec[j], bits);
        assert RowOk(g, nums, gen, prec[j], j);
        CombStep(g, nums, gen, r, initial, gnb, j, bits, add);
        r := g.add(r, add);
      }
      CombEnd(curve, nums, initial, blind, gn, gnb, ROWS);
    }

    /** secp256k1_ecmult_gen_blind: with no seed the state is first reset. */
    method Blind(reset: bool, b: nat)
      requires Built() && 0 < b < N && (!reset ==> Valid())
      modifies this`blind, this`initial
      ensures Valid() && blind == NegateScalar(b) && initial == Mul(curve.group, b, curve.gen)
    {
      hide CurveLaws, Abelian, Mul, TableOk;
      Order(curve, curve.gen);
      if reset {
        MulOne(curve.group, curve.gen);
        initial := curve.group.neg(curve.gen);
        blind := 1;
      }
      var gb := EcmultGen(b);
      blind := NegateScalar(b);
      initial := gb;
      MulNeg(curve.group, N - b, curve.gen);
      CongruentByWitness(-(N - b), b, N, -1);
      MulCongruent(curve.group, N, -(N - b), b, curve.gen);
    }
  }

  lemma CombStart<P(!new)>(g: Group<P>, nums: P, gen: P, initial: P, gnb: nat)
    requires Abelian(g)
    ensures initial == g.add(initial, Lin(g, MaskSum(0), nums, gnb % Weight(4, 0), gen))
  {
    assert gnb % 1 == 0;
    AddZero(g, g.zero);
    AddZero(g, initial);
  }

  /** With all 64 rows read the masks are gone and the blinding cancels. */
  lemma CombEnd<P(!new)>(c: Curve<P>, nums: P, initial: P, blind: int, gn: int, gnb: int, rows: nat)
    requires CurveLaws(c) && 0 <= blind < N && 0 <= gn < N && rows == ROWS && 0 <= gnb < N && gnb == (gn + blind) % N
    requires initial == c.group.neg(Mul(c.group, blind, c.gen))
    ensures c.group.add(initial, Lin(c.group, MaskSum(rows), nums, gnb % Weight(4, rows), c.gen))
            == Mul(c.group, gn, c.gen)
  {
    hide *;
    var g, gen := c.group, c.gen;
    MasksCancel(rows);
    FullRead(gnb, rows);
    Order(c, gen);
    LinZero(g, nums, gnb, gen);
    MulNeg(g, blind, gen);
    MulAdd(g, -blind, gnb, gen);
    Unblind(gn, blind);
    MulCongruent(g, N, gnb - blind, gn, gen);
  }

  lemma FullRead(gnb: nat, rows: nat)
    requires gnb < N && rows == ROWS
    ensures gnb % Weight(4, rows) == gnb
  {
    WeightIsPow2(4, rows);
    Pow2At256(4 * rows);
  }

  lemma Unblind(gn: int, blind: int)
    ensures Congruent((gn + blind) % N - blind, gn, N)
  {
    ModCongruent(gn + blind, N);
    Reflexive(blind, N);
    CongruentAdd((gn + blind) % N, gn + blind, blind, blind, N);
  }

  lemma LinZero<P(!new)>(g: Group<P>, a: P, y: int, b: P)
    requires Abelian(g)
    ensures Lin(g, 0, a, y, b) == Mul(g, y, b)
  {
    AddZero(g, Mul(g, y, b));
  }
}
