/** Strauss multiplication na*A + ng*G (libsecp256k1/src/ecmult_impl.h). */
module Ecmult {
  import opened Arithmetic
  import opened Digits
  import opened Groups
  import opened Scalars
  import opened Secp256k1
  import opened LambdaSplit
  import opened Wnaf

  const WINDOW_A: nat := 5
  const WINDOW_G: nat := 15

  /** The curve: its group, the generator, and the endomorphism that multiplies by lambda. */
  datatype Curve<!P> = Curve(group: Group<P>, gen: P, lambda: int, mulLambda: P -> P)

  ghost predicate CurveLaws<P(!new)>(c: Curve<P>)
  {
    && Abelian(c.group) && c.lambda == LAMBDA
    && (forall p: P {:trigger Pt(p)} ::
          && Mul(c.group, N, p) == c.group.zero
          && c.mulLambda(p) == Mul(c.group, c.lambda, p))
    && (forall k: int {:trigger Mul(c.group, k, c.gen)} ::
          Mul(c.group, k, c.gen) == c.group.zero ==> k % N == 0)
  }

  /** The generator has order exactly n. */
  lemma GeneratorMultiple<P(!new)>(c: Curve<P>, k: int)
    requires CurveLaws(c) && k % N != 0
    ensures Mul(c.group, k, c.gen) != c.group.zero
  {}

  lemma Order<P(!new)>(c: Curve<P>, p: P)
    requires CurveLaws(c)
    ensures Abelian(c.group) && Mul(c.group, N, p) == c.group.zero
    ensures c.mulLambda(p) == Mul(c.group, c.lambda, p)
  {
    assert Pt(p);
  }

  /** The table of odd multiples 1*p, 3*p, ..., one entry for each wNAF digit size. */
  ghost predicate OddTable<P(!new)>(g: Group<P>, pre: seq<P>, p: P)
  {
    forall i :: 0 <= i < |pre| ==> pre[i] == Mul(g, 2 * i + 1, p)
  }

  function TableSize(w: nat): (r: nat)
    requires w >= 2
    ensures 2 * r == Pow2(w - 1)
  {
    Pow2(w - 2)
  }

  /** secp256k1_ecmult_odd_multiples_table: add 2a repeatedly. */
  method OddMultiplesTable<P(!new)>(g: Group<P>, pre: array<P>, a: P)
    requires Abelian(g) && a != g.zero && pre.Length > 0
    modifies pre
    ensures OddTable(g, pre[..], a)
  {
    var d := g.add(a, a);
    MulOne(g, a);
    pre[0] := a;
    var i := 1;
    while i < pre.Length
      invariant 1 <= i <= pre.Length
      invariant forall k :: 0 <= k < i ==> pre[k] == Mul(g, 2 * k + 1, a)
    {
      pre[i] := g.add(pre[i - 1], d);
      MulAdd(g, 2 * (i - 1) + 1, 2, a);
      i := i + 1;
    }
  }

  /** ECMULT_TABLE_GET_GE: a digit selects its multiple, negated for a negative digit. */
  function TableGet<P(!new)>(g: Group<P>, pre: seq<P>, n: int, w: nat, ghost p: P): (r: P)
    requires Abelian(g) && w >= 2 && IsWnafDigit(n, w) && n != 0
    requires |pre| == TableSize(w) && OddTable(g, pre, p)
    ensures r == Mul(g, n, p)
  {
    if n > 0 then
      assert n == 2 * ((n - 1) / 2) + 1;
      pre[(n - 1) / 2]
    else
      assert -n == 2 * ((-n - 1) / 2) + 1;
      MulNeg(g, -n, p);
      g.neg(pre[(-n - 1) / 2])
  }

  /** Digit i of an expansion whose non-zero digits lie below `bits`. */
  ghost function DigitAt(d: seq<int>, bits: nat, i: nat): int
  {
    if i < bits && i < |d| then d[i] else 0
  }

  /** What a doubling loop that has come down to place i has read of `d`. */
  ghost function ReadFrom(d: seq<int>, i: nat): int
  {
    if i <= |d| then Horner(d, 1, i) else 0
  }

  lemma ReadStep(d: seq<int>, w: nat, bits: nat, i: nat)
    requires w > 0 && IsWnaf(d, w, bits)
    ensures ReadFrom(d, i) == DigitAt(d, bits, i) + 2 * ReadFrom(d, i + 1)
    ensures i >= bits ==> ReadFrom(d, i) == 0
  {
    assert Pow2(1) == 2;
    if i >= bits && i <= |d| {
      HornerZeros(d, 1, i);
    }
  }

  /** One conditional addition of the loop body. */
  method AddDigit<P(!new)>(g: Group<P>, r: P, wnaf: seq<int>, bits: nat, i: nat, w: nat, pre: seq<P>, ghost p: P)
    returns (r': P)
    requires Abelian(g) && w >= 2 && IsWnaf(wnaf, w, bits)
    requires |pre| == TableSize(w) && OddTable(g, pre, p)
    ensures r' == g.add(r, Mul(g, DigitAt(wnaf, bits, i), p))
  {
    r' := r;
    AddZero(g, r);
    if i < bits {
      var n := wnaf[i];
      if n != 0 {
        r' := g.add(r, TableGet(g, pre, n, w, p));
      }
    }
  }

  /** One round of the loop on the accumulator's two coefficients. */
  lemma RoundValue<P(!new)>(c: Curve<P>, a: P, b: P, x: int, y: int, d1: int, d2: int, e1: int, e2: int, k: int)
    requires CurveLaws(c)
    ensures var g := c.group;
            var r0 := Lin(g, x, a, y, b);
            var r1 := g.add(g.add(r0, r0), Mul(g, d1, a));
            var r2 := g.add(r1, Mul(g, d2, c.mulLambda(a)));
            var r3 := g.add(r2, Mul(g, e1, b));
            g.add(r3, Mul(g, e2, Mul(g, k, b)))
            == Lin(g, 2 * x + d1 + d2 * c.lambda, a, 2 * y + e1 + e2 * k, b)
  {
    hide *;
    var g := c.group;
    Order(c, a);
    LinAdd(g, x, y, x, y, a, b);
    LinAddLeft(g, 2 * x, 2 * y, d1, a, b);
    MulMul(g, d2, c.lambda, a);
    LinAddLeft(g, 2 * x + d1, 2 * y, d2 * c.lambda, a, b);
    LinAddRight(g, 2 * x + d1 + d2 * c.lambda, 2 * y, e1, a, b);
    MulMul(g, e2, k, b);
    LinAddRight(g, 2 * x + d1 + d2 * c.lambda, 2 * y + e1, e2 * k, a, b);
  }

  lemma SplitCongruent(k: int, x1: int, x2: int, n1: int, n2: int, na: int, m: int)
    requires Congruent(x1, n1, m) && Congruent(x2, n2, m) && Congruent(n1 + n2 * k, na, m)
    ensures Congruent(x1 + x2 * k, na, m)
  {
    hide Congruent;
    CongruentScale(k, x2, n2, m);
    assert k * x2 == x2 * k && k * n2 == n2 * k;
    CongruentAdd(x1, n1, x2 * k, n2 * k, m);
    Transitive(x1 + x2 * k, n1 + n2 * k, na, m);
  }

  /** Four recodings read together stand for na*a + ng*G. */
  lemma CoefficientsMatch<P(!new)>(c: Curve<P>, a: P, na: nat, ng: nat, half: int,
                                   x1: int, x2: int, y1: int, y2: int, n1: nat, n2: nat)
    requires CurveLaws(c) && Congruent(n1 + n2 * c.lambda, na, N)
    requires Congruent(x1, n1, N) && Congruent(x2, n2, N) && Congruent(y1 + y2 * half, ng, N)
    ensures Lin(c.group, x1 + x2 * c.lambda, a, y1 + y2 * half, c.gen) == Lin(c.group, na, a, ng, c.gen)
  {
    hide CurveLaws, Abelian, Mul, Lin, Congruent;
    SplitCongruent(c.lambda, x1, x2, n1, n2, na, N);
    Order(c, a);
    Order(c, c.gen);
    LinCongruent(c.group, N, x1 + x2 * c.lambda, na, a, y1 + y2 * half, ng, c.gen);
  }

  /** The precomputed tables of secp256k1_ecmult_context. */
  datatype Context<P> = Context(preG: seq<P>, preG128: seq<P>)

  ghost predicate ContextTables<P(!new)>(c: Curve<P>, ctx: Context<P>)
  {
    && |ctx.preG| == TableSize(WINDOW_G) && OddTable(c.group, ctx.preG, c.gen)
    && |ctx.preG128| == TableSize(WINDOW_G) && OddTable(c.group, ctx.preG128, Mul(c.group, HALF, c.gen))
  }

  /** secp256k1_ecmult_context_build: odd multiples of G and of 2^128*G. */
  method BuildContext<P(!new)>(c: Curve<P>) returns (ctx: Context<P>)
    requires CurveLaws(c)
    ensures ContextTables(c, ctx)
  {
    hide Mul, CurveLaws, Abelian, OddTable, TableSize;
    Order(c, c.gen);
    GeneratorMultiple(c, 1);
    GeneratorMultiple(c, HALF);
    var g := c.group;
    MulOne(g, c.gen);
    var pre := new P[TableSize(WINDOW_G)](_ => c.gen);
    OddMultiplesTable(g, pre, c.gen);
    var preG := pre[..];
    var g128, i, bits := c.gen, 0, 128;
    while i < bits
      invariant 0 <= i <= bits
      invariant g128 == Mul(g, Pow2(i), c.gen)
    {
      MulAdd(g, Pow2(i), Pow2(i), c.gen);
      g128 := g.add(g128, g128);
      i := i + 1;
    }
    Pow2At128(bits);
    var pre128 := new P[TableSize(WINDOW_G)](_ => g128);
    OddMultiplesTable(g, pre128, g128);
    ctx := Context(preG, pre128[..]);
  }

  /** secp256k1_scalar_split_128. */
  function Split128(k: nat): (r: (nat, nat))
    requires k < N
    ensures k == r.0 + r.1 * HALF && r.0 < HALF && r.1 < HALF
  {
    (k % HALF, k / HALF)
  }

  /** The accumulator after the loop has come down to place i. */
  ghost function Accumulated<P(!new)>(c: Curve<P>, a: P, i: nat, d1: seq<int>, d2: seq<int>,
                                      e1: seq<int>, e2: seq<int>): P
  {
    Lin(c.group, ReadFrom(d1, i) + ReadFrom(d2, i) * c.lambda, a,
        ReadFrom(e1, i) + ReadFrom(e2, i) * HALF, c.gen)
  }

  lemma AccumulatedTop<P(!new)>(c: Curve<P>, a: P, i: nat, d1: seq<int>, d2: seq<int>, e1: seq<int>, e2: seq<int>)
    requires CurveLaws(c)
    requires ReadFrom(d1, i) == 0 && ReadFrom(d2, i) == 0 && ReadFrom(e1, i) == 0 && ReadFrom(e2, i) == 0
    ensures Accumulated(c, a, i, d1, d2, e1, e2) == c.group.zero
  {
    AddZero(c.group, c.group.zero);
  }

  lemma AccumulatedStep<P(!new)>(c: Curve<P>, a: P, i: nat, d1: seq<int>, d2: seq<int>, e1: seq<int>, e2: seq<int>,
                                 x1: int, x2: int, y1: int, y2: int)
    requires CurveLaws(c)
    requires ReadFrom(d1, i) == x1 + 2 * ReadFrom(d1, i + 1) && ReadFrom(d2, i) == x2 + 2 * ReadFrom(d2, i + 1)
    requires ReadFrom(e1, i) == y1 + 2 * ReadFrom(e1, i + 1) && ReadFrom(e2, i) == y2 + 2 * ReadFrom(e2, i + 1)
    ensures var g := c.group;
            var r0 := Accumulated(c, a, i + 1, d1, d2, e1, e2);
            var r1 := g.add(g.add(r0, r0), Mul(g, x1, a));
            var r2 := g.add(r1, Mul(g, x2, c.mulLambda(a)));
            var r3 := g.add(r2, Mul(g, y1, c.gen));
            g.add(r3, Mul(g, y2, Mul(g, HALF, c.gen))) == Accumulated(c, a, i, d1, d2, e1, e2)
  {
    hide ReadFrom, Lin, Mul, CurveLaws;
    var u1, u2, v1, v2 := ReadFrom(d1, i + 1), ReadFrom(d2, i + 1), ReadFrom(e1, i + 1), ReadFrom(e2, i + 1);
    RoundValue(c, a, c.gen, u1 + u2 * c.lambda, v1 + v2 * HALF, x1, x2, y1, y2, HALF);
    assert (x2 + 2 * u2) * c.lambda == x2 * c.lambda + 2 * (u2 * c.lambda);
  }

  lemma SplitHalves(k: nat)
    requires k < N
    ensures Split128(k).0 < N && Split128(k).1 < N && Small(Split128(k).0) && Small(Split128(k).1)
    ensures Split128(k).0 + Split128(k).1 * HALF == k
    ensures Signed(Split128(k).0) == Split128(k).0 && Signed(Split128(k).1) == Split128(k).1
  {}

  lemma SplitFor<P(!new)>(c: Curve<P>, k: nat)
    requires CurveLaws(c) && k < N
    ensures Congruent(SplitLambda(k).0 + SplitLambda(k).1 * c.lambda, k, N)
    ensures Small(SplitLambda(k).0) && Small(SplitLambda(k).1)
  {
    hide Abelian, Mul, Congruent, SplitLambda, Small;
    SplitParts(k);
  }

  /** Recoding a scalar of at most 128 bits into 129 or 130 places is exact. */
  method RecodeSmall(len: nat, a: nat, w: nat) returns (d: seq<int>, bits: nat)
    requires a < N && Small(a) && 129 <= len <= 256 && 2 <= w <= 31
    ensures |d| == len && IsWnaf(d, w, bits)
    ensures ReadFrom(d, 0) == Signed(a) && Congruent(ReadFrom(d, 0), a, N)
  {
    var wnaf := new int[len];
    ghost var carry;
    bits, carry := EcmultWnaf(wnaf, a, w);
    d := wnaf[..];
    var e := 128;
    Pow2At128(e);
    Pow2Mono(e, len - 1);
    Pow2Mono(e, len);
  }

  /** The second table: the endomorphism applied to every entry. */
  method LambdaTable<P(!new)>(c: Curve<P>, preA: seq<P>, a: P) returns (preALam: seq<P>)
    requires CurveLaws(c) && OddTable(c.group, preA, a)
    ensures |preALam| == |preA| && OddTable(c.group, preALam, c.mulLambda(a))
  {
    hide CurveLaws, Abelian, Mul;
    preALam := [];
    for i := 0 to |preA|
      invariant |preALam| == i
      invariant forall k :: 0 <= k < i ==> preALam[k] == Mul(c.group, 2 * k + 1, c.mulLambda(a))
    {
      preALam := preALam + [c.mulLambda(preA[i])];
      LambdaMultiple(c, 2 * i + 1, a);
    }
  }

  lemma LambdaMultiple<P(!new)>(c: Curve<P>, k: int, a: P)
    requires CurveLaws(c)
    ensures c.mulLambda(Mul(c.group, k, a)) == Mul(c.group, k, c.mulLambda(a))
  {
    hide *;
    Order(c, a);
    Order(c, Mul(c.group, k, a));
    MulMul(c.group, k, c.lambda, a);
    MulMul(c.group, c.lambda, k, a);
    assert k * c.lambda == c.lambda * k;
  }

  lemma AccumulatedAll<P(!new)>(c: Curve<P>, a: P, na: nat, ng: nat, d1: seq<int>, d2: seq<int>,
                                e1: seq<int>, e2: seq<int>, n1: nat, n2: nat)
    requires CurveLaws(c) && na < N && ng < N && Congruent(n1 + n2 * c.lambda, na, N)
    requires Congruent(ReadFrom(d1, 0), n1, N) && Congruent(ReadFrom(d2, 0), n2, N)
    requires ReadFrom(e1, 0) == Split128(ng).0 && ReadFrom(e2, 0) == Split128(ng).1
    ensures Accumulated(c, a, 0, d1, d2, e1, e2) == Lin(c.group, na, a, ng, c.gen)
  {
    SplitHalves(ng);
    hide ReadFrom, Lin, Mul, CurveLaws, Split128;
    Reflexive(ng, N);
    hide Congruent;
    CoefficientsMatch(c, a, na, ng, HALF, ReadFrom(d1, 0), ReadFrom(d2, 0), ReadFrom(e1, 0), ReadFrom(e2, 0), n1, n2);
  }

  /** The doubling loop of secp256k1_ecmult over four recoded scalars. */
  method StraussLoop<P(!new)>(c: Curve<P>, ctx: Context<P>, a: P, preA: seq<P>, preALam: seq<P>,
                              d1: seq<int>, bitsNa1: nat, d2: seq<int>, bitsNaLam: nat,
                              e1: seq<int>, bitsNg1: nat, e2: seq<int>, bitsNg128: nat)
    returns (r: P)
    requires CurveLaws(c) && ContextTables(c, ctx)
    requires |preA| == TableSize(WINDOW_A) && OddTable(c.group, preA, a)
    requires |preALam| == TableSize(WINDOW_A) && OddTable(c.group, preALam, c.mulLambda(a))
    requires IsWnaf(d1, WINDOW_A, bitsNa1) && IsWnaf(d2, WINDOW_A, bitsNaLam)
    requires IsWnaf(e1, WINDOW_G, bitsNg1) && IsWnaf(e2, WINDOW_G, bitsNg128)
    ensures r == Accumulated(c, a, 0, d1, d2, e1, e2)
  {
    hide CurveLaws, Abelian, Mul, OddTable, IsWnaf, ReadFrom, Accumulated, TableSize, DigitAt;
    var g := c.group;
    Order(c, a);
    var bits: int := bitsNa1;
    if bitsNaLam > bits {
      bits := bitsNaLam;
    }
    if bitsNg1 > bits {
      bits := bitsNg1;
    }
    if bitsNg128 > bits {
      bits := bitsNg128;
    }
    ReadStep(d1, WINDOW_A, bitsNa1, bits);
    ReadStep(d2, WINDOW_A, bitsNaLam, bits);
    ReadStep(e1, WINDOW_G, bitsNg1, bits);
    ReadStep(e2, WINDOW_G, bitsNg128, bits);
    AccumulatedTop(c, a, bits, d1, d2, e1, e2);
    r := g.zero;
    var i := bits - 1;
    while i >= 0
      invariant -1 <= i < bits
      invariant r == Accumulated(c, a, i + 1, d1, d2, e1, e2)
    {
      r := g.add(r, r);
      r := AddDigit(g, r, d1, bitsNa1, i, WINDOW_A, preA, a);
      r := AddDigit(g, r, d2, bitsNaLam, i, WINDOW_A, preALam, c.mulLambda(a));
      r := AddDigit(g, r, e1, bitsNg1, i, WINDOW_G, ctx.preG, c.gen);
      r := AddDigit(g, r, e2, bitsNg128, i, WINDOW_G, ctx.preG128, Mul(g, HALF, c.gen));
      ReadStep(d1, WINDOW_A, bitsNa1, i);
      ReadStep(d2, WINDOW_A, bitsNaLam, i);
      ReadStep(e1, WINDOW_G, bitsNg1, i);
      ReadStep(e2, WINDOW_G, bitsNg128, i);
      AccumulatedStep(c, a, i, d1, d2, e1, e2, DigitAt(d1, bitsNa1, i), DigitAt(d2, bitsNaLam, i),
                      DigitAt(e1, bitsNg1, i), DigitAt(e2, bitsNg128, i));
      i := i - 1;
    }
  }

  /** secp256k1_ecmult: for every point and pair of scalars, na*a + ng*G. */
  method Ecmult<P(!new)>(c: Curve<P>, ctx: Context<P>, a: P, na: nat, ng: nat)
    returns (r: P)
    requires CurveLaws(c) && ContextTables(c, ctx)
    requires a != c.group.zero && na < N && ng < N
    ensures r == Lin(c.group, na, a, ng, c.gen)
  {
    hide CurveLaws, ContextTables, Abelian, Lin, Mul, OddTable, IsWnaf, ReadFrom, Accumulated;
    hide SplitLambda, Small, Congruent, Signed, Split128, TableSize;
    Order(c, a);
    var (na1, naLam) := SplitLambda(na);
    SplitFor(c, na);
    var wnafNa1, bitsNa1 := RecodeSmall(130, na1, WINDOW_A);
    var wnafNaLam, bitsNaLam := RecodeSmall(130, naLam, WINDOW_A);

    var preA := new P[TableSize(WINDOW_A)](_ => a);
    OddMultiplesTable(c.group, preA, a);
    var preALam := LambdaTable(c, preA[..], a);

    var (ng1, ng128) := Split128(ng);
    SplitHalves(ng);
    var wnafNg1, bitsNg1 := RecodeSmall(129, ng1, WINDOW_G);
    var wnafNg128, bitsNg128 := RecodeSmall(129, ng128, WINDOW_G);

    r := StraussLoop(c, ctx, a, preA[..], preALam, wnafNa1, bitsNa1, wnafNaLam, bitsNaLam,
                     wnafNg1, bitsNg1, wnafNg128, bitsNg128);
    AccumulatedAll(c, a, na, ng, wnafNa1, wnafNaLam, wnafNg1, wnafNg128, na1, naLam);
  }
}
