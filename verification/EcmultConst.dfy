/** Constant-time recoding and multiplication (libsecp256k1/src/ecmult_const_impl.h). */
module EcmultConst {
  import opened Arithmetic
  import opened Digits
  import opened Groups
  import opened Scalars
  import opened Secp256k1
  import opened LambdaSplit
  import opened Ecmult

  const WNAF_BITS: nat := 128

  function WnafSize(w: nat): (r: nat)
    requires w > 0
  {
    (WNAF_BITS + w - 1) / w
  }

  /** secp256k1_scalar_is_high. */
  predicate IsHigh(s: nat) { s > N / 2 }

  /** Every digit is odd, hence non-zero, and lies strictly between -2^w and 2^w. */
  predicate IsConstDigit(x: int, w: nat)
  {
    x % 2 == 1 && -x < Pow2(w) && x < Pow2(w)
  }

  /** The odd number that is recoded, the sign it stands for and the skew it adds. */
  datatype Skewed = Skewed(s: nat, sign: int, skew: int)

  /** The preparation before step 4 of secp256k1_wnaf_const. */
  function Skew(s0: nat): (r: Skewed)
    requires s0 < N
    ensures r.s % 2 == 1 && 0 < r.s < N && (r.sign == 1 || r.sign == -1)
    ensures r.skew == 1 || r.skew == 2
    ensures Congruent(r.sign * r.s, s0 + r.skew, N)
    ensures r.s <= (if IsHigh(s0) then N - s0 else s0) + 2
  {
    var flip := IsHigh(s0);
    var bit := if flip != (s0 % 2 == 1) then 1 else 0;
    var notNegOne := NegateScalar(s0) != 1;
    var s1 := if notNegOne then s0 + (if bit == 1 then 2 else 1) else s0;
    var s2 := if flip then NegateScalar(s1) else s1;
    var sign := (if flip then -1 else 1) * (if notNegOne then 1 else -1);
    var t := s0 + (if bit == 1 then 2 else 1);
    CongruentByWitness(t, t, N, 0);
    CongruentByWitness(t - N, t, N, -1);
    Skewed(s2, sign, if bit == 1 then 2 else 1)
  }

  /** secp256k1_scalar_shr_int: the low w bits, and the rest shifted down. */
  function ShrInt(s: nat, w: nat): (r: (nat, nat))
    ensures r.0 == s % Pow2(w) && r.1 == s / Pow2(w)
  {
    DivNonNeg(s, Pow2(w));
    (s % Pow2(w), s / Pow2(w))
  }

  /** Digits ..word are final, u is the odd digit in hand, s the part not yet read. */
  ghost predicate PartlyRecoded(d: seq<int>, s0: nat, w: nat, sign: int, word: nat, u: int, s: nat)
  {
    && word <= |d| && (sign == 1 || sign == -1)
    && (forall i :: 0 <= i < word ==> IsConstDigit(d[i], w))
    && u % 2 == 1 && -1 <= u < Pow2(w)
    && s == s0 / Weight(w, word + 1)
    && sign * Low(d, w, word) + u * Weight(w, word) + s * Weight(w, word + 1) == s0
  }

  lemma StartRecoding(d: seq<int>, s0: nat, w: nat, sign: int)
    requires w > 0 && s0 % 2 == 1 && (sign == 1 || sign == -1)
    ensures PartlyRecoded(d, s0, w, sign, 0, ShrInt(s0, w).0, ShrInt(s0, w).1)
  {
    var p := Pow2(w);
    assert p == 2 * Pow2(w - 1);
    ParityOfMod(s0, Pow2(w - 1));
    assert Weight(w, 1) == p * Weight(w, 0);
    hide Pow2, Weight;
    assert s0 == (s0 / p) * p + s0 % p;
  }

  /** Making the next digit odd moves 2^w between the two digits in hand. */
  lemma RecodeNext(d: seq<int>, d': seq<int>, s0: nat, w: nat, sign: int, word: nat,
                   uLast: int, s: nat, u: int, rest: nat, adjust: int)
    requires w > 0 && word < |d| && PartlyRecoded(d, s0, w, sign, word, uLast, s)
    requires u == s % Pow2(w) && rest == s / Pow2(w)
    requires adjust == if u % 2 != 0 then 0 else if uLast > 0 then 1 else -1
    requires d' == d[word := (uLast - adjust * Pow2(w)) * sign]
    ensures PartlyRecoded(d', s0, w, sign, word + 1, u + adjust, rest)
  {
    NextDigit(w, uLast, u, adjust, sign);
    NextRest(s0, w, word);
    NextValue(d, d', s0, w, sign, word, uLast, s, u, adjust);
    hide Pow2, Weight, Low;
  }

  lemma NextRest(s0: nat, w: nat, word: nat)
    ensures (s0 / Weight(w, word + 1)) / Pow2(w) == s0 / Weight(w, word + 2)
  {
    ModOfProduct(s0, Weight(w, word + 1), Pow2(w));
    assert Weight(w, word + 2) == Pow2(w) * Weight(w, word + 1);
    hide *;
  }

  lemma NextValue(d: seq<int>, d': seq<int>, s0: nat, w: nat, sign: int, word: nat,
                  uLast: int, s: nat, u: int, adjust: int)
    requires w > 0 && word < |d| && (sign == 1 || sign == -1) && u == s % Pow2(w)
    requires sign * Low(d, w, word) + uLast * Weight(w, word) + s * Weight(w, word + 1) == s0
    requires d' == d[word := (uLast - adjust * Pow2(w)) * sign]
    ensures sign * Low(d', w, word + 1) + (u + adjust) * Weight(w, word + 1) + (s / Pow2(w)) * Weight(w, word + 2) == s0
  {
    var p, q, low := Weight(w, word), Pow2(w), Low(d, w, word);
    LowAgree(d, d', w, word);
    assert Low(d', w, word + 1) == low + ((uLast - adjust * q) * sign) * p;
    assert Weight(w, word + 1) == q * p && Weight(w, word + 2) == q * (q * p);
    hide *;
    assert s == (s / q) * q + u;
    MoveCarry(sign, low, uLast, u, adjust, s / q, p, q);
  }

  lemma NextDigit(w: nat, uLast: int, u: int, adjust: int, sign: int)
    requires w > 0 && (sign == 1 || sign == -1)
    requires uLast % 2 == 1 && -1 <= uLast < Pow2(w) && 0 <= u < Pow2(w)
    requires adjust == if u % 2 != 0 then 0 else if uLast > 0 then 1 else -1
    ensures IsConstDigit((uLast - adjust * Pow2(w)) * sign, w)
    ensures (u + adjust) % 2 == 1 && -1 <= u + adjust < Pow2(w)
  {
    var h := Pow2(w - 1);
    assert Pow2(w) == 2 * h;
    hide Pow2;
    OddDigit(uLast, h, adjust);
    OddSign(uLast - adjust * (2 * h), sign);
  }

  lemma OddDigit(u: int, h: int, adjust: int)
    requires h > 0 && u % 2 == 1 && -1 <= u < 2 * h
    requires adjust == 0 || adjust == (if u > 0 then 1 else -1)
    ensures var x := u - adjust * (2 * h); x % 2 == 1 && -x < 2 * h && x < 2 * h
  {
    if adjust == 1 {
      assert u - 2 * h == 2 * (u / 2 - h) + 1;
    } else if adjust == -1 {
      assert u + 2 * h == 2 * (u / 2 + h) + 1;
    }
  }

  lemma OddSign(x: int, sign: int)
    requires x % 2 == 1 && (sign == 1 || sign == -1)
    ensures x * sign == (if sign == 1 then x else -x) && (x * sign) % 2 == 1
  {}

  lemma MoveCarry(sign: int, low: int, uLast: int, u: int, adjust: int, t: int, p: int, q: int)
    requires sign == 1 || sign == -1
    ensures sign * (low + ((uLast - adjust * q) * sign) * p) + (u + adjust) * (q * p) + t * (q * (q * p))
            == sign * low + uLast * p + (t * q + u) * (q * p)
  {
    assert ((uLast - adjust * q) * sign) * p == sign * (uLast * p - adjust * (q * p));
    assert t * (q * (q * p)) == (t * q) * (q * p);
  }

  /** What the digits miss of the number recoded is the part not read. */
  lemma FinishRecoding(d: seq<int>, d': seq<int>, s0: nat, w: nat, sign: int, word: nat, u: int, s: nat)
    requires w > 0 && word + 1 == |d| && (sign == 1 || sign == -1) && d' == d[word := u * sign]
    requires sign * Low(d, w, word) + u * Weight(w, word) + s * Weight(w, word + 1) == s0
    ensures Horner(d', w, 0) == sign * (s0 - s * Weight(w, word + 1))
  {
    LowAgree(d, d', w, word);
    LowIsValue(d', w);
    var low, p, q := Low(d, w, word), Weight(w, word), Weight(w, word + 1);
    assert Low(d', w, word + 1) == low + (u * sign) * p;
    assert Horner(d', w, 0) == low + (u * sign) * p;
    hide *;
    SignedValue(sign, low, u, p, s0 - s * q);
  }

  lemma SignedValue(sign: int, low: int, u: int, p: int, v: int)
    requires (sign == 1 || sign == -1) && sign * low + u * p == v
    ensures low + (u * sign) * p == sign * v
  {
    if sign == -1 { assert (u * sign) * p == -(u * p); }
  }

  /** Missing a multiple s * q of the digits' range is noticed modulo n exactly when there is any. */
  lemma MissingPart(h: int, sign: int, s0: nat, s: nat, q: nat, v: int)
    requires (sign == 1 || sign == -1) && q > 0 && s == s0 / q && s0 < N
    requires h == sign * (s0 - s * q) && Congruent(sign * s0, v, N)
    ensures Congruent(h, v, N) <==> s0 < q
  {
    assert s0 == s * q + s0 % q;
    hide Congruent;
    if s0 < q { DivModUnique(s0, q, 0, s0); }
    if Congruent(h, v, N) {
      Symmetric(sign * s0, v, N);
      Transitive(h, v, sign * s0, N);
      NothingMissing(h, sign, s0, s * q);
    }
  }

  lemma NothingMissing(h: int, sign: int, s0: int, m: int)
    requires (sign == 1 || sign == -1) && h == sign * (s0 - m) && 0 <= m < N && Congruent(h, sign * s0, N)
    ensures m == 0
  {
    Symmetric(h, sign * s0, N);
    var k := CongruentWitness(sign * s0, h, N);
    CongruentByWitness(m, 0, N, sign * k);
    SmallResidues(m, 0, N);
  }

  /** The final digit is odd and in range whether or not anything is left to read. */
  lemma FinalDigit(w: nat, u: int, sign: int)
    requires w > 0 && (sign == 1 || sign == -1) && u % 2 == 1 && -1 <= u < Pow2(w)
    ensures IsConstDigit(u * sign, w)
  {
    assert Pow2(w) == 2 * Pow2(w - 1);
  }

  /** secp256k1_wnaf_const. */
  method WnafConst(wnaf: array<int>, s0: nat, w: nat) returns (skew: int)
    requires s0 < N && 0 < w < 16 && wnaf.Length == WnafSize(w) + 1
    modifies wnaf
    ensures skew == 1 || skew == 2
    ensures forall i :: 0 <= i < wnaf.Length ==> IsConstDigit(wnaf[i], w)
    ensures skew == Skew(s0).skew
    ensures Congruent(Horner(wnaf[..], w, 0), s0 + skew, N) <==> Skew(s0).s < Weight(w, wnaf.Length)
  {
    hide PartlyRecoded, IsConstDigit, Pow2, Skew, Weight, Horner, Congruent, ShrInt, WnafSize;
    var prep := Skew(s0);
    var globalSign := prep.sign;
    skew := prep.skew;
    var s := prep.s;
    var word := 0;
    StartRecoding(wnaf[..], s, w, globalSign);
    var shifted := ShrInt(s, w);
    var uLast: int := shifted.0;
    s := shifted.1;
    var u := uLast;
    LoopCount(w);
    while word * w < WNAF_BITS
      invariant 0 <= word < wnaf.Length && s >= 0
      invariant word * w < WNAF_BITS ==> word + 1 < wnaf.Length
      invariant word * w >= WNAF_BITS ==> word + 1 == wnaf.Length
      invariant u == uLast
      invariant PartlyRecoded(wnaf[..], prep.s, w, globalSign, word, uLast, s)
      decreases wnaf.Length - word
    {
      ghost var d, uPrev, sPrev := wnaf[..], uLast, s;
      shifted := ShrInt(s, w);
      u := shifted.0;
      ghost var uRead := u;
      s := shifted.1;
      var sign := if uLast > 0 then 1 else -1;
      var adjust := if u % 2 == 0 then sign else 0;
      u := u + adjust;
      uLast := uLast - adjust * Pow2(w);
      wnaf[word] := uLast * globalSign;
      RecodeNext(d, wnaf[..], prep.s, w, globalSign, word, uPrev, sPrev, uRead, s, adjust);
      LoopStep(word, w);
      word := word + 1;
      uLast := u;
    }
    ghost var d := wnaf[..];
    wnaf[word] := u * globalSign;
    WrapUp(d, wnaf[..], s0, w, word, u, s);
  }

  lemma WrapUp(d: seq<int>, d': seq<int>, s0: nat, w: nat, word: nat, u: int, s: nat)
    requires s0 < N && w > 0 && word + 1 == |d| && PartlyRecoded(d, Skew(s0).s, w, Skew(s0).sign, word, u, s)
    requires d' == d[word := u * Skew(s0).sign]
    ensures forall i :: 0 <= i < |d'| ==> IsConstDigit(d'[i], w)
    ensures Congruent(Horner(d', w, 0), s0 + Skew(s0).skew, N) <==> Skew(s0).s < Weight(w, |d|)
  {
    hide Pow2, Skew, Weight, Low, Horner, Congruent;
    var sk := Skew(s0);
    FinalDigit(w, u, sk.sign);
    FinishRecoding(d, d', sk.s, w, sk.sign, word, u, s);
    MissingPart(Horner(d', w, 0), sk.sign, sk.s, s, Weight(w, |d|), s0 + sk.skew);
  }

  lemma LoopCount(w: nat)
    requires 0 < w < 16
    ensures WnafSize(w) > 0 && WnafSize(w) * w >= WNAF_BITS > (WnafSize(w) - 1) * w
  {
    var k := WnafSize(w);
    assert WNAF_BITS + w - 1 == k * w + (WNAF_BITS + w - 1) % w;
    assert (k - 1) * w == k * w - w;
  }

  /** The loop runs exactly WnafSize(w) times. */
  lemma LoopStep(word: nat, w: nat)
    requires 0 < w < 16 && word * w < WNAF_BITS
    ensures word < WnafSize(w)
    ensures (word + 1) * w < WNAF_BITS ==> word + 1 < WnafSize(w)
    ensures (word + 1) * w >= WNAF_BITS ==> word + 1 == WnafSize(w)
  {
    var k := WnafSize(w);
    LoopCount(w);
    if word >= k { MulMono(k, word, w); assert false; }
    if word + 1 < k { MulMono(word + 1, k - 1, w); }
  }

  const STEP: nat := WINDOW_A - 1

  /** ECMULT_CONST_TABLE_GET_GE: scan the whole table, keep the entry wanted, negate at the end. */
  method ConstTableGet<P(!new)>(g: Group<P>, pre: seq<P>, n: int, ghost p: P) returns (r: P)
    requires Abelian(g) && IsConstDigit(n, STEP)
    requires |pre| == TableSize(WINDOW_A) && OddTable(g, pre, p)
    ensures r == Mul(g, n, p)
  {
    hide Mul, Abelian;
    assert Pow2(STEP) == 16 && |pre| == 8;
    var absN := if n > 0 then n else -n;
    var idx := absN / 2;
    r := pre[0];
    for m := 0 to |pre|
      invariant m > idx ==> r == pre[idx]
    {
      if m == idx {
        r := pre[m];
      }
    }
    assert absN == 2 * idx + 1;
    if n != absN {
      MulNeg(g, absN, p);
      r := g.neg(r);
    }
  }

  /** Four doublings. */
  method DoubleStep<P(!new)>(g: Group<P>, r0: P, ghost x: int, ghost p: P) returns (r: P)
    requires Abelian(g) && r0 == Mul(g, x, p)
    ensures r == Mul(g, Pow2(STEP) * x, p)
  {
    hide Mul, Abelian;
    r := r0;
    for j := 0 to STEP
      invariant r == Mul(g, Pow2(j) * x, p)
    {
      MulAdd(g, Pow2(j) * x, Pow2(j) * x, p);
      assert Pow2(j) * x + Pow2(j) * x == Pow2(j + 1) * x;
      r := g.add(r, r);
    }
  }

  /** Adding one digit for each half of the scalar. */
  lemma AddDigits<P(!new)>(c: Curve<P>, x: int, a: P, d1: int, d2: int)
    requires CurveLaws(c)
    ensures var g := c.group;
            g.add(g.add(Mul(g, x, a), Mul(g, d1, a)), Mul(g, d2, c.mulLambda(a))) == Mul(g, x + d1 + d2 * c.lambda, a)
  {
    hide *;
    Order(c, a);
    MulAdd(c.group, x, d1, a);
    MulMul(c.group, d2, c.lambda, a);
    MulAdd(c.group, x + d1, d2 * c.lambda, a);
  }

  /** The correction subtracts the two skews. */
  lemma RemoveSkews<P(!new)>(c: Curve<P>, x: int, a: P, k1: int, k2: int)
    requires CurveLaws(c)
    ensures var g := c.group;
            g.add(g.add(Mul(g, x, a), g.neg(Mul(g, k1, a))), c.mulLambda(g.neg(Mul(g, k2, a))))
            == Mul(g, x - k1 - k2 * c.lambda, a)
  {
    hide *;
    var g := c.group;
    Order(c, a);
    Order(c, Mul(g, -k2, a));
    MulNeg(g, k1, a);
    MulNeg(g, k2, a);
    MulAdd(g, x, -k1, a);
    MulMul(g, c.lambda, -k2, a);
    assert c.lambda * -k2 == -(k2 * c.lambda);
    MulAdd(g, x - k1, -(k2 * c.lambda), a);
  }

  /** Skewing a scalar of at most 128 bits leaves room in 33 digits of four bits. */
  lemma SkewFits(s0: nat, size: nat)
    requires s0 < N && Small(s0) && size == 33
    ensures Skew(s0).s < Weight(STEP, size)
  {
    var e := 128;
    Pow2At128(e);
    WeightIsPow2(STEP, size);
    Pow2Mono(e + 1, STEP * size);
  }

  method RecodeConst(s: nat) returns (d: seq<int>, skew: int)
    requires s < N && Small(s)
    ensures |d| == 33 && (skew == 1 || skew == 2)
    ensures forall i :: 0 <= i < |d| ==> IsConstDigit(d[i], STEP)
    ensures Congruent(Horner(d, STEP, 0), s + skew, N)
  {
    hide Small, Congruent, Skew, IsConstDigit, Weight, Horner;
    var wnaf := new int[WnafSize(STEP) + 1];
    skew := WnafConst(wnaf, s, STEP);
    d := wnaf[..];
    SkewFits(s, wnaf.Length);
  }

  /** The value the two recodings read from place i up stand for. */
  ghost function PairValue(d: seq<int>, e: seq<int>, i: nat, k: int): int
    requires i <= |d| == |e|
  {
    Horner(d, STEP, i) + Horner(e, STEP, i) * k
  }

  /** The doubling loop, its first round taken out. */
  method ConstLoop<P(!new)>(c: Curve<P>, a: P, pre: seq<P>, preLam: seq<P>, wnaf1: seq<int>, wnafLam: seq<int>)
    returns (r: P)
    requires CurveLaws(c) && |wnaf1| == |wnafLam| == 33
    requires |pre| == TableSize(WINDOW_A) && OddTable(c.group, pre, a)
    requires |preLam| == TableSize(WINDOW_A) && OddTable(c.group, preLam, c.mulLambda(a))
    requires forall i :: 0 <= i < 33 ==> IsConstDigit(wnaf1[i], STEP) && IsConstDigit(wnafLam[i], STEP)
    ensures r == Mul(c.group, PairValue(wnaf1, wnafLam, 0, c.lambda), a)
  {
    hide CurveLaws, Abelian, Mul, OddTable, TableSize, IsConstDigit, PairValue, Pow2;
    var g := c.group;
    Order(c, a);
    var i := 32;
    r := ConstTableGet(g, pre, wnaf1[i], a);
    var t := ConstTableGet(g, preLam, wnafLam[i], c.mulLambda(a));
    r := g.add(r, t);
    AddFirst(c, a, wnaf1[i], wnafLam[i]);
    LastPair(wnaf1, wnafLam, i, c.lambda);
    i := i - 1;
    while i >= 0
      invariant -1 <= i < 32
      invariant r == Mul(g, PairValue(wnaf1, wnafLam, i + 1, c.lambda), a)
    {
      ghost var x := PairValue(wnaf1, wnafLam, i + 1, c.lambda);
      r := DoubleStep(g, r, x, a);
      t := ConstTableGet(g, pre, wnaf1[i], a);
      r := g.add(r, t);
      t := ConstTableGet(g, preLam, wnafLam[i], c.mulLambda(a));
      r := g.add(r, t);
      AddDigits(c, Pow2(STEP) * x, a, wnaf1[i], wnafLam[i]);
      HornerPair(wnaf1, wnafLam, i, c.lambda);
      i := i - 1;
    }
  }

  /** secp256k1_ecmult_const: the skewed recodings are corrected, leaving scalar*a. */
  method EcmultConst<P(!new)>(c: Curve<P>, a: P, scalar: nat) returns (r: P)
    requires CurveLaws(c) && a != c.group.zero && scalar < N
    ensures r == Mul(c.group, scalar, a)
  {
    hide CurveLaws, Abelian, Mul, SplitLambda, Small, Congruent, OddTable, TableSize, IsConstDigit, PairValue;
    var g := c.group;
    Order(c, a);
    var (q1, qLam) := SplitLambda(scalar);
    SplitFor(c, scalar);
    var wnaf1, skew1 := RecodeConst(q1);
    var wnafLam, skewLam := RecodeConst(qLam);

    var preA := new P[TableSize(WINDOW_A)](_ => a);
    OddMultiplesTable(g, preA, a);
    var preLam := LambdaTable(c, preA[..], a);
    r := ConstLoop(c, a, preA[..], preLam, wnaf1, wnafLam);

    MulOne(g, a);
    var a2 := g.add(a, a);
    var correction1 := if skew1 == 2 then a2 else a;
    var correctionLam := if skewLam == 2 then a2 else a;
    r := g.add(r, g.neg(correction1));
    r := g.add(r, c.mulLambda(g.neg(correctionLam)));
    ghost var x := PairValue(wnaf1, wnafLam, 0, c.lambda);
    RemoveSkews(c, x, a, skew1, skewLam);
    SkewsCancel(c.lambda, wnaf1, skew1, q1, wnafLam, skewLam, qLam, scalar);
    MulCongruent(g, N, x - skew1 - skewLam * c.lambda, scalar, a);
  }

  lemma AddFirst<P(!new)>(c: Curve<P>, a: P, d1: int, d2: int)
    requires CurveLaws(c)
    ensures c.group.add(Mul(c.group, d1, a), Mul(c.group, d2, c.mulLambda(a))) == Mul(c.group, d1 + d2 * c.lambda, a)
  {
    hide *;
    Order(c, a);
    MulMul(c.group, d2, c.lambda, a);
    MulAdd(c.group, d1, d2 * c.lambda, a);
  }

  lemma LastPair(d: seq<int>, e: seq<int>, i: nat, k: int)
    requires i + 1 == |d| == |e|
    ensures PairValue(d, e, i, k) == d[i] + e[i] * k
  {
    assert Horner(d, STEP, i + 1) == 0 && Horner(e, STEP, i + 1) == 0;
  }

  lemma HornerPair(d: seq<int>, e: seq<int>, i: nat, k: int)
    requires i < |d| == |e|
    ensures PairValue(d, e, i, k) == Pow2(STEP) * PairValue(d, e, i + 1, k) + d[i] + e[i] * k
  {
    var p, h, f := Pow2(STEP), Horner(d, STEP, i + 1), Horner(e, STEP, i + 1);
    assert Horner(d, STEP, i) == d[i] + p * h && Horner(e, STEP, i) == e[i] + p * f;
    hide Horner, Pow2;
    assert (e[i] + p * f) * k == e[i] * k + p * (f * k);
  }

  lemma SkewsCancel(k: int, d: seq<int>, s1: int, q1: nat, e: seq<int>, s2: int, q2: nat, q: nat)
    requires |d| == |e| && Congruent(Horner(d, STEP, 0), q1 + s1, N) && Congruent(Horner(e, STEP, 0), q2 + s2, N)
    requires Congruent(q1 + q2 * k, q, N)
    ensures Congruent(PairValue(d, e, 0, k) - s1 - s2 * k, q, N)
  {
    hide Horner, Congruent;
    var h1, h2 := Horner(d, STEP, 0), Horner(e, STEP, 0);
    Reflexive(s1, N);
    Reflexive(s2, N);
    CongruentAdd(h1, q1 + s1, s1, s1, N);
    CongruentAdd(h2, q2 + s2, s2, s2, N);
    SplitCongruent(k, h1 - s1, h2 - s2, q1, q2, q, N);
    assert (h2 - s2) * k == h2 * k - s2 * k;
  }
}
