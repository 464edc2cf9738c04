/** ECDSA signing and verification (libsecp256k1/src/ecdsa_impl.h), after sections 4.1.3 and 4.1.4 of SEC 1. */
module Ecdsa {
  import opened Arithmetic
  import opened Groups
  import opened Scalars
  import opened Secp256k1
  import opened Primes
  import opened FieldPrime
  import opened ScalarInverse
  import opened Ecmult
  import opened EcmultGen

  /** Affine coordinates of a point, and the Jacobian pair (X, Z) it happens to be held in. */
  datatype Coords<!P> = Coords(x: P -> int, yOdd: P -> bool, jacobian: P -> (int, int))

  /** Negation keeps x and flips the parity of y; X = x*Z^2 with Z invertible. */
  ghost predicate CoordLaws<P(!new)>(g: Group<P>, co: Coords<P>)
  {
    forall p: P {:trigger Pt(p)} :: p != g.zero ==>
      && 0 <= co.x(p) < FIELD_P
      && co.x(g.neg(p)) == co.x(p) && co.yOdd(g.neg(p)) == !co.yOdd(p)
      && Represents(co.x(p), co.jacobian(p), FIELD_P)
  }

  ghost predicate Represents(x: int, j: (int, int), p: int)
  {
    Congruent(x * (j.1 * j.1), j.0, p) && !Congruent(j.1, 0, p)
  }

  /** secp256k1_gej_eq_x_var: compare x with X/Z^2 modulo p without dividing. */
  predicate EqX(x: int, j: (int, int), p: int)
    requires p > 0
  {
    (x * (j.1 * j.1)) % p == j.0 % p
  }

  /** The inversion-free test decides equality of the affine coordinate. */
  lemma EqXDecides(x: int, px: int, j: (int, int), p: int)
    requires Prime(p) && 0 <= x < p && 0 <= px < p && Represents(px, j, p)
    ensures EqX(x, j, p) <==> x == px
  {
    var zz := j.1 * j.1;
    CongruentIffMod(x * zz, j.0, p);
    hide Congruent, Prime;
    if Congruent(x * zz, j.0, p) {
      if Congruent(zz, 0, p) { ZeroProduct(j.1, j.1, p); }
      SameQuotient(x, px, zz, j.0, p);
    }
  }

  lemma SameQuotient(x: int, y: int, zz: int, w: int, p: int)
    requires Prime(p) && 0 <= x < p && 0 <= y < p && !Congruent(zz, 0, p)
    requires Congruent(x * zz, w, p) && Congruent(y * zz, w, p)
    ensures x == y
  {
    hide Congruent, Prime;
    Symmetric(y * zz, w, p);
    Transitive(x * zz, w, y * zz, p);
    assert x * zz == zz * x && y * zz == zz * y;
    CancelFactor(x, y, zz, p);
    SmallResidues(x, y, p);
  }

  /** Inversion modulo n, at its contract. */
  ghost predicate Inverts(inv: nat -> nat)
  {
    forall a: nat {:trigger inv(a)} :: 0 < a < N ==> 0 < inv(a) < N && Congruent(a * inv(a), 1, N)
  }

  lemma PowerInverts()
    ensures Inverts(OrderPower)
  {
    hide OrderPower;
    forall a: nat | 0 < a < N ensures 0 < OrderPower(a) < N && Congruent(a * OrderPower(a), 1, N) {
      OrderPowerInverts(a);
    }
  }

  /** The point u1*G + u2*Q that verification recomputes. */
  ghost function VerifyPoint<P(!new)>(c: Curve<P>, inv: nat -> nat, r: nat, s: nat, q: P, m: nat): P
    requires 0 < s < N
  {
    Lin(c.group, ScalarMul(inv(s), r), q, ScalarMul(inv(s), m), c.gen)
  }

  /** Verification as the standard states it: the recomputed point's x, reduced modulo n, is r. */
  ghost predicate Accepts<P(!new)>(c: Curve<P>, co: Coords<P>, inv: nat -> nat, r: nat, s: nat, q: P, m: nat)
    requires r < N && s < N
  {
    && r != 0 && s != 0
    && var pr := VerifyPoint(c, inv, r, s, q, m);
       pr != c.group.zero && co.x(pr) % N == r
  }

  lemma CoordsAt<P(!new)>(g: Group<P>, co: Coords<P>, p: P)
    requires CoordLaws(g, co) && p != g.zero
    ensures 0 <= co.x(p) < FIELD_P && Represents(co.x(p), co.jacobian(p), FIELD_P)
    ensures co.x(g.neg(p)) == co.x(p) && co.yOdd(g.neg(p)) == !co.yOdd(p)
  {
    assert Pt(p);
  }

  /** Two candidates for x cover every x below p that reduces to r modulo n. */
  lemma TwoCases(r: int, x: int)
    requires 0 < r < N && 0 <= x < FIELD_P
    ensures x % N == r <==> x == r || (r < P_MINUS_ORDER && x == r + N)
  {}

  /** secp256k1_ecdsa_sig_verify. */
  method SigVerify<P(!new, ==)>(c: Curve<P>, ctx: Context<P>, co: Coords<P>,
                            sigr: nat, sigs: nat, pubkey: P, message: nat) returns (ok: bool)
    requires CurveLaws(c) && ContextTables(c, ctx)
    requires CoordLaws(c.group, co)
    requires sigr < N && sigs < N && message < N && pubkey != c.group.zero
    ensures ok <==> Accepts(c, co, OrderPower, sigr, sigs, pubkey, message)
  {
    hide CurveLaws, ContextTables, CoordLaws, Lin, Represents, EqX, ScalarMul, Prime, OrderPower;
    if sigr == 0 || sigs == 0 {
      return false;
    }
    var sn := Inverse(sigs);
    var u1 := ScalarMul(sn, message);
    var u2 := ScalarMul(sn, sigr);
    var pr := Ecmult.Ecmult(c, ctx, pubkey, u2, u1);
    if pr == c.group.zero {
      return false;
    }
    FieldPrimeIsPrime();
    CoordsAt(c.group, co, pr);
    TwoCases(sigr, co.x(pr));
    var xr := sigr;
    EqXDecides(xr, co.x(pr), co.jacobian(pr), FIELD_P);
    if EqX(xr, co.jacobian(pr), FIELD_P) {
      return true;
    }
    if xr >= P_MINUS_ORDER {
      return false;
    }
    xr := xr + N;
    EqXDecides(xr, co.x(pr), co.jacobian(pr), FIELD_P);
    ok := EqX(xr, co.jacobian(pr), FIELD_P);
  }

  /** k^-1 (r d + m), before any reduction. */
  ghost function SignTerm(kn: nat, r: nat, d: nat, m: nat): nat
  {
    kn * (r * d + m)
  }

  /** With s = e * k^-1 (r d + m) for a sign e, inverting s recovers e*k as the multiplier of G. */
  lemma RecoveredScalar(inv: nat -> nat, k: nat, d: nat, m: nat, r: nat, s0: nat, s: nat, e: int)
    requires Inverts(inv) && 0 < k < N && 0 < s < N && (e == 1 || e == -1)
    requires Congruent(s0, SignTerm(inv(k), r, d, m), N) && Congruent(s, e * s0, N)
    ensures Congruent(ScalarMul(inv(s), r) * d + ScalarMul(inv(s), m), e * k, N)
  {
    var t, sn, kn := r * d + m, inv(s), inv(k);
    assert Congruent(s * sn, 1, N) && Congruent(k * kn, 1, N);
    hide Congruent, Inverts, ScalarMul;
    var u2, u1 := ScalarMul(sn, r), ScalarMul(sn, m);
    TermOf(sn, r, d, m);
    // t = k * s0, and s0 = e * s
    NonceOut(k, kn, s0, t);
    SignOut(e, s, s0);
    CongruentScale(sn, k * s0, t, N);
    CongruentScale(k, e * s, s0, N);
    CongruentScale(sn, k * (e * s), k * s0, N);
    CongruentScale(e * k, s * sn, 1, N);
    Shuffle(sn, k, e, s);
    Chain(sn * (k * (e * s)), sn * (k * s0), sn * t);
    Symmetric(sn * (k * (e * s)), sn * t, N);
    Chain(sn * t, (e * k) * (s * sn), e * k);
    Chain(u2 * d + u1, sn * t, e * k);
  }

  lemma TermOf(sn: nat, r: nat, d: nat, m: nat)
    ensures Congruent(ScalarMul(sn, r) * d + ScalarMul(sn, m), sn * (r * d + m), N)
  {
    hide Congruent, ScalarMul;
    var u2, u1 := ScalarMul(sn, r), ScalarMul(sn, m);
    CongruentScale(d, u2, sn * r, N);
    CongruentAdd(d * u2, d * (sn * r), u1, sn * m, N);
    SumOut(sn, r, d, m);
    assert d * u2 == u2 * d;
  }

  lemma NonceOut(k: nat, kn: nat, s0: int, t: int)
    requires Congruent(k * kn, 1, N) && Congruent(s0, kn * t, N)
    ensures Congruent(k * s0, t, N)
  {
    hide Congruent;
    CongruentScale(k, s0, kn * t, N);
    CongruentScale(t, k * kn, 1, N);
    Triple(k, kn, t);
    Chain(k * s0, t * (k * kn), t);
  }

  lemma SignOut(e: int, s: int, s0: int)
    requires (e == 1 || e == -1) && Congruent(s, e * s0, N)
    ensures Congruent(e * s, s0, N)
  {
    CongruentScale(e, s, e * s0, N);
    Twice(e, s0);
  }

  lemma Chain(a: int, b: int, c: int)
    requires Congruent(a, b, N) && Congruent(b, c, N)
    ensures Congruent(a, c, N) && Congruent(c, a, N)
  {
    Transitive(a, b, c, N);
    Symmetric(a, c, N);
  }

  lemma SumOut(x: int, r: int, d: int, m: int)
    ensures d * (x * r) + x * m == x * (r * d + m)
  {
    assert d * (x * r) == x * (r * d);
  }

  lemma Triple(a: int, b: int, c: int)
    ensures a * (b * c) == c * (a * b)
  {}

  lemma Twice(e: int, s: int)
    requires e == 1 || e == -1
    ensures e * (e * s) == s
  {}

  lemma Shuffle(a: int, k: int, e: int, s: int)
    ensures a * (k * (e * s)) == (e * k) * (s * a)
  {
    calc {
      a * (k * (e * s));
      a * ((k * e) * s);
      (k * e) * (s * a);
    }
  }

  /** The recovery id names the recomputed point: bit 1 says x exceeded n, bit 0 that y is odd. */
  ghost predicate Recovers<P(!new)>(c: Curve<P>, co: Coords<P>, inv: nat -> nat, r: nat, s: nat, q: P, m: nat, recid: nat)
    requires r < N && 0 < s < N
  {
    var pr := VerifyPoint(c, inv, r, s, q, m);
    co.x(pr) == r + (if recid >= 2 then N else 0) && co.yOdd(pr) == (recid % 2 == 1)
  }

  /** Verification recomputes the nonce point, negated exactly when s was. */
  lemma Recomputed<P(!new)>(c: Curve<P>, inv: nat -> nat, k: int, d: nat, m: nat, r: nat, s0: nat, s: nat, e: int)
    requires CurveLaws(c) && Inverts(inv) && 0 < k < N && 0 < s < N && (e == 1 || e == -1)
    requires Congruent(s0, SignTerm(inv(k), r, d, m), N) && Congruent(s, e * s0, N)
    ensures var rp := Mul(c.group, k, c.gen);
            VerifyPoint(c, inv, r, s, Mul(c.group, d, c.gen), m) == if e == 1 then rp else c.group.neg(rp)
  {
    hide CurveLaws, Mul, Abelian, Congruent, Inverts, ScalarMul, SignTerm;
    var g, u1, u2 := c.group, ScalarMul(inv(s), m), ScalarMul(inv(s), r);
    Order(c, c.gen);
    RecoveredScalar(inv, k, d, m, r, s0, s, e);
    MulMul(g, u2, d, c.gen);
    MulAdd(g, u2 * d, u1, c.gen);
    MulCongruent(g, N, u2 * d + u1, e * k, c.gen);
    MulNeg(g, k, c.gen);
  }

  /** Whatever is signed with a non-zero r is accepted, and the recovery id is right. */
  lemma SignedIsAccepted<P(!new)>(c: Curve<P>, co: Coords<P>, inv: nat -> nat, k: int, d: nat, m: nat,
                                  r: nat, s0: nat, s: nat, e: int, recid: nat)
    requires CurveLaws(c) && CoordLaws(c.group, co) && Inverts(inv)
    requires 0 < k < N && 0 < s < N && 0 < r < N && (e == 1 || e == -1)
    requires var rp := Mul(c.group, k, c.gen);
             && co.x(rp) == r + (if recid >= 2 then N else 0)
             && (recid % 2 == 1) == (if e == 1 then co.yOdd(rp) else !co.yOdd(rp))
    requires Congruent(s0, SignTerm(inv(k), r, d, m), N) && Congruent(s, e * s0, N)
    ensures Accepts(c, co, inv, r, s, Mul(c.group, d, c.gen), m)
    ensures Recovers(c, co, inv, r, s, Mul(c.group, d, c.gen), m, recid)
  {
    hide CurveLaws, CoordLaws, Mul, Represents, Abelian, Congruent, Inverts, ScalarMul, VerifyPoint, SignTerm;
    Order(c, c.gen);
    Recomputed(c, inv, k, d, m, r, s0, s, e);
    GeneratorMultiple(c, k) by { ModSmall(k, N); }
    var rp := Mul(c.group, k, c.gen);
    CoordsAt(c.group, co, rp);
    NegZero(c.group, rp);
  }

  lemma NegZero<P(!new)>(g: Group<P>, p: P)
    requires Abelian(g) && p != g.zero
    ensures g.neg(p) != g.zero
  {
    NegNeg(g, p);
  }

  /** secp256k1_ecdsa_sig_sign: what it returns with success and a non-zero r is accepted, with a low s. */
  method SigSign<P(!new)>(ctx: GenContext<P>, co: Coords<P>, seckey: nat, message: nat, nonce: nat)
    returns (ok: bool, sigr: nat, sigs: nat, recid: nat)
    requires ctx.Valid() && CoordLaws(ctx.curve.group, co)
    requires seckey < N && message < N && 0 < nonce < N
    ensures sigr < N && sigs < N && sigs <= N / 2 && (ok <==> sigs != 0)
    ensures sigr == co.x(Mul(ctx.curve.group, nonce, ctx.curve.gen)) % N
    ensures ok <==> !Congruent(SignTerm(OrderPower(nonce), sigr, seckey, message), 0, N)
    ensures ok && sigr != 0 ==>
              Accepts(ctx.curve, co, OrderPower, sigr, sigs, Mul(ctx.curve.group, seckey, ctx.curve.gen), message)
    ensures ok && sigr != 0 ==>
              Recovers(ctx.curve, co, OrderPower, sigr, sigs, Mul(ctx.curve.group, seckey, ctx.curve.gen), message, recid)
  {
    ghost var c := ctx.curve;
    hide OrderPower, CurveLaws, CoordLaws, Mul, Represents, TableOk, Accepts, Recovers, Inverts, Congruent;
    hide NegateScalar, RecId, NonceProduct, SignTerm;
    var rp := ctx.EcmultGen(nonce);
    GeneratorMultiple(c, nonce) by { ModSmall(nonce, N); }
    CoordsAt(c.group, co, rp);
    var x := co.x(rp);
    var overflow := x >= N;
    ReduceOnce(x);
    sigr := x % N;
    recid := RecId(overflow, co.yOdd(rp));
    var kn := Inverse(nonce);
    sigs := NonceProduct(kn, sigr, seckey, message);
    ghost var s0, e := sigs, 1;
    SignFlip(s0);
    if sigs == 0 {
      return false, sigr, sigs, recid;
    }
    if sigs > N / 2 {
      sigs := NegateScalar(sigs);
      recid := RecId(overflow, !co.yOdd(rp));
      e := -1;
    }
    ok := true;
    if sigr != 0 {
      PowerInverts();
      SignedIsAccepted(c, co, OrderPower, nonce, seckey, message, sigr, s0, sigs, e, recid);
    }
  }

  lemma SignFlip(s: nat)
    requires s < N
    ensures Congruent(s, 1 * s, N) && Congruent(NegateScalar(s), -1 * s, N)
    ensures s > N / 2 ==> 0 < NegateScalar(s) <= N / 2
  {
    Reflexive(s, N);
    CongruentByWitness(NegateScalar(s), -1 * s, N, if s == 0 then 0 else 1);
  }

  lemma ReduceOnce(x: int)
    requires 0 <= x < FIELD_P
    ensures x == x % N + if x >= N then N else 0
  {}

  /** Bit 1 records that x was at least n, bit 0 the parity of y; flipping bit 0 negates y. */
  function RecId(overflow: bool, odd: bool): (r: nat)
    ensures r < 4 && (r >= 2 <==> overflow) && (r % 2 == 1 <==> odd)
  {
    (if overflow then 2 else 0) + (if odd then 1 else 0)
  }

  /** k^-1 (r d + m), reduced after every scalar operation. */
  function NonceProduct(kn: nat, r: nat, d: nat, m: nat): (s: nat)
    ensures s < N && Congruent(s, SignTerm(kn, r, d, m), N)
    ensures s == 0 <==> Congruent(SignTerm(kn, r, d, m), 0, N)
  {
    var n := ScalarAdd(ScalarMul(r, d), m);
    ProductResidue(kn, r, d, m);
    ZeroResidue(ScalarMul(kn, n), SignTerm(kn, r, d, m));
    ScalarMul(kn, n)
  }

  lemma ZeroResidue(s: nat, t: int)
    requires s < N && Congruent(s, t, N)
    ensures s == 0 <==> Congruent(t, 0, N)
  {
    SameClass(s, t, 0, N);
    Reflexive(0, N);
    hide Congruent;
    if Congruent(s, 0, N) { SmallResidues(s, 0, N); }
  }

  lemma ProductResidue(kn: nat, r: nat, d: nat, m: nat)
    ensures Congruent(ScalarMul(kn, ScalarAdd(ScalarMul(r, d), m)), SignTerm(kn, r, d, m), N)
  {
    hide Congruent, ScalarMul, ScalarAdd;
    var u := ScalarMul(r, d);
    var t := ScalarAdd(u, m);
    Reflexive(m, N);
    CongruentAdd(u, r * d, m, m, N);
    Chain(t, u + m, r * d + m);
    CongruentScale(kn, t, r * d + m, N);
    Chain(ScalarMul(kn, t), kn * t, kn * (r * d + m));
  }
}
