/** The assumptions made about the curve hold of a group: the integers modulo n under addition. */
module CurveModel {
  import opened Arithmetic
  import opened Groups
  import opened Secp256k1
  import opened Primes
  import opened Ecmult
  import opened Ecdsa

  type Residue = x: int | 0 <= x < N

  function Plus(a: Residue, b: Residue): (r: Residue)
    ensures Congruent(r, a + b, N)
  {
    CongruentByWitness(a + b, a + b, N, 0);
    CongruentByWitness(a + b - N, a + b, N, -1);
    if a + b < N then a + b else a + b - N
  }

  function Minus(a: Residue): (r: Residue)
    ensures var x: int := a; Congruent(r, -x, N)
  {
    var x: int := a;
    CongruentByWitness(N - x, -x, N, 1);
    CongruentByWitness(-x, -x, N, 0);
    if a == 0 then 0 else N - a
  }

  function Residues(): (g: Group<Residue>)
  {
    Group(0, Plus, Minus)
  }

  lemma ResiduesAbelian()
    ensures Abelian(Residues())
  {
    var g := Residues();
    forall a: Residue ensures g.add(a, g.zero) == a && g.add(a, g.neg(a)) == g.zero {
      assert g.add(a, g.zero) == Plus(a, 0) && g.neg(a) == Minus(a) && g.add(a, Minus(a)) == Plus(a, Minus(a));
    }
    forall a: Residue, b: Residue ensures g.add(a, b) == g.add(b, a) {
      assert g.add(a, b) == Plus(a, b) && g.add(b, a) == Plus(b, a);
    }
    forall a: Residue, b: Residue, c: Residue ensures g.add(g.add(a, b), c) == g.add(a, g.add(b, c)) {
      assert g.add(g.add(a, b), c) == Plus(Plus(a, b), c) && g.add(a, g.add(b, c)) == Plus(a, Plus(b, c));
    }
  }

  lemma {:induction false} ResidueMultiple(k: int, p: Residue)
    ensures Congruent(Mul(Residues(), k, p), k * p, N)
    decreases if k < 0 then 1 - k else k
  {
    hide Congruent;
    if k > 0 {
      ResidueMultiple(k - 1, p);
      var m := Mul(Residues(), k - 1, p);
      assert (k - 1) * p + p == k * p;
      Steps(Plus(m, p), m, p, (k - 1) * p);
    } else if k < 0 {
      ResidueMultiple(-k, p);
      var m := Mul(Residues(), -k, p);
      assert -((-k) * p) == k * p;
      Opposite(Minus(m), m, (-k) * p);
    } else {
      assert 0 * p == 0;
      Reflexive(0, N);
    }
  }

  lemma Steps(r: int, m: int, p: int, v: int)
    requires Congruent(r, m + p, N) && Congruent(m, v, N)
    ensures Congruent(r, v + p, N)
  {
    Reflexive(p, N);
    CongruentAdd(m, v, p, p, N);
    Transitive(r, m + p, v + p, N);
  }

  lemma Opposite(r: int, m: int, v: int)
    requires Congruent(r, -m, N) && Congruent(m, v, N)
    ensures Congruent(r, -v, N)
  {
    Reflexive(0, N);
    CongruentAdd(0, 0, m, v, N);
    Transitive(r, -m, -v, N);
  }

  ghost function ResidueCurve(): Curve<Residue>
  {
    Curve(Residues(), 1, LAMBDA, p => Mul(Residues(), LAMBDA, p))
  }

  lemma ResidueCurveLaws()
    ensures CurveLaws(ResidueCurve())
  {
    var c := ResidueCurve();
    ResiduesAbelian();
    assert c.group == Residues() && c.group.zero == 0 && c.gen == 1;
    hide Abelian, Mul;
    forall p: Residue ensures Mul(c.group, N, p) == c.group.zero && c.mulLambda(p) == Mul(c.group, c.lambda, p) {
      ResidueMultiple(N, p);
      OnlyZero(Mul(Residues(), N, p), p);
    }
    forall k: int ensures Mul(c.group, k, c.gen) == c.group.zero ==> k % N == 0 {
      ResidueMultiple(k, 1);
      assert k * 1 == k;
      CongruentIffMod(Mul(c.group, k, c.gen), k, N);
      ModSmall(0, N);
    }
  }

  lemma OnlyZero(r: Residue, p: int)
    requires Congruent(r, N * p, N)
    ensures r == 0
  {
    CongruentByWitness(N * p, 0, N, p);
    Transitive(r, N * p, 0, N);
    SmallResidues(r, 0, N);
  }

  /** Coordinates in which a residue and its negative share x and differ in the parity of y. */
  ghost function ResidueCoords(): Coords<Residue>
  {
    Coords((p: Residue) => if 2 * p < N then p else N - p, (p: Residue) => 2 * p < N,
           (p: Residue) => (if 2 * p < N then p else N - p, 1))
  }

  lemma ResidueCoordLaws()
    ensures CoordLaws(Residues(), ResidueCoords())
  {
    var g, co := Residues(), ResidueCoords();
    forall p: Residue | p != g.zero
      ensures 0 <= co.x(p) < FIELD_P && co.x(g.neg(p)) == co.x(p) && co.yOdd(g.neg(p)) == !co.yOdd(p)
      ensures Represents(co.x(p), co.jacobian(p), FIELD_P)
    {
      assert g.neg(p) == N - p;
      assert co.x(p) * (1 * 1) == co.x(p);
      NotZero(1, FIELD_P);
      Reflexive(co.x(p), FIELD_P);
    }
  }

  /** Every assumption on curve and coordinates, met at once. */
  lemma AssumptionsHold()
    ensures CurveLaws(ResidueCurve()) && CoordLaws(ResidueCurve().group, ResidueCoords())
  {
    hide CurveLaws, CoordLaws;
    ResidueCurveLaws();
    ResidueCoordLaws();
  }
}
