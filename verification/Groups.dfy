/**
 * The curve group as the scalar-multiplication code uses it: points of any type
 * with a zero (the point at infinity), an addition and a negation.
 *
 * The laws are quantified over `Pt` marks, so that a proof instantiates them only
 * at the points it names.
 */
module Groups {
  import opened Arithmetic

  datatype Group<!P> = Group(zero: P, add: (P, P) -> P, neg: P -> P)

  predicate Pt<P>(a: P) { true }

  ghost predicate Abelian<P(!new)>(g: Group<P>)
  {
    && (forall a: P {:trigger Pt(a)} :: g.add(a, g.zero) == a && g.add(a, g.neg(a)) == g.zero)
    && (forall a: P, b: P {:trigger Pt(a), Pt(b)} :: g.add(a, b) == g.add(b, a))
    && (forall a: P, b: P, c: P {:trigger Pt(a), Pt(b), Pt(c)} ::
          g.add(g.add(a, b), c) == g.add(a, g.add(b, c)))
  }

  lemma AddZero<P(!new)>(g: Group<P>, a: P)
    requires Abelian(g)
    ensures g.add(a, g.zero) == a && g.add(g.zero, a) == a
  {
    assert Pt(a) && Pt(g.zero);
  }

  lemma AddNeg<P(!new)>(g: Group<P>, a: P)
    requires Abelian(g)
    ensures g.add(a, g.neg(a)) == g.zero && g.add(g.neg(a), a) == g.zero
  {
    assert Pt(a) && Pt(g.neg(a));
  }

  lemma Comm<P(!new)>(g: Group<P>, a: P, b: P)
    requires Abelian(g)
    ensures g.add(a, b) == g.add(b, a)
  {
    assert Pt(a) && Pt(b);
  }

  lemma Assoc<P(!new)>(g: Group<P>, a: P, b: P, c: P)
    requires Abelian(g)
    ensures g.add(g.add(a, b), c) == g.add(a, g.add(b, c))
  {
    assert Pt(a) && Pt(b) && Pt(c);
  }

  lemma Interchange<P(!new)>(g: Group<P>, a: P, b: P, c: P, d: P)
    requires Abelian(g)
    ensures g.add(g.add(a, b), g.add(c, d)) == g.add(g.add(a, c), g.add(b, d))
  {
    Assoc(g, a, b, g.add(c, d));
    Assoc(g, b, c, d);
    Comm(g, b, c);
    Assoc(g, c, b, d);
    Assoc(g, a, c, g.add(b, d));
  }

  lemma NegUnique<P(!new)>(g: Group<P>, a: P, b: P)
    requires Abelian(g) && g.add(a, b) == g.zero
    ensures b == g.neg(a)
  {
    Assoc(g, g.neg(a), a, b);
    AddNeg(g, a);
    AddZero(g, b);
    AddZero(g, g.neg(a));
  }

  lemma NegAdd<P(!new)>(g: Group<P>, a: P, b: P)
    requires Abelian(g)
    ensures g.neg(g.add(a, b)) == g.add(g.neg(a), g.neg(b))
  {
    Interchange(g, a, b, g.neg(a), g.neg(b));
    AddNeg(g, a);
    AddNeg(g, b);
    AddZero(g, g.zero);
    NegUnique(g, g.add(a, b), g.add(g.neg(a), g.neg(b)));
  }

  lemma NegNeg<P(!new)>(g: Group<P>, a: P)
    requires Abelian(g)
    ensures g.neg(g.neg(a)) == a && g.neg(g.zero) == g.zero
  {
    AddNeg(g, a);
    NegUnique(g, g.neg(a), a);
    AddZero(g, g.zero);
    NegUnique(g, g.zero, g.zero);
  }

  /** The scalar multiple k*p. */
  ghost function Mul<P(!new)>(g: Group<P>, k: int, p: P): P
    decreases if k < 0 then 1 - k else k
  {
    if k == 0 then g.zero
    else if k > 0 then g.add(Mul(g, k - 1, p), p)
    else g.neg(Mul(g, -k, p))
  }

  lemma MulOne<P(!new)>(g: Group<P>, p: P)
    requires Abelian(g)
    ensures Mul(g, 1, p) == p && Mul(g, 2, p) == g.add(p, p) && Mul(g, -1, p) == g.neg(p)
  {
    AddZero(g, p);
    assert Mul(g, 1, p) == g.add(Mul(g, 0, p), p);
  }

  lemma MulNeg<P(!new)>(g: Group<P>, k: int, p: P)
    requires Abelian(g)
    ensures Mul(g, -k, p) == g.neg(Mul(g, k, p))
  {
    NegNeg(g, Mul(g, -k, p));
  }

  lemma MulSucc<P(!new)>(g: Group<P>, k: int, p: P)
    requires Abelian(g)
    ensures Mul(g, k + 1, p) == g.add(Mul(g, k, p), p)
  {
    if k < 0 {
      // k = -(m + 1): -(m*p + p) + p = -(m*p)
      var m := -k - 1;
      var q := Mul(g, m, p);
      assert Mul(g, -k, p) == g.add(q, p);
      NegAdd(g, q, p);
      Assoc(g, g.neg(q), g.neg(p), p);
      AddNeg(g, p);
      AddZero(g, g.neg(q));
      NegNeg(g, p);
    }
  }

  lemma {:induction false} MulAdd<P(!new)>(g: Group<P>, j: int, k: int, p: P)
    requires Abelian(g)
    ensures Mul(g, j + k, p) == g.add(Mul(g, j, p), Mul(g, k, p))
    decreases if k < 0 then -k else k
  {
    if k == 0 {
      AddZero(g, Mul(g, j, p));
    } else if k > 0 {
      MulAdd(g, j, k - 1, p);
      MulSucc(g, j + k - 1, p);
      MulSucc(g, k - 1, p);
      Assoc(g, Mul(g, j, p), Mul(g, k - 1, p), p);
    } else {
      MulAdd(g, j, k + 1, p);
      MulSucc(g, j + k, p);
      MulSucc(g, k, p);
      var x, y := Mul(g, j + k, p), g.add(Mul(g, j, p), Mul(g, k, p));
      Assoc(g, Mul(g, j, p), Mul(g, k, p), p);
      assert g.add(x, p) == g.add(y, p);
      Assoc(g, x, p, g.neg(p));
      Assoc(g, y, p, g.neg(p));
      AddNeg(g, p);
      AddZero(g, x);
      AddZero(g, y);
    }
  }

  lemma {:induction false} MulMul<P(!new)>(g: Group<P>, j: int, k: int, p: P)
    requires Abelian(g)
    ensures Mul(g, j * k, p) == Mul(g, j, Mul(g, k, p))
    decreases if j < 0 then 1 - j else j
  {
    if j > 0 {
      MulMul(g, j - 1, k, p);
      assert j * k == (j - 1) * k + k;
      MulAdd(g, (j - 1) * k, k, p);
    } else if j < 0 {
      MulMul(g, -j, k, p);
      assert (-j) * k == -(j * k);
      MulNeg(g, -(j * k), p);
    }
  }

  /** A point killed by n has the same multiple for congruent scalars. */
  lemma MulCongruent<P(!new)>(g: Group<P>, n: int, j: int, k: int, p: P)
    requires Abelian(g) && n > 0 && Mul(g, n, p) == g.zero && Congruent(j, k, n)
    ensures Mul(g, j, p) == Mul(g, k, p)
  {
    var w := CongruentWitness(j, k, n);
    MulAdd(g, k, w * n, p);
    MulMul(g, w, n, p);
    MulZero(g, w);
    AddZero(g, Mul(g, k, p));
  }

  lemma {:induction false} MulZero<P(!new)>(g: Group<P>, k: int)
    requires Abelian(g)
    ensures Mul(g, k, g.zero) == g.zero
    decreases if k < 0 then 1 - k else k
  {
    if k > 0 {
      MulZero(g, k - 1);
      AddZero(g, g.zero);
    } else if k < 0 {
      MulZero(g, -k);
      NegNeg(g, g.zero);
    }
  }

  /** x*a + y*b, the shape every accumulator of the Strauss loops keeps. */
  ghost function Lin<P(!new)>(g: Group<P>, x: int, a: P, y: int, b: P): P
  {
    g.add(Mul(g, x, a), Mul(g, y, b))
  }

  lemma LinAdd<P(!new)>(g: Group<P>, x: int, y: int, u: int, v: int, a: P, b: P)
    requires Abelian(g)
    ensures g.add(Lin(g, x, a, y, b), Lin(g, u, a, v, b)) == Lin(g, x + u, a, y + v, b)
  {
    Interchange(g, Mul(g, x, a), Mul(g, y, b), Mul(g, u, a), Mul(g, v, b));
    MulAdd(g, x, u, a);
    MulAdd(g, y, v, b);
  }

  lemma LinAddLeft<P(!new)>(g: Group<P>, x: int, y: int, u: int, a: P, b: P)
    requires Abelian(g)
    ensures g.add(Lin(g, x, a, y, b), Mul(g, u, a)) == Lin(g, x + u, a, y, b)
  {
    LinAdd(g, x, y, u, 0, a, b);
    AddZero(g, Mul(g, u, a));
  }

  lemma LinAddRight<P(!new)>(g: Group<P>, x: int, y: int, v: int, a: P, b: P)
    requires Abelian(g)
    ensures g.add(Lin(g, x, a, y, b), Mul(g, v, b)) == Lin(g, x, a, y + v, b)
  {
    LinAdd(g, x, y, 0, v, a, b);
    AddZero(g, Mul(g, v, b));
  }

  lemma LinCongruent<P(!new)>(g: Group<P>, n: int, x: int, u: int, a: P, y: int, v: int, b: P)
    requires Abelian(g) && n > 0 && Mul(g, n, a) == g.zero && Mul(g, n, b) == g.zero
    requires Congruent(x, u, n) && Congruent(y, v, n)
    ensures Lin(g, x, a, y, b) == Lin(g, u, a, v, b)
  {
    hide Mul, Abelian, Congruent;
    MulCongruent(g, n, x, u, a);
    MulCongruent(g, n, y, v, b);
  }
}
