/** Signed-digit expansions: digit i of an expansion of width w weighs (2^w)^i. */
module Digits {
  import opened Arithmetic

  function Weight(w: nat, k: nat): (r: nat)
    ensures r >= 1
  {
    if k == 0 then 1 else Pow2(w) * Weight(w, k - 1)
  }

  lemma {:induction false} WeightIsPow2(w: nat, k: nat)
    ensures Weight(w, k) == Pow2(w * k)
  {
    if k > 0 {
      WeightIsPow2(w, k - 1);
      assert w * k == w * (k - 1) + w;
      Pow2Add(w * (k - 1), w);
    }
  }

  /** Digits i.. read from the most significant end, as a doubling loop consumes them. */
  ghost function Horner(d: seq<int>, w: nat, i: nat): int
    requires i <= |d|
    decreases |d| - i
  {
    if i == |d| then 0 else d[i] + Pow2(w) * Horner(d, w, i + 1)
  }

  /** Digits ..k summed with their weights, as a recoding loop produces them. */
  ghost function Low(d: seq<int>, w: nat, k: nat): int
    requires k <= |d|
  {
    if k == 0 then 0 else Low(d, w, k - 1) + d[k - 1] * Weight(w, k - 1)
  }

  lemma Distribute(p: int, x: int, q: int, h: int)
    ensures p * (x + q * h) == x * p + (p * q) * h
  {
    assert p * (q * h) == (p * q) * h;
  }

  /** The two readings agree: low digits, plus the rest scaled by its weight. */
  lemma {:induction false} LowHorner(d: seq<int>, w: nat, k: nat)
    requires k <= |d|
    ensures Horner(d, w, 0) == Low(d, w, k) + Weight(w, k) * Horner(d, w, k)
  {
    if k > 0 {
      LowHorner(d, w, k - 1);
      var p, h := Weight(w, k - 1), Horner(d, w, k);
      assert Horner(d, w, k - 1) == d[k - 1] + Pow2(w) * h;
      Distribute(p, d[k - 1], Pow2(w), h);
    }
  }

  lemma LowIsValue(d: seq<int>, w: nat)
    ensures Horner(d, w, 0) == Low(d, w, |d|)
  {
    LowHorner(d, w, |d|);
  }

  lemma {:induction false} LowAgree(d: seq<int>, e: seq<int>, w: nat, k: nat)
    requires k <= |d| && k <= |e| && forall i :: 0 <= i < k ==> d[i] == e[i]
    ensures Low(d, w, k) == Low(e, w, k)
  {
    if k > 0 { LowAgree(d, e, w, k - 1); }
  }

  lemma {:induction false} LowZeros(d: seq<int>, w: nat, j: nat, k: nat)
    requires j <= k <= |d| && forall i :: j <= i < k ==> d[i] == 0
    ensures Low(d, w, k) == Low(d, w, j)
  {
    if j < k { LowZeros(d, w, j, k - 1); }
  }

  /** Above the last non-zero digit a doubling loop has nothing to read. */
  lemma {:induction false} HornerZeros(d: seq<int>, w: nat, i: nat)
    requires i <= |d| && forall j :: i <= j < |d| ==> d[j] == 0
    ensures Horner(d, w, i) == 0
    decreases |d| - i
  {
    if i < |d| { HornerZeros(d, w, i + 1); }
  }
}
