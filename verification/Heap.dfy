/** The binary heap of Go's container/heap, largest rank first, on sequences. Each function follows
    the procedure of the same name; Parent gives the element above. */
module Heap {
  function Swapped<T>(s: seq<T>, i: nat, j: nat): (r: seq<T>)
    requires i < |s| && j < |s|
    ensures |r| == |s| && multiset(r) == multiset(s)
  {
    s[i := s[j]][j := s[i]]
  }

  function Parent(k: nat): (p: nat)
    requires k > 0
    ensures p < k && (k == 2 * p + 1 || k == 2 * p + 2)
  {
    (k - 1) / 2
  }

  /** Sift s[j] towards the root. */
  function Up<T>(rank: T -> int, s: seq<T>, j: nat): (r: seq<T>)
    requires j < |s|
    ensures |r| == |s| && multiset(r) == multiset(s)
    decreases j
  {
    if j == 0 then s
    else
      var i := Parent(j);
      if rank(s[j]) > rank(s[i]) then Up(rank, Swapped(s, i, j), i) else s
  }

  /** The child that would replace i among the first n elements. */
  function Child<T>(rank: T -> int, s: seq<T>, i: nat, n: nat): (j: nat)
    requires 2 * i + 1 < n <= |s|
    ensures i < j < n && Parent(j) == i
  {
    var j1 := 2 * i + 1;
    if j1 + 1 < n && rank(s[j1 + 1]) > rank(s[j1]) then j1 + 1 else j1
  }

  /** Sift s[i] towards the leaves of the first n elements. */
  function Down<T>(rank: T -> int, s: seq<T>, i: nat, n: nat): (r: seq<T>)
    requires i < |s| && n <= |s|
    ensures |r| == |s| && multiset(r) == multiset(s) && r[n..] == s[n..]
    decreases n - i
  {
    if 2 * i + 1 >= n then s
    else
      var j := Child(rank, s, i, n);
      if rank(s[j]) > rank(s[i]) then
        assert Swapped(s, i, j)[n..] == s[n..];
        Down(rank, Swapped(s, i, j), j, n)
      else s
  }

  /** s[k] does not outrank its parent. */
  ghost predicate Below<T>(rank: T -> int, s: seq<T>, k: nat)
    requires 0 < k < |s|
  {
    rank(s[Parent(k)]) >= rank(s[k])
  }

  ghost predicate IsHeap<T>(rank: T -> int, s: seq<T>)
  {
    forall k {:trigger Below(rank, s, k)} :: 0 < k < |s| ==> Below(rank, s, k)
  }

  /** s[k] does not outrank p; used for the grandchildren of a misplaced element. */
  ghost predicate NotAbove<T>(rank: T -> int, s: seq<T>, k: nat, p: T)
    requires k < |s|
  {
    rank(p) >= rank(s[k])
  }

  /** Only s[j] may outrank its parent, which outranks the children of j. */
  ghost predicate HeapButUp<T>(rank: T -> int, s: seq<T>, j: nat)
    requires j < |s|
  {
    && (forall k {:trigger Below(rank, s, k)} :: 0 < k < |s| && k != j ==> Below(rank, s, k))
    && (j > 0 ==> forall k {:trigger NotAbove(rank, s, k, s[Parent(j)])} ::
            0 < k < |s| && Parent(k) == j ==> NotAbove(rank, s, k, s[Parent(j)]))
  }

  lemma {:induction false} UpStep<T>(rank: T -> int, s: seq<T>, j: nat)
    requires 0 < j < |s| && HeapButUp(rank, s, j) && rank(s[j]) > rank(s[Parent(j)])
    ensures HeapButUp(rank, Swapped(s, Parent(j), j), Parent(j))
  {
    var i := Parent(j);
    var t := Swapped(s, i, j);
    forall k | 0 < k < |t| && k != i ensures Below(rank, t, k) {
      if k != j { assert Below(rank, s, k); }
      if Parent(k) == j { assert NotAbove(rank, s, k, s[i]); }
    }
    if i > 0 {
      assert Below(rank, s, i);
      forall k | 0 < k < |t| && Parent(k) == i ensures NotAbove(rank, t, k, t[Parent(i)]) {
        if k != j { assert Below(rank, s, k); }
      }
    }
  }

  lemma {:induction false} UpHeap<T>(rank: T -> int, s: seq<T>, j: nat)
    requires j < |s| && HeapButUp(rank, s, j)
    ensures IsHeap(rank, Up(rank, s, j))
    decreases j
  {
    hide Below, NotAbove;
    if j > 0 && rank(s[j]) > rank(s[Parent(j)]) {
      UpStep(rank, s, j);
      UpHeap(rank, Swapped(s, Parent(j), j), Parent(j));
    } else {
      UpDone(rank, s, j);
    }
  }

  lemma UpDone<T>(rank: T -> int, s: seq<T>, j: nat)
    requires j < |s| && HeapButUp(rank, s, j) && (j > 0 ==> rank(s[j]) <= rank(s[Parent(j)]))
    ensures IsHeap(rank, s)
  {}

  /** Below the elements from `lo` on, everything is in place. */
  ghost predicate IsHeapFrom<T>(rank: T -> int, s: seq<T>, lo: nat)
  {
    forall k {:trigger Below(rank, s, k)} :: 0 < k < |s| && Parent(k) >= lo ==> Below(rank, s, k)
  }

  /** From `lo` on only s[i] may be outranked by its children, which its parent outranks. */
  ghost predicate HeapButDown<T>(rank: T -> int, s: seq<T>, i: nat, lo: nat)
    requires i < |s|
  {
    && (forall k {:trigger Below(rank, s, k)} :: 0 < k < |s| && lo <= Parent(k) != i ==> Below(rank, s, k))
    && (i > 0 && Parent(i) >= lo ==> forall k {:trigger NotAbove(rank, s, k, s[Parent(i)])} ::
            0 < k < |s| && Parent(k) == i ==> NotAbove(rank, s, k, s[Parent(i)]))
  }

  lemma {:induction false} DownStep<T>(rank: T -> int, s: seq<T>, i: nat, lo: nat)
    requires lo <= i && 2 * i + 1 < |s| && HeapButDown(rank, s, i, lo)
    requires var j := Child(rank, s, i, |s|); rank(s[j]) > rank(s[i])
    ensures var j := Child(rank, s, i, |s|); HeapButDown(rank, Swapped(s, i, j), j, lo)
  {
    var j := Child(rank, s, i, |s|);
    var t := Swapped(s, i, j);
    forall k | 0 < k < |t| && lo <= Parent(k) != j ensures Below(rank, t, k) {
      if k == i {
        assert NotAbove(rank, s, j, s[Parent(i)]);
      } else if Parent(k) != i {
        assert Below(rank, s, k);
      }
    }
    forall k | 0 < k < |t| && Parent(k) == j ensures NotAbove(rank, t, k, t[Parent(j)]) {
      assert Below(rank, s, k);
    }
  }

  lemma DownDone<T>(rank: T -> int, s: seq<T>, i: nat, lo: nat)
    requires i < |s| && HeapButDown(rank, s, i, lo)
    requires 2 * i + 1 < |s| ==> rank(s[Child(rank, s, i, |s|)]) <= rank(s[i])
    ensures IsHeapFrom(rank, s, lo)
  {
    forall k | 0 < k < |s| && Parent(k) == i ensures Below(rank, s, k) {}
  }

  /** Elements from n on do not take part. */
  lemma {:induction false} DownPrefix<T>(rank: T -> int, s: seq<T>, i: nat, n: nat)
    requires i < n <= |s|
    ensures Down(rank, s, i, n)[..n] == Down(rank, s[..n], i, n)
    decreases n - i
  {
    var p := s[..n];
    if 2 * i + 1 < n {
      var j := Child(rank, s, i, n);
      assert j == Child(rank, p, i, n);
      assert Swapped(s, i, j)[..n] == Swapped(p, i, j);
      DownPrefix(rank, Swapped(s, i, j), j, n);
    }
  }

  lemma {:induction false} DownHeap<T>(rank: T -> int, s: seq<T>, i: nat, lo: nat)
    requires lo <= i < |s| && HeapButDown(rank, s, i, lo)
    ensures IsHeapFrom(rank, Down(rank, s, i, |s|), lo)
    decreases |s| - i
  {
    hide Below, NotAbove;
    if 2 * i + 1 < |s| && rank(s[Child(rank, s, i, |s|)]) > rank(s[i]) {
      DownStep(rank, s, i, lo);
      DownHeap(rank, Swapped(s, i, Child(rank, s, i, |s|)), Child(rank, s, i, |s|), lo);
    } else {
      DownDone(rank, s, i, lo);
    }
  }

  lemma {:induction false} RootIsTop<T>(rank: T -> int, s: seq<T>, k: nat)
    requires IsHeap(rank, s) && k < |s|
    ensures rank(s[0]) >= rank(s[k])
  {
    if k > 0 {
      assert Below(rank, s, k);
      RootIsTop(rank, s, Parent(k));
    }
  }

  function Push<T>(rank: T -> int, s: seq<T>, x: T): (r: seq<T>)
    ensures |r| == |s| + 1
  {
    Up(rank, s + [x], |s|)
  }

  /** Swap root and last, sift the new root down, and take the last off. */
  function Pop<T>(rank: T -> int, s: seq<T>): (r: (T, seq<T>))
    requires s != []
  {
    var n := |s| - 1;
    var t := Down(rank, Swapped(s, 0, n), 0, n);
    (t[n], t[..n])
  }

  lemma {:induction false} PushHeap<T>(rank: T -> int, s: seq<T>, x: T)
    requires IsHeap(rank, s)
    ensures IsHeap(rank, Push(rank, s, x)) && multiset(Push(rank, s, x)) == multiset(s) + multiset{x}
  {
    var t := s + [x];
    forall k | 0 < k < |t| && k != |s| ensures Below(rank, t, k) { assert Below(rank, s, k); }
    UpHeap(rank, t, |s|);
  }

  /** What Pop leaves: the last element put in the root's place and sifted down. */
  lemma {:induction false} PopIs<T>(rank: T -> int, s: seq<T>)
    requires s != []
    ensures var n := |s| - 1;
            Pop(rank, s) == (s[0], if n == 0 then [] else Down(rank, s[..n][0 := s[n]], 0, n))
  {
    var n := |s| - 1;
    var u := Swapped(s, 0, n);
    assert Down(rank, u, 0, n)[n] == Down(rank, u, 0, n)[n..][0] == u[n..][0];
    if n > 0 {
      DownPrefix(rank, u, 0, n);
      assert u[..n] == s[..n][0 := s[n]];
    }
  }

  lemma {:induction false} PopRest<T>(rank: T -> int, s: seq<T>)
    requires IsHeap(rank, s) && |s| > 1
    ensures var n := |s| - 1; IsHeap(rank, Down(rank, s[..n][0 := s[n]], 0, n))
  {
    var n := |s| - 1;
    var t := s[..n][0 := s[n]];
    forall k | 0 < k < n && Parent(k) != 0 ensures Below(rank, t, k) { assert Below(rank, s, k); }
    DownHeap(rank, t, 0, 0);
  }

  /** The popped element outranks all others and nothing else is lost. */
  lemma {:induction false} PopHeap<T>(rank: T -> int, s: seq<T>)
    requires IsHeap(rank, s) && s != []
    ensures var (x, r) := Pop(rank, s);
            && IsHeap(rank, r) && multiset(r) + multiset{x} == multiset(s)
            && (forall y :: y in multiset(s) ==> rank(x) >= rank(y))
  {
    var n := |s| - 1;
    PopIs(rank, s);
    if n > 0 {
      PopRest(rank, s);
      MoveLast(s);
    }
    hide Pop, Down;
    forall y | y in multiset(s) ensures rank(s[0]) >= rank(y) {
      var k :| 0 <= k < |s| && s[k] == y;
      RootIsTop(rank, s, k);
    }
  }

  lemma MoveLast<T>(s: seq<T>)
    requires |s| > 1
    ensures var n := |s| - 1; multiset(s[..n][0 := s[n]]) + multiset{s[0]} == multiset(s)
  {
    var n := |s| - 1;
    assert s == s[..n] + [s[n]];
  }

  /** Pop in the order container/heap performs it. */
  lemma PopSteps<T>(rank: T -> int, s: seq<T>, r: seq<T>, x: T)
    requires IsHeap(rank, s) && s != [] && r + [x] == Down(rank, Swapped(s, 0, |s| - 1), 0, |s| - 1)
    ensures IsHeap(rank, r) && multiset(s) == multiset(r) + multiset{x}
    ensures forall y :: y in multiset(s) ==> rank(y) <= rank(x)
  {
    var t := r + [x];
    assert t[..|s| - 1] == r && t[|s| - 1] == x;
    assert Pop(rank, s) == (x, r);
    hide Pop, Down;
    PopHeap(rank, s);
  }

  lemma DownUnfold<T>(rank: T -> int, s: seq<T>, i: nat, n: nat)
    requires i < |s| && n <= |s|
    ensures Down(rank, s, i, n) ==
            if 2 * i + 1 < n && rank(s[Child(rank, s, i, n)]) > rank(s[i])
            then Down(rank, Swapped(s, i, Child(rank, s, i, n)), Child(rank, s, i, n), n) else s
  {}

  /** container/heap Init: sift down every element that has children, the last one first. */
  method Init<T>(rank: T -> int, s: seq<T>) returns (r: seq<T>)
    ensures IsHeap(rank, r) && |r| == |s| && multiset(r) == multiset(s)
  {
    r := s;
    var i := |s| / 2;
    while i > 0
      invariant 0 <= i <= |s| / 2 && |r| == |s| && multiset(r) == multiset(s) && IsHeapFrom(rank, r, i)
    {
      i := i - 1;
      InitStep(rank, r, i);
      r := Down(rank, r, i, |r|);
    }
  }

  lemma InitStep<T>(rank: T -> int, s: seq<T>, i: nat)
    requires i < |s| && IsHeapFrom(rank, s, i + 1)
    ensures IsHeapFrom(rank, Down(rank, s, i, |s|), i)
  {
    DownHeap(rank, s, i, i);
  }
}
