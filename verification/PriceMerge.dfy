/** SortByPriceAndNonce of transaction.go: senders' queues in nonce order, merged through a heap on price. */
module PriceMerge {
  import opened Collections
  import opened Ledger
  import Heap

  type Queues = map<Address, seq<Tx>>

  function Price(t: Tx): (r: int) { t.price }

  ghost predicate NonceOrdered(s: seq<Tx>)
  {
    forall i, j :: 0 <= i < j < |s| ==> s[i].nonce <= s[j].nonce
  }

  /** Everything in the queues. */
  ghost function Waiting(q: Queues): multiset<Tx>
    decreases |q|
  {
    if q == map[] then multiset{}
    else
      var a :| a in q;
      multiset(q[a]) + Waiting(q - {a})
  }

  lemma {:induction false} WaitingWithout(q: Queues, a: Address)
    requires a in q
    ensures Waiting(q) == multiset(q[a]) + Waiting(q - {a})
    decreases |q|
  {
    assert q != map[];
    var b :| b in q && Waiting(q) == multiset(q[b]) + Waiting(q - {b});
    if a != b {
      WaitingWithout(q - {b}, a);
      assert q - {b} - {a} == q - {a} - {b};
      WaitingWithout(q - {a}, b);
    }
  }

  ghost function QueueOf(q: Queues, a: Address): seq<Tx>
  {
    if a in q then q[a] else []
  }

  lemma WaitingUpdate(q: Queues, a: Address, s: seq<Tx>)
    ensures Waiting(q[a := s]) + multiset(QueueOf(q, a)) == Waiting(q) + multiset(s)
  {
    hide Waiting;
    WaitingWithout(q[a := s], a);
    assert q[a := s] - {a} == q - {a};
    if a in q {
      WaitingWithout(q, a);
    } else {
      assert q - {a} == q;
    }
  }

  lemma {:induction false} WaitingNothing(q: Queues)
    requires forall a :: a in q ==> q[a] == []
    ensures Waiting(q) == multiset{}
    decreases |q|
  {
    if q != map[] {
      var a :| a in q && Waiting(q) == multiset(q[a]) + Waiting(q - {a});
      WaitingNothing(q - {a});
    }
  }

  /** Queues are not empty and hold their own sender's transactions. */
  ghost predicate Grouped(q: Queues)
  {
    forall a :: a in q ==> q[a] != [] && forall t :: t in q[a] ==> t.from == a
  }

  method GroupBySender(txs: seq<Tx>) returns (q: Queues)
    ensures Grouped(q) && Waiting(q) == multiset(txs)
  {
    q := map[];
    var i := 0;
    assert txs[..0] == [];
    hide Grouped, Waiting;
    WaitingNothing(map[]);
    GroupedNothing();
    while i < |txs|
      invariant 0 <= i <= |txs| && Grouped(q) && Waiting(q) == multiset(txs[..i])
    {
      var t := txs[i];
      assert txs[..i + 1] == txs[..i] + [t];
      var queue := if t.from in q then q[t.from] else [];
      WaitingUpdate(q, t.from, queue + [t]);
      AppendOne(q, t.from, queue, t, multiset(txs[..i]));
      GroupedUpdate(q, t, queue);
      q := q[t.from := queue + [t]];
      i := i + 1;
    }
    assert txs[..i] == txs;
  }

  lemma AppendOne(q: Queues, a: Address, queue: seq<Tx>, t: Tx, m: multiset<Tx>)
    requires queue == QueueOf(q, a) && Waiting(q) == m
    requires Waiting(q[a := queue + [t]]) + multiset(queue) == Waiting(q) + multiset(queue + [t])
    ensures Waiting(q[a := queue + [t]]) == m + multiset{t}
  {
    hide Waiting;
    assert multiset(queue + [t]) == multiset(queue) + multiset{t};
    var w := Waiting(q[a := queue + [t]]);
    forall x ensures w[x] == (m + multiset{t})[x] {
      assert (w + multiset(queue))[x] == (m + (multiset(queue) + multiset{t}))[x];
    }
  }

  lemma GroupedNothing()
    ensures Grouped(map[])
  {}

  lemma GroupedUpdate(q: Queues, t: Tx, queue: seq<Tx>)
    requires Grouped(q) && queue == QueueOf(q, t.from)
    ensures Grouped(q[t.from := queue + [t]])
  {
    forall x | x in queue + [t] ensures x.from == t.from {}
  }

  function Insert(s: seq<Tx>, t: Tx): (r: seq<Tx>)
    ensures multiset(r) == multiset(s) + multiset{t}
  {
    if s == [] || t.nonce < s[0].nonce then (assert multiset([t] + s) == multiset{t} + multiset(s); [t] + s)
    else
      assert s == [s[0]] + s[1..];
      [s[0]] + Insert(s[1..], t)
  }

  /** sort.Sort on TxByNonce: a permutation in nonce order. */
  function SortByNonce(s: seq<Tx>): (r: seq<Tx>)
    ensures multiset(r) == multiset(s)
  {
    if s == [] then []
    else
      assert s == s[..|s| - 1] + [s[|s| - 1]];
      Insert(SortByNonce(s[..|s| - 1]), s[|s| - 1])
  }

  ghost predicate AtLeast(s: seq<Tx>, n: nat)
  {
    forall i :: 0 <= i < |s| ==> s[i].nonce >= n
  }

  lemma OrderedCons(t: Tx, s: seq<Tx>)
    requires NonceOrdered(s) && AtLeast(s, t.nonce)
    ensures NonceOrdered([t] + s)
  {}

  lemma OrderedTail(s: seq<Tx>)
    requires NonceOrdered(s) && s != []
    ensures NonceOrdered(s[1..]) && AtLeast(s[1..], s[0].nonce)
  {}

  lemma {:induction false} InsertOrdered(s: seq<Tx>, t: Tx)
    requires NonceOrdered(s)
    ensures NonceOrdered(Insert(s, t))
    ensures forall n: nat :: AtLeast(s, n) && n <= t.nonce ==> AtLeast(Insert(s, t), n)
  {
    if s == [] || t.nonce < s[0].nonce {
      OrderedCons(t, s);
    } else {
      OrderedTail(s);
      InsertOrdered(s[1..], t);
      OrderedCons(s[0], Insert(s[1..], t));
      forall n: nat | AtLeast(s, n) && n <= t.nonce ensures AtLeast(Insert(s, t), n) {
        assert AtLeast(s[1..], n);
      }
    }
  }

  lemma {:induction false} SortOrdered(s: seq<Tx>)
    ensures NonceOrdered(SortByNonce(s))
  {
    if s != [] {
      SortOrdered(s[..|s| - 1]);
      InsertOrdered(SortByNonce(s[..|s| - 1]), s[|s| - 1]);
    }
  }

  /** The next transaction of each sender that has any left. */
  type Heads = map<Address, Tx>

  ghost function HeadsOf(hm: Heads): multiset<Tx>
  {
    multiset(set a | a in hm :: hm[a])
  }

  /** What remains of one sender after its head. */
  ghost predicate Follows(head: Tx, a: Address, rest: seq<Tx>)
  {
    head.from == a && NonceOrdered(rest) && AtLeast(rest, head.nonce) && forall t :: t in rest ==> t.from == a
  }

  ghost predicate Fronts(hm: Heads, q: Queues)
  {
    && (forall a :: a in hm ==> a in q && Follows(hm[a], a, q[a]))
    && (forall a :: a in q && q[a] != [] ==> a in hm)
  }

  lemma HeadsWith(hm: Heads, a: Address, t: Tx)
    requires a !in hm && t.from == a && forall b :: b in hm ==> hm[b].from == b
    ensures HeadsOf(hm[a := t]) == HeadsOf(hm) + multiset{t}
  {
    var s := set b | b in hm :: hm[b];
    assert t !in s;
    var hm' := hm[a := t];
    var s' := set b | b in hm' :: hm'[b];
    assert t in s' by { assert a in hm' && hm'[a] == t; }
    forall x | x in s ensures x in s' {
      var b :| b in hm && hm[b] == x;
      assert b in hm' && hm'[b] == x;
    }
    assert s' == s + {t};
  }

  lemma HeadIs(hm: Heads, t: Tx)
    requires t in HeadsOf(hm) && forall b :: b in hm ==> hm[b].from == b
    ensures t.from in hm && hm[t.from] == t
  {}

  lemma HeadIn(hm: Heads, a: Address)
    requires a in hm
    ensures hm[a] in HeadsOf(hm)
  {
    assert hm[a] in set b | b in hm :: hm[b];
  }

  lemma HeadsWithout(hm: Heads, a: Address)
    requires a in hm && forall b :: b in hm ==> hm[b].from == b
    ensures HeadsOf(hm) == HeadsOf(hm - {a}) + multiset{hm[a]}
  {
    hide HeadsOf;
    HeadsWith(hm - {a}, a, hm[a]);
    assert (hm - {a})[a := hm[a]] == hm;
  }

  /** Senders in nonce order, and every choice the best of the heads at that time. */
  ghost predicate NonceKept(out: seq<Tx>)
  {
    forall i, j :: 0 <= i < j < |out| && out[i].from == out[j].from ==> out[i].nonce <= out[j].nonce
  }

  /** Sender a has nothing in out from i on. */
  ghost predicate Absent(out: seq<Tx>, i: nat, a: Address)
  {
    forall k :: i <= k < |out| ==> out[k].from != a
  }

  /** A transaction that was its sender's next one when out[i] was chosen does not pay more. */
  ghost predicate BestFirst(out: seq<Tx>)
  {
    forall i, j :: 0 <= i < j < |out| && Absent(out[..j], i, out[j].from) ==> out[i].price >= out[j].price
  }

  /** The same two conditions between what is out and the heads. */
  ghost predicate HeadsAfter(out: seq<Tx>, hm: Heads)
  {
    && (forall i, a :: 0 <= i < |out| && a in hm && out[i].from == a ==> out[i].nonce <= hm[a].nonce)
    && (forall i, a :: 0 <= i < |out| && a in hm && Absent(out, i, a) ==> out[i].price >= hm[a].price)
  }

  lemma OutStep(out: seq<Tx>, hm: Heads, best: Tx)
    requires NonceKept(out) && BestFirst(out) && HeadsAfter(out, hm) && best.from in hm && hm[best.from] == best
    ensures NonceKept(out + [best]) && BestFirst(out + [best])
  {
    var o := out + [best];
    forall i, j | 0 <= i < j < |o| && Absent(o[..j], i, o[j].from) ensures o[i].price >= o[j].price {
      if j == |out| {
        assert o[..j] == out;
      } else {
        assert o[..j] == out[..j];
      }
    }
  }

  /** A head that did not change, and the one that takes the place of the transaction chosen. */
  lemma HeadsStep(out: seq<Tx>, hm: Heads, best: Tx, hm': Heads)
    requires HeadsAfter(out, hm) && best.from in hm && hm[best.from] == best
    requires forall a :: a in hm ==> hm[a].price <= best.price
    requires forall a :: a in hm' && a != best.from ==> a in hm && hm'[a] == hm[a]
    requires best.from in hm' ==> best.nonce <= hm'[best.from].nonce
    ensures HeadsAfter(out + [best], hm')
  {
    var o := out + [best];
    forall i, a | 0 <= i < |o| && a in hm' && o[i].from == a ensures o[i].nonce <= hm'[a].nonce {
      if i < |out| && a == best.from { assert out[i].nonce <= hm[a].nonce; }
    }
    forall i, a | 0 <= i < |o| && a in hm' && Absent(o, i, a) ensures o[i].price >= hm'[a].price {
      assert o[|out|].from != a;
      if i < |out| {
        assert Absent(out, i, a) by {
          forall k | i <= k < |out| ensures out[k].from != a { assert o[k] == out[k]; }
        }
      }
    }
  }

  ghost predicate AllOrdered(q: Queues)
  {
    forall a :: a in q ==> NonceOrdered(q[a])
  }

  /** Every queue sorted, whatever order the map is walked in. */
  method SortAll(q: Queues) returns (r: Queues)
    requires Grouped(q)
    ensures Grouped(r) && AllOrdered(r) && Waiting(r) == Waiting(q)
  {
    r := q;
    var rest := q.Keys;
    while rest != {}
      invariant rest <= r.Keys && Grouped(r) && Waiting(r) == Waiting(q)
      invariant forall a :: a in r && a !in rest ==> NonceOrdered(r[a])
      decreases |rest|
    {
      hide NonceOrdered, Waiting, SortByNonce, Grouped;
      var a :| a in rest;
      var s := SortByNonce(r[a]);
      SortOrdered(r[a]);
      WaitingUpdate(r, a, s);
      SortedQueue(r, a, s);
      SameWaiting(r, a, s);
      r := r[a := s];
      rest := rest - {a};
    }
  }

  lemma SortedQueue(q: Queues, a: Address, s: seq<Tx>)
    requires Grouped(q) && a in q && multiset(s) == multiset(q[a])
    ensures Grouped(q[a := s])
  {
    assert |multiset(s)| == |multiset(q[a])|;
    forall t | t in s ensures t.from == a { assert t in multiset(s); }
  }

  lemma SameWaiting(q: Queues, a: Address, s: seq<Tx>)
    requires a in q && multiset(s) == multiset(q[a])
    ensures Waiting(q[a := s]) == Waiting(q)
  {
    hide Waiting;
    WaitingUpdate(q, a, s);
    var w, m := Waiting(q[a := s]), multiset(s);
    forall x ensures w[x] == Waiting(q)[x] { assert (w + m)[x] == (Waiting(q) + m)[x]; }
  }

  /** The senders still to do have their whole queue, the others a head. */
  ghost predicate Taking(q: Queues, todo: set<Address>, rest: Queues, hm: Heads)
  {
    && rest.Keys == q.Keys && todo == rest.Keys - hm.Keys
    && (forall a :: a in todo ==> rest[a] == q[a])
    && (forall a :: a in hm ==> a in rest && Follows(hm[a], a, rest[a]))
  }

  lemma TakeStep(q: Queues, todo: set<Address>, rest: Queues, hm: Heads, a: Address)
    requires Grouped(q) && AllOrdered(q) && Taking(q, todo, rest, hm) && a in todo && a in rest
    ensures rest[a] != [] && rest[a][0].from == a && a !in hm && forall b :: b in hm ==> hm[b].from == b
    ensures Taking(q, todo - {a}, rest[a := rest[a][1..]], hm[a := rest[a][0]])
  {
    SplitQueue(a, rest[a]);
    hide NonceOrdered, AtLeast;
  }

  /** The first transaction of every sender. */
  method TakeHeads(q: Queues) returns (byPrice: seq<Tx>, rest: Queues, ghost hm: Heads)
    requires Grouped(q) && AllOrdered(q)
    ensures Fronts(hm, rest) && multiset(byPrice) == HeadsOf(hm)
    ensures multiset(byPrice) + Waiting(rest) == Waiting(q)
  {
    hide AllOrdered, Waiting, Follows, HeadsOf, Grouped, Taking, Fronts;
    byPrice, rest, hm := [], q, map[];
    var todo := q.Keys;
    TakenNone(q);
    while todo != {}
      invariant Taking(q, todo, rest, hm)
      invariant multiset(byPrice) == HeadsOf(hm) && multiset(byPrice) + Waiting(rest) == Waiting(q)
      decreases |todo|
    {
      var a :| a in todo;
      TakingAt(q, todo, rest, hm, a);
      TakeStep(q, todo, rest, hm, a);
      var s := rest[a];
      HeadsWith(hm, a, s[0]);
      TakeOne(rest, a, s, multiset(byPrice), Waiting(q));
      byPrice := byPrice + [s[0]];
      hm := hm[a := s[0]];
      rest := rest[a := s[1..]];
      todo := todo - {a};
    }
    TakenAll(q, rest, hm);
  }

  lemma TakenNone(q: Queues)
    ensures Taking(q, q.Keys, q, map[]) && HeadsOf(map[]) == multiset{} && multiset{} + Waiting(q) == Waiting(q)
  {
    hide Waiting;
  }

  lemma TakingAt(q: Queues, todo: set<Address>, rest: Queues, hm: Heads, a: Address)
    requires Taking(q, todo, rest, hm) && a in todo
    ensures a in rest
  {}

  lemma TakenAll(q: Queues, rest: Queues, hm: Heads)
    requires Taking(q, {}, rest, hm)
    ensures Fronts(hm, rest)
  {
    hide Follows;
    forall a | a in rest ensures a in hm { assert a !in rest.Keys - hm.Keys; }
  }

  lemma SplitQueue(a: Address, s: seq<Tx>)
    requires s != [] && NonceOrdered(s) && forall t :: t in s ==> t.from == a
    ensures s[0].from == a && Follows(s[0], a, s[1..])
  {
    OrderedTail(s);
  }

  lemma TakeOne(q: Queues, a: Address, s: seq<Tx>, m: multiset<Tx>, all: multiset<Tx>)
    requires a in q && q[a] == s && s != [] && m + Waiting(q) == all
    ensures (m + multiset{s[0]}) + Waiting(q[a := s[1..]]) == all
  {
    hide Waiting;
    WaitingUpdate(q, a, s[1..]);
    assert s == [s[0]] + s[1..];
    var w, t := Waiting(q[a := s[1..]]), multiset(s[1..]);
    assert multiset(s) == multiset{s[0]} + t;
    forall x ensures ((m + multiset{s[0]}) + w)[x] == all[x] {
      assert (w + (multiset{s[0]} + t))[x] == (Waiting(q) + t)[x];
    }
  }

  /** The heap holds exactly the heads. */
  ghost predicate Ready(byPrice: seq<Tx>, q: Queues, hm: Heads)
  {
    Heap.IsHeap(Price, byPrice) && multiset(byPrice) == HeadsOf(hm) && Fronts(hm, q)
  }

  /** How one choice changes the heads: the chosen sender moves on to its next transaction, if there is one. */
  ghost predicate Chosen(hm: Heads, best: Tx, hm': Heads)
  {
    && best.from in hm && hm[best.from] == best
    && (forall a :: a in hm ==> hm[a].price <= best.price)
    && (forall a :: a in hm' && a != best.from ==> a in hm && hm'[a] == hm[a])
    && (best.from in hm' ==> best.nonce <= hm'[best.from].nonce)
  }

  lemma BestIsHead(byPrice: seq<Tx>, q: Queues, hm: Heads, best: Tx)
    requires Ready(byPrice, q, hm) && best in multiset(byPrice)
    requires forall y :: y in multiset(byPrice) ==> y.price <= best.price
    ensures best.from in hm && hm[best.from] == best && best.from in q
    ensures forall a :: a in hm ==> hm[a].price <= best.price
    ensures forall b :: b in hm ==> hm[b].from == b
  {
    hide Heap.IsHeap, NonceOrdered, AtLeast;
    HeadIs(hm, best);
    forall a | a in hm ensures hm[a].price <= best.price { HeadIn(hm, a); }
  }

  lemma MovesOn(q: Queues, hm: Heads, best: Tx)
    requires Fronts(hm, q) && best.from in hm && hm[best.from] == best && q[best.from] != []
    ensures var a := best.from;
            && q[a][0].from == a && best.nonce <= q[a][0].nonce && Fronts(hm[a := q[a][0]], q[a := q[a][1..]])
  {
    var a := best.from;
    assert Follows(best, a, q[a]);
    SplitQueue(a, q[a]);
    hide NonceOrdered, Follows;
  }

  lemma RunsOut(q: Queues, hm: Heads, a: Address)
    requires Fronts(hm, q) && a in hm && q[a] == []
    ensures Fronts(hm - {a}, q)
  {
    hide Follows;
  }

  /** Between taking the best off and putting its successor in. */
  ghost predicate Popped(rest: seq<Tx>, q: Queues, hm: Heads, best: Tx)
  {
    && Heap.IsHeap(Price, rest) && Fronts(hm, q) && multiset(rest) == HeadsOf(hm - {best.from})
    && best.from in hm && hm[best.from] == best && best.from in q
    && (forall a :: a in hm ==> hm[a].price <= best.price && hm[a].from == a)
  }

  lemma PopBest(byPrice: seq<Tx>, q: Queues, hm: Heads)
    requires Ready(byPrice, q, hm) && byPrice != []
    ensures var (best, rest) := Heap.Pop(Price, byPrice);
            && best.from in q && best.from in hm
            && Popped(rest, q, hm, best) && multiset(rest) + multiset{best} == multiset(byPrice)
  {
    Heap.PopHeap(Price, byPrice);
    hide Heap.IsHeap, Heap.Pop, Fronts, HeadsOf;
    var (best, rest) := Heap.Pop(Price, byPrice);
    BestIsHead(byPrice, q, hm, best);
    HeadsWithout(hm, best.from);
    SumCancels(multiset(rest), HeadsOf(hm - {best.from}), multiset{best});
  }

  lemma PutNext(rest: seq<Tx>, q: Queues, hm: Heads, best: Tx)
    requires Popped(rest, q, hm, best) && q[best.from] != []
    ensures var a := best.from; var t := q[a][0];
            && Ready(Heap.Push(Price, rest, t), q[a := q[a][1..]], hm[a := t]) && Chosen(hm, best, hm[a := t])
            && multiset(Heap.Push(Price, rest, t)) + Waiting(q[a := q[a][1..]]) == multiset(rest) + Waiting(q)
  {
    hide Heap.IsHeap, Heap.Push, Waiting, Fronts, HeadsOf;
    var a := best.from;
    var t := q[a][0];
    MovesOn(q, hm, best);
    Heap.PushHeap(Price, rest, t);
    HeadsWith(hm - {a}, a, t);
    assert (hm - {a})[a := t] == hm[a := t];
    TakeOne(q, a, q[a], multiset(rest), multiset(rest) + Waiting(q));
  }

  lemma NoNext(rest: seq<Tx>, q: Queues, hm: Heads, best: Tx)
    requires Popped(rest, q, hm, best) && q[best.from] == []
    ensures Ready(rest, q, hm - {best.from}) && Chosen(hm, best, hm - {best.from})
  {
    hide Heap.IsHeap, Fronts, HeadsOf;
    RunsOut(q, hm, best.from);
  }

  /** One round of the merge: the best head comes off and its sender's next transaction goes in. */
  method Next(byPrice: seq<Tx>, q: Queues, ghost hm: Heads)
    returns (best: Tx, byPrice': seq<Tx>, q': Queues, ghost hm': Heads)
    requires Ready(byPrice, q, hm) && byPrice != []
    ensures Ready(byPrice', q', hm') && Chosen(hm, best, hm')
    ensures multiset{best} + multiset(byPrice') + Waiting(q') == multiset(byPrice) + Waiting(q)
  {
    hide Ready, Popped, Chosen, Heap.Pop, Heap.Push, Waiting;
    PopBest(byPrice, q, hm);
    var (top, rest) := Heap.Pop(Price, byPrice);
    best := top;
    var a := best.from;
    if q[a] != [] {
      PutNext(rest, q, hm, best);
      byPrice', q', hm' := Heap.Push(Price, rest, q[a][0]), q[a := q[a][1..]], hm[a := q[a][0]];
    } else {
      NoNext(rest, q, hm, best);
      byPrice', q', hm' := rest, q, hm - {a};
    }
    Regroup(multiset(rest), best, Waiting(q), multiset(byPrice'), Waiting(q'));
  }

  lemma Regroup(r: multiset<Tx>, t: Tx, w: multiset<Tx>, r': multiset<Tx>, w': multiset<Tx>)
    requires r' + w' == r + w
    ensures multiset{t} + r' + w' == (r + multiset{t}) + w
  {
    assert multiset{t} + r' + w' == multiset{t} + (r' + w');
  }

  /** What is out is in order, and the heads come after it. */
  ghost predicate Merged(out: seq<Tx>, hm: Heads)
  {
    NonceKept(out) && BestFirst(out) && HeadsAfter(out, hm)
  }

  lemma MergeStep(out: seq<Tx>, hm: Heads, best: Tx, hm': Heads)
    requires Merged(out, hm) && Chosen(hm, best, hm')
    ensures Merged(out + [best], hm')
  {
    hide NonceKept, BestFirst, HeadsAfter;
    OutStep(out, hm, best);
    HeadsStep(out, hm, best, hm');
  }

  lemma NothingLeft(q: Queues, hm: Heads)
    requires Ready([], q, hm)
    ensures Waiting(q) == multiset{}
  {
    hide Waiting;
    forall a | a in q ensures q[a] == [] {
      if a in hm { HeadIn(hm, a); }
    }
    WaitingNothing(q);
  }

  /** Nothing is lost on the way from the queues through the heap to the output. */
  ghost predicate Progress(out: seq<Tx>, byPrice: seq<Tx>, q: Queues, hm: Heads, all: multiset<Tx>)
  {
    Ready(byPrice, q, hm) && Merged(out, hm) && multiset(out) + (multiset(byPrice) + Waiting(q)) == all
  }

  lemma ProgressStep(out: seq<Tx>, byPrice: seq<Tx>, q: Queues, hm: Heads, all: multiset<Tx>,
                     best: Tx, byPrice': seq<Tx>, q': Queues, hm': Heads)
    requires Progress(out, byPrice, q, hm, all) && Ready(byPrice', q', hm') && Chosen(hm, best, hm')
    requires multiset{best} + multiset(byPrice') + Waiting(q') == multiset(byPrice) + Waiting(q)
    ensures Progress(out + [best], byPrice', q', hm', all)
  {
    hide Ready, Merged, Waiting, Chosen;
    MergeStep(out, hm, best, hm');
    var after := multiset(byPrice') + Waiting(q');
    assert multiset{best} + multiset(byPrice') + Waiting(q') == multiset{best} + after;
    Accounted(multiset(out), best, multiset(byPrice) + Waiting(q), after);
    assert multiset(out + [best]) == multiset(out) + multiset{best};
  }

  lemma Finished(out: seq<Tx>, q: Queues, hm: Heads, all: multiset<Tx>)
    requires Progress(out, [], q, hm, all)
    ensures multiset(out) == all && |out| == |all| && NonceKept(out) && BestFirst(out)
  {
    NothingLeft(q, hm);
    hide Waiting, Ready, NonceKept, BestFirst;
    assert |multiset(out)| == |out|;
  }

  lemma Counted(out: seq<Tx>, byPrice: seq<Tx>, q: Queues, hm: Heads, all: multiset<Tx>)
    requires Progress(out, byPrice, q, hm, all) && byPrice != []
    ensures |out| < |all|
  {
    hide Ready, Merged, Waiting;
    assert |multiset(out)| == |out| && |multiset(byPrice)| == |byPrice|;
  }

  /** The merge loop, writing its output over the array. */
  method MergeInto(txs: array<Tx>, heads: seq<Tx>, queues: Queues, ghost hm0: Heads, ghost all: multiset<Tx>)
    requires Progress([], heads, queues, hm0, all) && |all| == txs.Length
    modifies txs
    ensures multiset(txs[..]) == all && NonceKept(txs[..]) && BestFirst(txs[..])
  {
    hide Progress, Ready, Chosen, Waiting, NonceKept, BestFirst;
    var byPrice, q, n := heads, queues, 0;
    ghost var hm := hm0;
    assert txs[..0] == [];
    while byPrice != []
      invariant 0 <= n <= txs.Length && Progress(txs[..n], byPrice, q, hm, all)
      decreases txs.Length - n
    {
      ProgressReady(txs[..n], byPrice, q, hm, all);
      Counted(txs[..n], byPrice, q, hm, all);
      ghost var out := txs[..n];
      var best, byPrice', q', hm' := Next(byPrice, q, hm);
      ProgressStep(out, byPrice, q, hm, all, best, byPrice', q', hm');
      txs[n] := best;
      assert txs[..n + 1] == out + [best];
      byPrice, q, hm := byPrice', q', hm';
      n := n + 1;
    }
    Finished(txs[..n], q, hm, all);
    assert txs[..n] == txs[..];
  }

  lemma ProgressReady(out: seq<Tx>, byPrice: seq<Tx>, q: Queues, hm: Heads, all: multiset<Tx>)
    requires Progress(out, byPrice, q, hm, all)
    ensures Ready(byPrice, q, hm)
  {}

  lemma Started(byPrice: seq<Tx>, q: Queues, hm: Heads, all: multiset<Tx>)
    requires Ready(byPrice, q, hm) && multiset(byPrice) + Waiting(q) == all
    ensures Progress([], byPrice, q, hm, all)
  {
    hide Waiting, Ready;
  }

  /** The same transactions, each sender's in nonce order, and at every place the best paid of the senders' next ones. */
  method SortByPriceAndNonce(txs: array<Tx>)
    modifies txs
    ensures multiset(txs[..]) == multiset(old(txs[..]))
    ensures NonceKept(txs[..]) && BestFirst(txs[..])
  {
    hide Grouped, AllOrdered, Waiting, Fronts, HeadsOf, Heap.IsHeap, Progress, NonceKept, BestFirst;
    ghost var all := multiset(txs[..]);
    var q := GroupBySender(txs[..]);
    q := SortAll(q);
    var heads, rest, hm := TakeHeads(q);
    heads := Heap.Init(Price, heads);
    Started(heads, rest, hm, all);
    MergeInto(txs, heads, rest, hm, all);
  }

  lemma Accounted(out: multiset<Tx>, best: Tx, before: multiset<Tx>, after: multiset<Tx>)
    requires multiset{best} + after == before
    ensures out + before == (out + multiset{best}) + after
  {}
}
