/** The AVL tree of avlmerkle/node.go as a value: leaves hold entries, inner nodes hold the largest
    key below them. Each function follows the method of the same name. */
module AvlTree {
  import opened Arithmetic
  import opened Bytes
  import opened Keys
  import opened Options

  type Val = seq<byte>

  datatype Tree =
    | Leaf(key: Key, value: Val)
    | Node(depth: nat, key: Key, left: Tree, right: Tree)

  function Depth(t: Tree): (d: nat)
  {
    if t.Leaf? then 0 else t.depth
  }

  /** `sync`: depth and key recomputed from the children. */
  function Sync(l: Tree, r: Tree): (t: Tree)
  {
    Node((if Depth(l) > Depth(r) then Depth(l) else Depth(r)) + 1,
         if Less(r.key, l.key) then l.key else r.key, l, r)
  }

  function Balance(t: Tree): (b: int)
    requires t.Node?
  {
    Depth(t.left) - Depth(t.right)
  }

  function LeftRotate(n: Tree): (t: Tree)
    requires n.Node? && n.right.Node?
  {
    Sync(Sync(n.left, n.right.left), n.right.right)
  }

  function RightRotate(n: Tree): (t: Tree)
    requires n.Node? && n.left.Node?
  {
    Sync(n.left.left, Sync(n.left.right, n.right))
  }

  /** A child that hangs two levels below its sibling has children of its own. */
  predicate Rotatable(n: Tree)
  {
    && n.Node?
    && (Balance(n) > 1 ==> n.left.Node? && (Balance(n.left) < 0 ==> n.left.right.Node?))
    && (Balance(n) < -1 ==> n.right.Node? && (Balance(n.right) > 0 ==> n.right.left.Node?))
  }

  /** The inner rotation of a double rotation; the node's own depth and key are not recomputed. */
  function Straighten(n: Tree): (t: Tree)
    requires Rotatable(n)
    ensures t.Node? && (Balance(n) > 1 ==> t.left.Node?) && (Balance(n) < -1 ==> t.right.Node?)
  {
    if Balance(n) > 1 && Balance(n.left) < 0 then n.(left := LeftRotate(n.left))
    else if Balance(n) < -1 && Balance(n.right) > 0 then n.(right := RightRotate(n.right))
    else n
  }

  function Rebalance(n: Tree): (t: Tree)
    requires Rotatable(n)
  {
    if Balance(n) > 1 then RightRotate(Straighten(n))
    else if Balance(n) < -1 then LeftRotate(Straighten(n))
    else n
  }

  /** Every depth is one more than the deeper child's, and children differ by at most one. */
  predicate Balanced(t: Tree)
  {
    t.Node? ==>
      && Balanced(t.left) && Balanced(t.right)
      && -1 <= Balance(t) <= 1
      && t.depth == 1 + if Depth(t.left) > Depth(t.right) then Depth(t.left) else Depth(t.right)
  }

  lemma {:induction false} SyncBalanced(l: Tree, r: Tree)
    requires Balanced(l) && Balanced(r) && -1 <= Depth(l) - Depth(r) <= 1
    ensures Balanced(Sync(l, r))
  {}

  lemma {:induction false} HeavyLeft(l: Tree, r: Tree)
    requires Balanced(l) && Balanced(r) && Depth(l) == Depth(r) + 2
    ensures Rotatable(Sync(l, r)) && Balanced(Rebalance(Sync(l, r)))
    ensures Depth(l) <= Depth(Rebalance(Sync(l, r))) <= Depth(l) + 1
  {
    hide Less;
    if Balance(l) < 0 {
      var m := l.right;
      SyncBalanced(l.left, m.left);
      SyncBalanced(m.right, r);
      SyncBalanced(Sync(l.left, m.left), Sync(m.right, r));
      assert Rebalance(Sync(l, r)) == Sync(Sync(l.left, m.left), Sync(m.right, r));
    } else {
      SyncBalanced(l.right, r);
      SyncBalanced(l.left, Sync(l.right, r));
      assert Rebalance(Sync(l, r)) == Sync(l.left, Sync(l.right, r));
    }
  }

  lemma {:induction false} HeavyRight(l: Tree, r: Tree)
    requires Balanced(l) && Balanced(r) && Depth(r) == Depth(l) + 2
    ensures Rotatable(Sync(l, r)) && Balanced(Rebalance(Sync(l, r)))
    ensures Depth(r) <= Depth(Rebalance(Sync(l, r))) <= Depth(r) + 1
  {
    hide Less;
    if Balance(r) > 0 {
      var m := r.left;
      SyncBalanced(l, m.left);
      SyncBalanced(m.right, r.right);
      SyncBalanced(Sync(l, m.left), Sync(m.right, r.right));
      assert Rebalance(Sync(l, r)) == Sync(Sync(l, m.left), Sync(m.right, r.right));
    } else {
      SyncBalanced(l, r.left);
      SyncBalanced(Sync(l, r.left), r.right);
      assert Rebalance(Sync(l, r)) == Sync(Sync(l, r.left), r.right);
    }
  }

  /** Siblings at most two levels apart are brought back within one, losing at most a level. */
  lemma {:induction false} RebalanceRestores(l: Tree, r: Tree)
    requires Balanced(l) && Balanced(r) && -2 <= Depth(l) - Depth(r) <= 2
    ensures Rotatable(Sync(l, r)) && Balanced(Rebalance(Sync(l, r)))
    ensures Depth(Sync(l, r)) - 1 <= Depth(Rebalance(Sync(l, r))) <= Depth(Sync(l, r))
    ensures -1 <= Depth(l) - Depth(r) <= 1 ==> Rebalance(Sync(l, r)) == Sync(l, r)
  {
    hide Less, Straighten, LeftRotate, RightRotate;
    if Depth(l) == Depth(r) + 2 {
      HeavyLeft(l, r);
    } else if Depth(r) == Depth(l) + 2 {
      HeavyRight(l, r);
    } else {
      SyncBalanced(l, r);
    }
  }

  function Insert(t: Tree, k: Key, v: Val): (t': Tree)
    requires Balanced(t)
    ensures Balanced(t') && Depth(t) <= Depth(t') <= Depth(t) + 1
  {
    if t.Leaf? then
      if k == t.key then Leaf(t.key, v)
      else if Less(k, t.key) then Sync(Leaf(k, v), t)
      else Sync(t, Leaf(k, v))
    else if AtMost(k, t.left.key) then
      var l := Insert(t.left, k, v);
      RebalanceRestores(l, t.right);
      Rebalance(Sync(l, t.right))
    else
      var r := Insert(t.right, k, v);
      RebalanceRestores(t.left, r);
      Rebalance(Sync(t.left, r))
  }

  function Lookup(t: Tree, k: Key): (r: Option<Val>)
  {
    if t.Leaf? then (if k == t.key then Some(t.value) else None)
    else if AtMost(k, t.left.key) then Lookup(t.left, k)
    else Lookup(t.right, k)
  }

  function MinKey(t: Tree): (k: Key)
  {
    if t.Leaf? then t.key else MinKey(t.left)
  }

  /** Every node's key is its right child's, and the left keys all lie below the right ones. */
  predicate Ordered(t: Tree)
  {
    t.Node? ==>
      && Ordered(t.left) && Ordered(t.right)
      && t.key == t.right.key && Less(t.left.key, MinKey(t.right))
  }

  function Contents(t: Tree): (m: map<Key, Val>)
  {
    if t.Leaf? then map[t.key := t.value] else Contents(t.left) + Contents(t.right)
  }

  /** Keys lie between the smallest key and the node's key, both of which are present:
      a node's key is the maximum of its subtree. */
  lemma {:induction false} KeyRange(t: Tree)
    requires Ordered(t)
    ensures AtMost(MinKey(t), t.key) && t.key in Contents(t) && MinKey(t) in Contents(t)
    ensures forall k :: k in Contents(t) ==> AtMost(MinKey(t), k) && AtMost(k, t.key)
  {
    if t.Node? {
      KeyRange(t.left);
      KeyRange(t.right);
      LessAround(MinKey(t.left), t.left.key, MinKey(t.right), t.right.key);
      hide Less;
      forall k | k in Contents(t) ensures AtMost(MinKey(t), k) && AtMost(k, t.key) {
        if k in Contents(t.right) {
          LessAround(MinKey(t), t.left.key, MinKey(t.right), k);
        } else {
          LessAround(k, t.left.key, MinKey(t.right), t.right.key);
        }
      }
    }
  }

  /** Joining two ordered trees keeps order and contents. */
  lemma {:induction false} SyncOrdered(l: Tree, r: Tree)
    requires Ordered(l) && Ordered(r) && Less(l.key, MinKey(r))
    ensures Ordered(Sync(l, r)) && Sync(l, r).key == r.key && MinKey(Sync(l, r)) == MinKey(l)
    ensures Contents(Sync(l, r)) == Contents(l) + Contents(r)
  {
    hide Less;
    KeyRange(r);
    LessAround(l.key, l.key, MinKey(r), r.key);
    Trichotomy(l.key, r.key);
  }

  lemma {:induction false} MapAssoc(a: map<Key, Val>, b: map<Key, Val>, c: map<Key, Val>)
    ensures (a + b) + c == a + (b + c)
  {}

  lemma {:induction false} LeftRotateOrdered(n: Tree)
    requires Ordered(n) && n.Node? && n.right.Node?
    ensures Ordered(LeftRotate(n)) && LeftRotate(n).key == n.key && MinKey(LeftRotate(n)) == MinKey(n)
    ensures Contents(LeftRotate(n)) == Contents(n)
  {
    var a, b, c := n.left, n.right.left, n.right.right;
    assert Ordered(a) && Ordered(b) && Ordered(c) && Less(a.key, MinKey(b)) && Less(b.key, MinKey(c)) && n.key == c.key;
    assert Contents(n) == Contents(a) + (Contents(b) + Contents(c)) && MinKey(n) == MinKey(a);
    hide Less, Ordered, Contents, MinKey, Sync;
    SyncOrdered(a, b);
    SyncOrdered(Sync(a, b), c);
    MapAssoc(Contents(a), Contents(b), Contents(c));
  }

  lemma {:induction false} RightRotateOrdered(n: Tree)
    requires Ordered(n) && n.Node? && n.left.Node?
    ensures Ordered(RightRotate(n)) && RightRotate(n).key == n.key && MinKey(RightRotate(n)) == MinKey(n)
    ensures Contents(RightRotate(n)) == Contents(n)
  {
    var a, b, c := n.left.left, n.left.right, n.right;
    assert Ordered(a) && Ordered(b) && Ordered(c) && Less(a.key, MinKey(b)) && Less(b.key, MinKey(c)) && n.key == c.key;
    assert Contents(n) == (Contents(a) + Contents(b)) + Contents(c) && MinKey(n) == MinKey(a);
    hide Less, Ordered, Contents, MinKey, Sync;
    SyncOrdered(b, c);
    SyncOrdered(a, Sync(b, c));
    MapAssoc(Contents(a), Contents(b), Contents(c));
  }

  /** Rebalancing moves nothing between keys. */
  lemma {:induction false} RebalanceOrdered(n: Tree)
    requires Ordered(n) && Rotatable(n)
    ensures Ordered(Rebalance(n)) && Rebalance(n).key == n.key && MinKey(Rebalance(n)) == MinKey(n)
    ensures Contents(Rebalance(n)) == Contents(n)
  {
    hide Less, LeftRotate, RightRotate;
    if Balance(n) > 1 {
      if Balance(n.left) < 0 { LeftRotateOrdered(n.left); }
      RightRotateOrdered(Straighten(n));
    } else if Balance(n) < -1 {
      if Balance(n.right) > 0 { RightRotateOrdered(n.right); }
      LeftRotateOrdered(Straighten(n));
    }
  }

  function Larger(a: Key, b: Key): (r: Key) { if Less(a, b) then b else a }
  function Smaller(a: Key, b: Key): (r: Key) { if Less(a, b) then a else b }

  /** Insertion is map update, and keeps the search order. */
  lemma {:induction false} InsertRefinesUpdate(t: Tree, k: Key, v: Val)
    requires Balanced(t) && Ordered(t)
    ensures Ordered(Insert(t, k, v)) && Contents(Insert(t, k, v)) == Contents(t)[k := v]
    ensures Insert(t, k, v).key == Larger(t.key, k) && MinKey(Insert(t, k, v)) == Smaller(k, MinKey(t))
  {
    hide Less, Rebalance, Sync, Balanced;
    if t.Leaf? {
      InsertAtLeaf(t, k, v);
    } else if AtMost(k, t.left.key) {
      InsertChildren(t, k, v);
      InsertRefinesUpdate(t.left, k, v);
      JoinLeft(t.left, Insert(t.left, k, v), t.right, k, v);
    } else {
      InsertChildren(t, k, v);
      InsertRefinesUpdate(t.right, k, v);
      JoinRight(t.left, t.right, Insert(t.right, k, v), k, v);
    }
  }

  lemma {:induction false} InsertAtLeaf(t: Tree, k: Key, v: Val)
    requires t.Leaf?
    ensures Ordered(Insert(t, k, v)) && Contents(Insert(t, k, v)) == Contents(t)[k := v]
    ensures Insert(t, k, v).key == Larger(t.key, k) && MinKey(Insert(t, k, v)) == Smaller(k, MinKey(t))
  {
    hide Less;
    Trichotomy(k, t.key);
    if Less(k, t.key) {
      SyncOrdered(Leaf(k, v), t);
    } else if k != t.key {
      SyncOrdered(t, Leaf(k, v));
    }
  }

  /** Insertion into an inner node rebuilds it around the changed child. */
  lemma {:induction false} InsertChildren(t: Tree, k: Key, v: Val)
    requires Balanced(t) && t.Node?
    ensures Balanced(t.left) && Balanced(t.right)
    ensures AtMost(k, t.left.key) ==>
              var l := Insert(t.left, k, v);
              Rotatable(Sync(l, t.right)) && Insert(t, k, v) == Rebalance(Sync(l, t.right))
    ensures !AtMost(k, t.left.key) ==>
              var r := Insert(t.right, k, v);
              Rotatable(Sync(t.left, r)) && Insert(t, k, v) == Rebalance(Sync(t.left, r))
  {
    hide Less, AtMost, Rebalance;
    if AtMost(k, t.left.key) {
      RebalanceRestores(Insert(t.left, k, v), t.right);
    } else {
      RebalanceRestores(t.left, Insert(t.right, k, v));
    }
  }

  /** A key at most the left child's is below every right key. */
  lemma {:induction false} JoinLeft(tl: Tree, l: Tree, r: Tree, k: Key, v: Val)
    requires Ordered(l) && Ordered(r) && Less(tl.key, MinKey(r)) && AtMost(k, tl.key) && Rotatable(Sync(l, r))
    requires Contents(l) == Contents(tl)[k := v] && l.key == Larger(tl.key, k)
    ensures var t := Rebalance(Sync(l, r));
            && Ordered(t) && t.key == Larger(r.key, k) && MinKey(t) == MinKey(l)
            && Contents(t) == (Contents(tl) + Contents(r))[k := v]
  {
    hide Less, Ordered, Contents, MinKey, Sync, Rebalance, Rotatable;
    KeyRange(r);
    Trichotomy(k, tl.key);
    LessAround(k, tl.key, MinKey(r), r.key);
    Trichotomy(k, r.key);
    assert k !in Contents(r) by {
      if k in Contents(r) { LessAround(k, tl.key, MinKey(r), k); }
    }
    SyncOrdered(l, r);
    RebalanceOrdered(Sync(l, r));
    assert Contents(tl)[k := v] + Contents(r) == (Contents(tl) + Contents(r))[k := v];
  }

  lemma {:induction false} JoinRight(l: Tree, tr: Tree, r: Tree, k: Key, v: Val)
    requires Ordered(l) && Ordered(r) && Less(l.key, MinKey(tr)) && !AtMost(k, l.key) && Rotatable(Sync(l, r))
    requires Contents(r) == Contents(tr)[k := v] && r.key == Larger(tr.key, k) && MinKey(r) == Smaller(k, MinKey(tr))
    ensures var t := Rebalance(Sync(l, r));
            && Ordered(t) && t.key == Larger(tr.key, k) && MinKey(t) == Smaller(k, MinKey(l))
            && Contents(t) == (Contents(l) + Contents(tr))[k := v]
  {
    hide Less, Ordered, Contents, MinKey, Sync, Rebalance, Rotatable;
    Trichotomy(k, l.key);
    KeyRange(l);
    LessAround(MinKey(l), l.key, k, k);
    Trichotomy(k, MinKey(l));
    SyncOrdered(l, r);
    RebalanceOrdered(Sync(l, r));
    assert Contents(l) + Contents(tr)[k := v] == (Contents(l) + Contents(tr))[k := v];
  }

  /** Lookup is map lookup. */
  lemma {:induction false} LookupRefinesGet(t: Tree, k: Key)
    requires Ordered(t)
    ensures Lookup(t, k) == if k in Contents(t) then Some(Contents(t)[k]) else None
  {
    if t.Node? {
      KeyRange(t.left);
      KeyRange(t.right);
      if AtMost(k, t.left.key) {
        LookupRefinesGet(t.left, k);
        if k in Contents(t.right) { LessAround(k, t.left.key, MinKey(t.right), k); }
      } else {
        LookupRefinesGet(t.right, k);
      }
    }
  }

  /** A whole tree: nothing, or a root. */
  type Root = Option<Tree>

  function Put(t: Root, k: Key, v: Val): (r: Root)
    requires t.Some? ==> Balanced(t.value)
    ensures r.Some? && Balanced(r.value)
  {
    if t.None? then Some(Leaf(k, v)) else Some(Insert(t.value, k, v))
  }

  function Get(t: Root, k: Key): (r: Option<Val>)
  {
    if t.None? then None else Lookup(t.value, k)
  }

  /** The tree after a run of Puts. */
  function PutAll(ops: seq<(Key, Val)>): (r: Root)
    ensures r.Some? ==> Balanced(r.value)
  {
    if ops == [] then None
    else var (k, v) := ops[|ops| - 1]; Put(PutAll(ops[..|ops| - 1]), k, v)
  }

  /** The value last put under k. */
  function LastPut(ops: seq<(Key, Val)>, k: Key): (r: Option<Val>)
  {
    if ops == [] then None
    else if ops[|ops| - 1].0 == k then Some(ops[|ops| - 1].1)
    else LastPut(ops[..|ops| - 1], k)
  }

  ghost function RootContents(t: Root): map<Key, Val>
  {
    if t.None? then map[] else Contents(t.value)
  }

  lemma {:induction false} PutAllOrdered(ops: seq<(Key, Val)>, k: Key)
    ensures PutAll(ops).Some? ==> Ordered(PutAll(ops).value)
    ensures (if k in RootContents(PutAll(ops)) then Some(RootContents(PutAll(ops))[k]) else None) == LastPut(ops, k)
  {
    if ops != [] {
      var prev, op := ops[..|ops| - 1], ops[|ops| - 1];
      PutAllOrdered(prev, k);
      if PutAll(prev).Some? {
        InsertRefinesUpdate(PutAll(prev).value, op.0, op.1);
      }
    }
  }

  /** After any run of Puts, Get returns the value last put under the key. */
  lemma {:induction false} GetAfterPuts(ops: seq<(Key, Val)>, k: Key)
    ensures Get(PutAll(ops), k) == LastPut(ops, k)
  {
    PutAllOrdered(ops, k);
    if PutAll(ops).Some? {
      LookupRefinesGet(PutAll(ops).value, k);
    }
  }

  function Leaves(t: Tree): (n: nat)
    ensures n >= 1
  {
    if t.Leaf? then 1 else Leaves(t.left) + Leaves(t.right)
  }

  /** A balanced tree of depth d has at least 2^(d/2) leaves, and no more than 2^d. */
  lemma {:induction false} DepthBound(t: Tree)
    requires Balanced(t)
    ensures Pow2(Depth(t) / 2) <= Leaves(t) <= Pow2(Depth(t))
  {
    if t.Node? {
      DepthBound(t.left);
      DepthBound(t.right);
      Halves(t.depth, Depth(t.left), Depth(t.right));
    }
  }

  lemma {:induction false} Halves(d: int, l: int, r: int)
    requires d >= 1 && l >= 0 && r >= 0 && d - 2 <= l <= d - 1 && d - 2 <= r <= d - 1
    ensures Pow2(d / 2) <= Pow2(l / 2) + Pow2(r / 2) && Pow2(l) + Pow2(r) <= Pow2(d)
  {
    Pow2Mono(l, d - 1);
    Pow2Mono(r, d - 1);
    if d >= 2 {
      var h := d / 2 - 1;
      Pow2Mono(h, l / 2);
      Pow2Mono(h, r / 2);
    }
  }

  /** Below 2^128 leaves the depth fits the byte it is stored in. */
  lemma {:induction false} DepthFitsByte(t: Tree, e: nat)
    requires Balanced(t) && e == 128 && Leaves(t) < Pow2(e)
    ensures Depth(t) < 256
  {
    DepthBound(t);
    if Depth(t) >= 256 {
      Pow2Mono(e, Depth(t) / 2);
      assert false;
    }
  }

  /** A run of n Puts leaves at most n leaves, one for each key. */
  lemma {:induction false} LeavesAreKeys(t: Tree)
    requires Ordered(t)
    ensures Leaves(t) == |Contents(t)|
  {
    if t.Node? {
      LeavesAreKeys(t.left);
      LeavesAreKeys(t.right);
      KeyRange(t.left);
      KeyRange(t.right);
      forall k | k in Contents(t.left) ensures k !in Contents(t.right) {
        if k in Contents(t.right) { LessAround(k, t.left.key, MinKey(t.right), k); }
      }
      var l, r := Contents(t.left), Contents(t.right);
      assert (l + r).Keys == l.Keys + r.Keys && l.Keys !! r.Keys;
    }
  }
}
