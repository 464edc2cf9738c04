/**
 * The AVL tree on the heap (avlmerkle/node.go, avlmerkle/tree.go): nodes are shared between trees,
 * children are loaded from the store on demand, and rotations overwrite nodes in place.
 *
 * `W` is the set of nodes that some tree may reach. It is closed under child pointers, so a node
 * outside it is not referenced by any node inside it. Every node carries the tree value it stands
 * for in the ghost field `abs`.
 */
module MerkleTree {
  import opened Bytes
  import opened Keys
  import opened Options
  import opened AvlTree
  import opened NodeCodec
  import opened Lru

  class TreeNode {
    var leftNode: TreeNode?
    var rightNode: TreeNode?
    var left: Id
    var right: Id
    var id: Id
    var key: Key
    var value: Val
    var depth: nat
    ghost var abs: AvlTree.Tree

    constructor (k: Key, v: Val)
      ensures leftNode == null && rightNode == null && left == [] && right == [] && id == []
      ensures key == k && value == v && depth == 0 && abs == Leaf(k, v)
    {
      leftNode, rightNode, left, right, id := null, null, [], [], [];
      key, value, depth := k, v, 0;
      abs := Leaf(k, v);
    }

    /** A shallow copy. */
    constructor Clone(n: TreeNode)
      ensures leftNode == n.leftNode && rightNode == n.rightNode && left == n.left && right == n.right
      ensures id == n.id && key == n.key && value == n.value && depth == n.depth && abs == n.abs
    {
      leftNode, rightNode, left, right, id := n.leftNode, n.rightNode, n.left, n.right, n.id;
      key, value, depth := n.key, n.value, n.depth;
      abs := n.abs;
    }

    /** `*n = *nn`. */
    method Overwrite(n: TreeNode)
      modifies this
      ensures leftNode == n.leftNode && rightNode == n.rightNode && left == n.left && right == n.right
      ensures id == n.id && key == n.key && value == n.value && depth == n.depth && abs == n.abs
      ensures n != this ==> unchanged(n)
    {
      leftNode, rightNode, left, right, id := n.leftNode, n.rightNode, n.left, n.right, n.id;
      key, value, depth := n.key, n.value, n.depth;
      abs := n.abs;
    }

    /** What Encode writes. */
    function Record(): (r: NodeCodec.Record)
      reads this
    {
      if depth == 0 then LeafRecord(key, value) else InnerRecord(depth, key, left, right)
    }
  }

  class TreeDb {
    var store: Store
    constructor (s: Store) ensures store == s { store := s; }
  }

  /** A loaded child stands for the subtree; an unloaded one can be fetched from the store. */
  ghost predicate ChildOk(h: Hash, store: Store, W: set<TreeNode>, c: TreeNode?, t: AvlTree.Tree)
    reads W
  {
    if c == null then Stored(h, store, t) else c in W && c.abs == t
  }

  ghost predicate NodeOk(h: Hash, store: Store, W: set<TreeNode>, n: TreeNode)
    reads n, W
  {
    && n.depth == Depth(n.abs) && n.key == n.abs.key && n.id == IdOf(h, n.abs)
    && (n.abs.Leaf? ==> n.value == n.abs.value)
    && (n.abs.Node? ==> n.depth > 0 && ChildrenOk(h, store, W, n, n.abs.left, n.abs.right))
  }

  ghost predicate ChildrenOk(h: Hash, store: Store, W: set<TreeNode>, n: TreeNode, l: AvlTree.Tree, r: AvlTree.Tree)
    reads n, W
  {
    && n.left == IdOf(h, l) && ChildOk(h, store, W, n.leftNode, l)
    && n.right == IdOf(h, r) && ChildOk(h, store, W, n.rightNode, r)
  }

  ghost predicate World(h: Hash, store: Store, W: set<TreeNode>)
    reads W
  {
    forall n :: n in W ==> NodeOk(h, store, W, n)
  }

  /** Cached bytes are the stored ones. */
  ghost predicate CacheAgrees(cache: Cache<Id, seq<byte>>, store: Store)
    reads cache
  {
    cache.Valid() && forall id :: id in cache.items ==> id in store && store[id] == cache.items[id]
  }

  predicate IsRootId(id: Id)
  {
    |id| == 32 && exists i :: 0 <= i < 32 && id[i] != 0
  }

  class Tree {
    const h: Hash
    const db: TreeDb
    const cache: Cache<Id, seq<byte>>
    var root: TreeNode?

    constructor Open(h: Hash, db: TreeDb, cache: Cache<Id, seq<byte>>, root: TreeNode?)
      ensures this.h == h && this.db == db && this.cache == cache && this.root == root
    {
      this.h, this.db, this.cache, this.root := h, db, cache, root;
    }

    /** NewTree: the root is loaded unless the identifier is missing or zero. */
    constructor NewTree(h: Hash, db: TreeDb, id: Id, ghost t: Root)
      requires HashLaws(h) && (t.None? <==> !IsRootId(id))
      requires t.Some? ==> Stored(h, db.store, t.value) && id == IdOf(h, t.value) && Balanced(t.value)
      ensures this.h == h && this.db == db && fresh(cache) && Env() && Value() == t
      ensures root != null ==> fresh(root) && Balanced(root.abs) && NodeOk(h, db.store, {}, root)
    {
      this.h, this.db, this.root := h, db, null;
      this.cache := new Cache(2048);
      new;
      hide Stored, Balanced, IdOf;
      if IsRootId(id) {
        root := LoadNode(id, t.value);
      }
    }

    ghost predicate Env()
      reads db, cache
    {
      HashLaws(h) && CacheAgrees(cache, db.store)
    }

    /** loadNode of a stored subtree, through the cache. */
    method LoadNode(id: Id, ghost t: AvlTree.Tree) returns (n: TreeNode)
      requires Env() && Stored(h, db.store, t) && id == IdOf(h, t)
      modifies cache
      ensures Env() && fresh(n) && n.abs == t && NodeOk(h, db.store, {}, n)
    {
      hide EncodeRecord, DecodeRecord, Stored, IdOf, RecordOf, Without, Front;
      StoredDecodes(h, db.store, t);
      var data := cache.Get(id);
      if data.Some? {
        n := Decoded(data.value, t);
        return;
      }
      n := Decoded(db.store[id], t);
      var buf := EncodeRecord(n.Record());
      cache.Put(id, buf);
    }

    /** Decode into a fresh node; the identifier is recomputed from the decoded fields. */
    method Decoded(bytes: seq<byte>, ghost t: AvlTree.Tree) returns (n: TreeNode)
      requires DecodeRecord(bytes).Some?
      ensures fresh(n) && n.abs == t && DecodeRecord(bytes) == Some(n.Record())
      ensures HashLaws(h) && Stored(h, db.store, t) && n.Record() == RecordOf(h, t) ==> NodeOk(h, db.store, {}, n)
    {
      InnerDepth(bytes);
      hide EncodeRecord, DecodeRecord;
      var r := DecodeRecord(bytes).value;
      n := new TreeNode(r.key, []);
      if r.LeafRecord? {
        n.value := r.value;
      } else {
        n.depth, n.left, n.right := r.depth, r.left, r.right;
      }
      n.id := h(EncodeRecord(n.Record()));
      n.abs := t;
    }

    /** mustLoadLeft: the child is fetched once and kept in the node. */
    method MustLoadLeft(n: TreeNode, ghost W: set<TreeNode>, ghost t: AvlTree.Tree)
      returns (c: TreeNode, ghost W': set<TreeNode>)
      requires Env() && World(h, db.store, W)
      requires n.left == IdOf(h, t) && ChildOk(h, db.store, W, n.leftNode, t)
      requires n in W ==> n.abs.Node? && n.abs.left == t
      modifies n`leftNode, cache
      ensures Env() && World(h, db.store, W') && W <= W' && fresh(W' - W) && n !in W' - W
      ensures c in W' && c.abs == t && n.leftNode == c
      ensures old(n.leftNode) != null ==> c == old(n.leftNode) && W' == W
    {
      hide Stored, IdOf;
      W' := W;
      if n.leftNode != null {
        c := n.leftNode;
        return;
      }
      c := LoadNode(n.left, t);
      n.leftNode := c;
      W' := W + {c};
      WorldLoaded(h, db.store, W, c, n);
    }

    method MustLoadRight(n: TreeNode, ghost W: set<TreeNode>, ghost t: AvlTree.Tree)
      returns (c: TreeNode, ghost W': set<TreeNode>)
      requires Env() && World(h, db.store, W)
      requires n.right == IdOf(h, t) && ChildOk(h, db.store, W, n.rightNode, t)
      requires n in W ==> n.abs.Node? && n.abs.right == t
      modifies n`rightNode, cache
      ensures Env() && World(h, db.store, W') && W <= W' && fresh(W' - W) && n !in W' - W
      ensures c in W' && c.abs == t && n.rightNode == c
      ensures old(n.rightNode) != null ==> c == old(n.rightNode) && W' == W
    {
      hide Stored, IdOf;
      W' := W;
      if n.rightNode != null {
        c := n.rightNode;
        return;
      }
      c := LoadNode(n.right, t);
      n.rightNode := c;
      W' := W + {c};
      WorldLoaded(h, db.store, W, c, n);
    }

    /** `sync`, then `rehash`: depth, key and identifier follow from the two children. */
    method SyncNode(node: TreeNode, ghost W: set<TreeNode>, ghost l: AvlTree.Tree, ghost r: AvlTree.Tree)
      returns (ghost W': set<TreeNode>)
      requires Env() && World(h, db.store, W) && node !in W
      requires ChildrenOk(h, db.store, W, node, l, r)
      modifies node, cache
      ensures Env() && World(h, db.store, W') && W <= W' && fresh(W' - W) && node !in W'
      ensures NodeOk(h, db.store, W', node) && node.abs == Sync(l, r)
      ensures node.leftNode != null && node.rightNode != null
      ensures old(node.leftNode) != null ==> node.leftNode == old(node.leftNode)
      ensures old(node.rightNode) != null ==> node.rightNode == old(node.rightNode)
      ensures old(node.leftNode) != null && old(node.rightNode) != null ==> W' == W
    {
      hide Stored, IdOf, World, NodeOk, Sync, ChildOk, Env;
      var lc, rc;
      lc, W' := MustLoadLeft(node, W, l);
      ChildStays(h, db.store, W, W', node.rightNode, r);
      rc, W' := MustLoadRight(node, W', r);
      LoadedChildren(h, db.store, W', node, l, r);
      SetFromChildren(node, W', lc, rc);
    }

    /** The fields `sync` and `rehash` write. */
    method SetFromChildren(node: TreeNode, ghost W: set<TreeNode>, l: TreeNode, r: TreeNode)
      requires World(h, db.store, W) && node !in W && l in W && r in W
      requires ChildrenOk(h, db.store, W, node, l.abs, r.abs)
      modifies node`depth, node`key, node`id, node`abs
      ensures NodeOk(h, db.store, W, node) && node.abs == Sync(l.abs, r.abs)
    {
      hide Stored, IdOf, EncodeRecord, Less, World, NodeOk, Sync, ChildOk;
      NodeFields(h, db.store, W, l);
      NodeFields(h, db.store, W, r);
      node.depth := (if l.depth > r.depth then l.depth else r.depth) + 1;
      node.key := if Less(r.key, l.key) then l.key else r.key;
      node.id := h(EncodeRecord(node.Record()));
      node.abs := Sync(l.abs, r.abs);
      SyncedNode(h, db.store, W, node, l.abs, r.abs);
    }

    /** `update`: a copy of `src` with these children, synchronised and rehashed. */
    method UpdateChildren(src: TreeNode, ghost W: set<TreeNode>, left: Id, leftNode: TreeNode?, ghost l: AvlTree.Tree,
                          right: Id, rightNode: TreeNode?, ghost r: AvlTree.Tree)
      returns (c: TreeNode, ghost W': set<TreeNode>)
      requires Env() && World(h, db.store, W)
      requires left == IdOf(h, l) && ChildOk(h, db.store, W, leftNode, l)
      requires right == IdOf(h, r) && ChildOk(h, db.store, W, rightNode, r)
      modifies cache
      ensures Env() && World(h, db.store, W') && W <= W' && fresh(W' - W)
      ensures fresh(c) && c !in W' && NodeOk(h, db.store, W', c) && c.abs == Sync(l, r)
      ensures c.leftNode != null && c.rightNode != null
      ensures leftNode != null ==> c.leftNode == leftNode
      ensures rightNode != null ==> c.rightNode == rightNode
      ensures leftNode != null && rightNode != null ==> W' == W
    {
      hide Stored, IdOf, World, NodeOk, Sync, ChildOk, Env;
      c := new TreeNode.Clone(src);
      c.left, c.leftNode, c.right, c.rightNode := left, leftNode, right, rightNode;
      W' := SyncNode(c, W, l, r);
    }

    /** `*n = *nn` on a node outside the world, which then joins it. */
    method OverwriteAndAdopt(n: TreeNode, nn: TreeNode, ghost W: set<TreeNode>) returns (ghost W': set<TreeNode>)
      requires World(h, db.store, W) && n !in W && n != nn && NodeOk(h, db.store, W, nn)
      modifies n
      ensures W' == W + {n} && World(h, db.store, W') && n.abs == nn.abs
      ensures n.id == IdOf(h, n.abs) && ChildOk(h, db.store, W', n, n.abs)
    {
      hide Stored, IdOf, World, NodeOk, ChildOk;
      n.Overwrite(nn);
      SameFields(h, db.store, W, nn, n);
      Adopt(h, db.store, W, n);
      W' := W + {n};
      NodeFields(h, db.store, W', n);
    }

    /** leftRotate of a node that no other node refers to. */
    method LeftRotateNode(n: TreeNode, ghost W: set<TreeNode>) returns (r: TreeNode, ghost W': set<TreeNode>)
      requires Env() && World(h, db.store, W) && n !in W && NodeOk(h, db.store, W, n)
      requires n.abs.Node? && n.abs.right.Node?
      modifies n, cache
      ensures Env() && World(h, db.store, W') && W + {n} <= W' && fresh(W' - W - {n})
      ensures fresh(r) && r !in W' && NodeOk(h, db.store, W', r) && r.abs == LeftRotate(old(n.abs))
    {
      hide Stored, IdOf, World, NodeOk, ChildOk, Sync, Env;
      ghost var a, b, c := n.abs.left, n.abs.right.left, n.abs.right.right;
      PrivateChildren(h, db.store, W, n);
      var right, nn;
      right, W' := MustLoadRight(n, W, n.abs.right);
      NodeFields(h, db.store, W', right);
      ChildStays(h, db.store, W, W', n.leftNode, a);
      nn, W' := UpdateChildren(n, W', n.left, n.leftNode, a, right.left, right.leftNode, b);
      W' := OverwriteAndAdopt(n, nn, W');
      NodeFields(h, db.store, W', right);
      r, W' := UpdateChildren(right, W', n.id, n, Sync(a, b), right.right, right.rightNode, c);
    }

    method RightRotateNode(n: TreeNode, ghost W: set<TreeNode>) returns (r: TreeNode, ghost W': set<TreeNode>)
      requires Env() && World(h, db.store, W) && n !in W && NodeOk(h, db.store, W, n)
      requires n.abs.Node? && n.abs.left.Node?
      modifies n, cache
      ensures Env() && World(h, db.store, W') && W + {n} <= W' && fresh(W' - W - {n})
      ensures fresh(r) && r !in W' && NodeOk(h, db.store, W', r) && r.abs == RightRotate(old(n.abs))
    {
      hide Stored, IdOf, World, NodeOk, ChildOk, Sync, Env;
      ghost var a, b, c := n.abs.left.left, n.abs.left.right, n.abs.right;
      PrivateChildren(h, db.store, W, n);
      var left, nn;
      left, W' := MustLoadLeft(n, W, n.abs.left);
      NodeFields(h, db.store, W', left);
      ChildStays(h, db.store, W, W', n.rightNode, c);
      nn, W' := UpdateChildren(n, W', left.right, left.rightNode, b, n.right, n.rightNode, c);
      W' := OverwriteAndAdopt(n, nn, W');
      NodeFields(h, db.store, W', left);
      r, W' := UpdateChildren(left, W', left.left, left.leftNode, a, n.id, n, Sync(b, c));
    }

    /** The inner rotation's effect on n: a new child, with depth and key left as they were. */
    method ReplaceChildren(n: TreeNode, ghost V: set<TreeNode>, left: Id, leftNode: TreeNode?, ghost l: AvlTree.Tree,
                           right: Id, rightNode: TreeNode?, ghost r: AvlTree.Tree)
      requires n !in V && World(h, db.store, V) && n.abs.Node? && n.depth == n.abs.depth > 0 && n.key == n.abs.key
      requires left == IdOf(h, l) && ChildOk(h, db.store, V, leftNode, l)
      requires right == IdOf(h, r) && ChildOk(h, db.store, V, rightNode, r)
      modifies n
      ensures NodeOk(h, db.store, V, n) && n.abs == old(n.abs).(left := l, right := r)
    {
      hide Stored, IdOf, World, NodeOk, ChildOk, EncodeRecord;
      var nn := new TreeNode.Clone(n);
      nn.left, nn.leftNode, nn.right, nn.rightNode := left, leftNode, right, rightNode;
      nn.id := h(EncodeRecord(nn.Record()));
      nn.abs := n.abs.(left := l, right := r);
      n.Overwrite(nn);
      InnerNode(h, db.store, V, n);
    }

    /** balanceFactor of a node outside the world, loading its children. */
    method BalanceFactor(n: TreeNode, ghost V: set<TreeNode>) returns (b: int, ghost V': set<TreeNode>)
      requires Env() && World(h, db.store, V) && n !in V && NodeOk(h, db.store, V, n) && n.abs.Node?
      modifies n`leftNode, n`rightNode, cache
      ensures Env() && World(h, db.store, V') && V <= V' && fresh(V' - V) && n !in V'
      ensures NodeOk(h, db.store, V', n) && b == Balance(n.abs)
    {
      hide Stored, IdOf, World, ChildOk, Env;
      PrivateChildren(h, db.store, V, n);
      var lc, rc;
      lc, V' := MustLoadLeft(n, V, n.abs.left);
      ChildStays(h, db.store, V, V', n.rightNode, n.abs.right);
      rc, V' := MustLoadRight(n, V', n.abs.right);
      LoadedChildren(h, db.store, V', n, n.abs.left, n.abs.right);
      NodeFields(h, db.store, V', lc);
      NodeFields(h, db.store, V', rc);
      b := lc.depth - rc.depth;
    }

    /** The inner rotation of a double rotation, and the write of its result into n. */
    method StraightenLeft(n: TreeNode, left: TreeNode, ghost V: set<TreeNode>) returns (ghost V': set<TreeNode>)
      requires Env() && World(h, db.store, V) && n !in V && left !in V && n != left
      requires NodeOk(h, db.store, V, left) && left.abs.Node? && left.abs.right.Node?
      requires n.abs.Node? && left.abs == n.abs.left && n.depth == n.abs.depth > 0 && n.key == n.abs.key
      requires n.right == IdOf(h, n.abs.right) && ChildOk(h, db.store, V, n.rightNode, n.abs.right)
      modifies n, left, cache
      ensures Env() && World(h, db.store, V') && V + {left} <= V' && fresh(V' - V - {left}) && n !in V'
      ensures NodeOk(h, db.store, V', n) && n.abs == old(n.abs).(left := LeftRotate(old(n.abs.left)))
    {
      hide Stored, IdOf, World, ChildOk, Env, NodeOk, Sync;
      ghost var t := n.abs;
      var c, V2 := LeftRotateNode(left, V);
      ChildStays(h, db.store, V, V2, n.rightNode, t.right);
      Adopt(h, db.store, V2, c);
      V' := V2 + {c};
      ChildStays(h, db.store, V2, V', n.rightNode, t.right);
      NodeFields(h, db.store, V', c);
      ReplaceChildren(n, V', c.id, c, c.abs, n.right, n.rightNode, t.right);
    }

    /** The branch of rebalance for a left side two levels deeper. Only n and that child are written. */
    method RotateHeavyLeft(n: TreeNode, left: TreeNode, ghost V: set<TreeNode>)
      returns (r: TreeNode, ghost W': set<TreeNode>)
      requires Env() && World(h, db.store, V) && n !in V && left !in V && n != left
      requires Rotatable(n.abs) && Balance(n.abs) > 1 && NodeOk(h, db.store, V + {left}, n)
      requires NodeOk(h, db.store, V, left) && n.leftNode == left && left.abs == n.abs.left
      modifies n, left, cache
      ensures Env() && World(h, db.store, W') && V + {n, left} <= W' && fresh(W' - V - {n, left})
      ensures fresh(r) && r !in W' && NodeOk(h, db.store, W', r) && r.abs == Rebalance(old(n.abs))
    {
      hide Stored, IdOf, World, ChildOk, Env, NodeOk, Rotatable, Depth, Less;
      ghost var t := n.abs;
      HeavyLeftFacts(h, db.store, V, n, left);
      var bf, V1 := BalanceFactor(left, V);
      ChildStays(h, db.store, V, V1, n.rightNode, t.right);
      if bf < 0 {
        var V2 := StraightenLeft(n, left, V1);
        r, W' := RightRotateNode(n, V2);
      } else {
        Adopt(h, db.store, V1, left);
        ChildStays(h, db.store, V1, V1 + {left}, n.rightNode, t.right);
        NodeFields(h, db.store, V1 + {left}, left);
        StillOk(h, db.store, V1 + {left}, n);
        r, W' := RightRotateNode(n, V1 + {left});
      }
    }

    /** The inner rotation of a double rotation, and the write of its result into n. */
    method StraightenRight(n: TreeNode, right: TreeNode, ghost V: set<TreeNode>) returns (ghost V': set<TreeNode>)
      requires Env() && World(h, db.store, V) && n !in V && right !in V && n != right
      requires NodeOk(h, db.store, V, right) && right.abs.Node? && right.abs.left.Node?
      requires n.abs.Node? && right.abs == n.abs.right && n.depth == n.abs.depth > 0 && n.key == n.abs.key
      requires n.left == IdOf(h, n.abs.left) && ChildOk(h, db.store, V, n.leftNode, n.abs.left)
      modifies n, right, cache
      ensures Env() && World(h, db.store, V') && V + {right} <= V' && fresh(V' - V - {right}) && n !in V'
      ensures NodeOk(h, db.store, V', n) && n.abs == old(n.abs).(right := RightRotate(old(n.abs.right)))
    {
      hide Stored, IdOf, World, ChildOk, Env, NodeOk, Sync;
      ghost var t := n.abs;
      var c, V2 := RightRotateNode(right, V);
      ChildStays(h, db.store, V, V2, n.leftNode, t.left);
      Adopt(h, db.store, V2, c);
      V' := V2 + {c};
      ChildStays(h, db.store, V2, V', n.leftNode, t.left);
      NodeFields(h, db.store, V', c);
      ReplaceChildren(n, V', n.left, n.leftNode, t.left, c.id, c, c.abs);
    }

    /** The branch of rebalance for a right side two levels deeper. Only n and that child are written. */
    method RotateHeavyRight(n: TreeNode, right: TreeNode, ghost V: set<TreeNode>)
      returns (r: TreeNode, ghost W': set<TreeNode>)
      requires Env() && World(h, db.store, V) && n !in V && right !in V && n != right
      requires Rotatable(n.abs) && Balance(n.abs) < -1 && NodeOk(h, db.store, V + {right}, n)
      requires NodeOk(h, db.store, V, right) && n.rightNode == right && right.abs == n.abs.right
      modifies n, right, cache
      ensures Env() && World(h, db.store, W') && V + {n, right} <= W' && fresh(W' - V - {n, right})
      ensures fresh(r) && r !in W' && NodeOk(h, db.store, W', r) && r.abs == Rebalance(old(n.abs))
    {
      hide Stored, IdOf, World, ChildOk, Env, NodeOk, Rotatable, Depth, Less;
      ghost var t := n.abs;
      HeavyRightFacts(h, db.store, V, n, right);
      var bf, V1 := BalanceFactor(right, V);
      ChildStays(h, db.store, V, V1, n.leftNode, t.left);
      if bf > 0 {
        var V2 := StraightenRight(n, right, V1);
        r, W' := LeftRotateNode(n, V2);
      } else {
        Adopt(h, db.store, V1, right);
        ChildStays(h, db.store, V1, V1 + {right}, n.leftNode, t.left);
        NodeFields(h, db.store, V1 + {right}, right);
        StillOk(h, db.store, V1 + {right}, n);
        r, W' := LeftRotateNode(n, V1 + {right});
      }
    }

    /** rebalance of a new node n, whose child p is new as well; only the side of p may be too deep. */
    method RebalanceNode(n: TreeNode, ghost p: TreeNode, ghost V: set<TreeNode>)
      returns (r: TreeNode, ghost W': set<TreeNode>)
      requires Env() && World(h, db.store, V) && n !in V && p !in V && n != p && NodeOk(h, db.store, V, p)
      requires Rotatable(n.abs) && NodeOk(h, db.store, V + {p}, n)
      requires n.leftNode != null && n.rightNode != null
      requires Balance(n.abs) > 1 ==> n.leftNode == p && p.abs == n.abs.left
      requires Balance(n.abs) < -1 ==> n.rightNode == p && p.abs == n.abs.right
      modifies n, p, cache
      ensures Env() && World(h, db.store, W') && V + {p} <= W' && fresh(W' - V - {n, p})
      ensures (r == n || fresh(r)) && r !in W' && NodeOk(h, db.store, W', r) && r.abs == Rebalance(old(n.abs))
    {
      assert n.abs.Node?;
      hide Stored, IdOf, World, ChildOk, Env, Rotatable, Depth, Less;
      Adopt(h, db.store, V, p);
      PrivateChildren(h, db.store, V + {p}, n);
      hide NodeOk;
      LoadedFields(h, db.store, V + {p}, n);
      var bf := n.leftNode.depth - n.rightNode.depth;
      BalanceIs(n.abs);
      if bf > 1 {
        r, W' := RotateHeavyLeft(n, n.leftNode, V);
      } else if bf < -1 {
        r, W' := RotateHeavyRight(n, n.rightNode, V);
      } else {
        r, W' := n, V + {p};
      }
    }

    /** newLeafNode. */
    method NewLeaf(k: Key, v: Val) returns (n: TreeNode)
      ensures fresh(n) && n.abs == Leaf(k, v) && NodeOk(h, db.store, {}, n)
    {
      n := new TreeNode(k, v);
      n.id := h(EncodeRecord(n.Record()));
    }

    /** insert at a leaf with another key: a new inner node above the old leaf and the new one. */
    method SplitLeaf(n: TreeNode, k: Key, v: Val, ghost W: set<TreeNode>) returns (r: TreeNode, ghost W': set<TreeNode>)
      requires Env() && World(h, db.store, W) && n in W && n.abs.Leaf? && k != n.abs.key
      modifies cache
      ensures Env() && World(h, db.store, W') && W <= W' && fresh(W' - W)
      ensures fresh(r) && r !in W' && NodeOk(h, db.store, W', r) && r.abs == Insert(n.abs, k, v)
    {
      hide Stored, IdOf, World, ChildOk, Env, NodeOk, Sync, Less;
      NodeFields(h, db.store, W, n);
      var c := NewLeaf(k, v);
      NodeGrows(h, db.store, {}, W, c);
      Adopt(h, db.store, W, c);
      ghost var V := W + {c};
      NodeFields(h, db.store, V, c);
      NodeFields(h, db.store, V, n);
      if Less(k, n.key) {
        r, W' := UpdateChildren(n, V, c.id, c, c.abs, n.id, n, n.abs);
      } else {
        r, W' := UpdateChildren(n, V, n.id, n, n.abs, c.id, c, c.abs);
      }
    }

    /** insert at a leaf. */
    method InsertAtLeafNode(n: TreeNode, k: Key, v: Val, ghost W: set<TreeNode>)
      returns (r: TreeNode, ghost W': set<TreeNode>)
      requires Env() && World(h, db.store, W) && n in W && n.abs.Leaf?
      modifies cache
      ensures Env() && World(h, db.store, W') && W <= W' && fresh(W' - W)
      ensures fresh(r) && r !in W' && NodeOk(h, db.store, W', r) && r.abs == Insert(n.abs, k, v)
    {
      hide Stored, IdOf, World, ChildOk, Env, NodeOk, Sync, Less, EncodeRecord;
      NodeFields(h, db.store, W, n);
      if k != n.key {
        r, W' := SplitLeaf(n, k, v, W);
        return;
      }
      W' := W;
      r := new TreeNode.Clone(n);
      r.value := v;
      r.id := h(EncodeRecord(r.Record()));
      r.abs := Leaf(n.abs.key, v);
      LeafNode(h, db.store, W, r);
    }

    /** The two loads at the head of insert. */
    method LoadChildren(n: TreeNode, ghost W: set<TreeNode>) returns (l: TreeNode, r: TreeNode, ghost W': set<TreeNode>)
      requires Env() && World(h, db.store, W) && n in W && n.abs.Node?
      modifies n`leftNode, n`rightNode, cache
      ensures Env() && World(h, db.store, W') && W <= W' && fresh(W' - W)
      ensures n.leftNode == l && l in W' && l.abs == n.abs.left && l.key == l.abs.key
      ensures n.rightNode == r && r in W' && r.abs == n.abs.right
    {
      hide Stored, IdOf, World, ChildOk, Env, NodeOk;
      NodeFields(h, db.store, W, n);
      l, W' := MustLoadLeft(n, W, n.abs.left);
      NodeFields(h, db.store, W', n);
      r, W' := MustLoadRight(n, W', n.abs.right);
      NodeFields(h, db.store, W', l);
    }

    /** A copy of n around the new left child c, rebalanced. */
    method GrowLeft(n: TreeNode, c: TreeNode, rc: TreeNode, ghost V: set<TreeNode>)
      returns (r: TreeNode, ghost W': set<TreeNode>)
      requires Env() && World(h, db.store, V) && n in V && n.abs.Node? && rc in V && rc.abs == n.abs.right
      requires c !in V && NodeOk(h, db.store, V, c)
      requires Rotatable(Sync(c.abs, n.abs.right)) && Depth(c.abs) - Depth(n.abs.right) >= -1
      modifies c, cache
      ensures Env() && World(h, db.store, W') && V <= W' && fresh(W' - V - {c})
      ensures fresh(r) && r !in W' && NodeOk(h, db.store, W', r)
      ensures r.abs == Rebalance(Sync(old(c.abs), n.abs.right))
    {
      hide Stored, IdOf, World, ChildOk, Env, NodeOk, Rotatable, Rebalance, Less;
      ghost var t := Sync(c.abs, n.abs.right);
      BalanceIs(t);
      hide Depth;
      NodeFields(h, db.store, V, n);
      Adopt(h, db.store, V, c);
      ghost var U := V + {c};
      NodeFields(h, db.store, U, rc);
      NodeFields(h, db.store, U, c);
      var m, U' := UpdateChildren(n, U, c.id, c, c.abs, n.right, rc, rc.abs);
      r, W' := RebalanceNode(m, c, V);
    }

    method GrowRight(n: TreeNode, lc: TreeNode, c: TreeNode, ghost V: set<TreeNode>)
      returns (r: TreeNode, ghost W': set<TreeNode>)
      requires Env() && World(h, db.store, V) && n in V && n.abs.Node? && lc in V && lc.abs == n.abs.left
      requires c !in V && NodeOk(h, db.store, V, c)
      requires Rotatable(Sync(n.abs.left, c.abs)) && Depth(n.abs.left) - Depth(c.abs) <= 1
      modifies c, cache
      ensures Env() && World(h, db.store, W') && V <= W' && fresh(W' - V - {c})
      ensures fresh(r) && r !in W' && NodeOk(h, db.store, W', r)
      ensures r.abs == Rebalance(Sync(n.abs.left, old(c.abs)))
    {
      hide Stored, IdOf, World, ChildOk, Env, NodeOk, Rotatable, Rebalance, Less;
      ghost var t := Sync(n.abs.left, c.abs);
      BalanceIs(t);
      hide Depth;
      NodeFields(h, db.store, V, n);
      Adopt(h, db.store, V, c);
      ghost var U := V + {c};
      NodeFields(h, db.store, U, lc);
      NodeFields(h, db.store, U, c);
      var m, U' := UpdateChildren(n, U, n.left, lc, lc.abs, c.id, c, c.abs);
      r, W' := RebalanceNode(m, c, V);
    }

    /** insert: the nodes of W keep their meaning; only child pointers of W are filled in. */
    method InsertNode(n: TreeNode, k: Key, v: Val, ghost W: set<TreeNode>) returns (r: TreeNode, ghost W': set<TreeNode>)
      requires Env() && World(h, db.store, W) && n in W && Balanced(n.abs)
      modifies W`leftNode, W`rightNode, cache
      ensures Env() && World(h, db.store, W') && W <= W' && fresh(W' - W)
      ensures fresh(r) && r !in W' && NodeOk(h, db.store, W', r) && r.abs == Insert(n.abs, k, v)
      decreases n.abs
    {
      hide Stored, IdOf, World, ChildOk, Env, NodeOk, Sync, Less, Rebalance, Rotatable, Balance, AtMost, Insert, Depth;
      NodeFields(h, db.store, W, n);
      if n.depth == 0 {
        r, W' := InsertAtLeafNode(n, k, v, W);
        return;
      }
      InsertChildren(n.abs, k, v);
      InsertDepths(n.abs, k, v);
      hide Balanced;
      var lc, rc, V := LoadChildren(n, W);
      if AtMost(k, lc.key) {
        var c, U := InsertNode(lc, k, v, V);
        r, W' := GrowLeft(n, c, rc, U);
      } else {
        var c, U := InsertNode(rc, k, v, V);
        r, W' := GrowRight(n, lc, c, U);
      }
    }

    /** lookup: only child pointers are filled in. */
    method LookupNode(n: TreeNode, k: Key, ghost W: set<TreeNode>) returns (r: Option<Val>, ghost W': set<TreeNode>)
      requires Env() && World(h, db.store, W) && n in W
      modifies W`leftNode, W`rightNode, cache
      ensures Env() && World(h, db.store, W') && W <= W' && fresh(W' - W)
      ensures r == Lookup(n.abs, k)
      decreases n.abs
    {
      hide Stored, IdOf, World, ChildOk, Env, NodeOk, AtMost;
      ghost var t := n.abs;
      NodeFields(h, db.store, W, n);
      if n.depth == 0 {
        r, W' := if k == n.key then Some(n.value) else None, W;
        return;
      }
      var lc, W1 := MustLoadLeft(n, W, t.left);
      NodeFields(h, db.store, W1, lc);
      if AtMost(k, lc.key) {
        r, W' := LookupNode(lc, k, W1);
      } else {
        NodeFields(h, db.store, W1, n);
        var rc, W2 := MustLoadRight(n, W1, t.right);
        r, W' := LookupNode(rc, k, W2);
      }
    }

    /** The tree this handle stands for. */
    ghost function Value(): Root
      reads this, root
    {
      if root == null then None else Some(root.abs)
    }

    ghost predicate Valid(W: set<TreeNode>)
      reads this, root, db, cache
    {
      Env() && (root != null ==> root in W && Balanced(root.abs))
    }

    /** The root that Put installs. */
    method Inserted(k: Key, v: Val, ghost W: set<TreeNode>) returns (n: TreeNode, ghost W': set<TreeNode>)
      requires Valid(W) && World(h, db.store, W)
      modifies W`leftNode, W`rightNode, cache
      ensures Env() && World(h, db.store, W') && W <= W' && fresh(W' - W) && n in W'
      ensures Some(n.abs) == AvlTree.Put(old(Value()), k, v)
    {
      hide Stored, IdOf, World, NodeOk, Env, Insert, Balanced;
      ghost var V := W;
      if root == null {
        n := NewLeaf(k, v);
        NodeGrows(h, db.store, {}, V, n);
      } else {
        n, V := InsertNode(root, k, v, W);
      }
      Adopt(h, db.store, V, n);
      W' := V + {n};
    }

    method Put(k: Key, v: Val, ghost W: set<TreeNode>) returns (ghost W': set<TreeNode>)
      requires Valid(W) && World(h, db.store, W)
      modifies this`root, W`leftNode, W`rightNode, cache
      ensures Valid(W') && World(h, db.store, W') && W <= W' && fresh(W' - W)
      ensures Value() == AvlTree.Put(old(Value()), k, v)
    {
      hide World, Env, AvlTree.Put, Balanced;
      var n, V := Inserted(k, v, W);
      root := n;
      W' := V;
    }

    method Get(k: Key, ghost W: set<TreeNode>) returns (r: Option<Val>, ghost W': set<TreeNode>)
      requires Valid(W) && World(h, db.store, W)
      modifies W`leftNode, W`rightNode, cache
      ensures Valid(W') && World(h, db.store, W') && W <= W' && fresh(W' - W)
      ensures r == AvlTree.Get(Value(), k) && Value() == old(Value())
    {
      hide Stored, IdOf, World, NodeOk, Lookup, Balanced;
      if root == null {
        r, W' := None, W;
      } else {
        r, W' := LookupNode(root, k, W);
      }
    }

    /** A second handle on the same nodes, store and cache. */
    method Copy(ghost W: set<TreeNode>) returns (t: Tree)
      requires Valid(W)
      ensures fresh(t) && t.h == h && t.db == db && t.cache == cache && t.Valid(W) && t.Value() == Value()
    {
      t := new Tree.Open(h, db, cache, root);
    }

    /** The root's identifier, or nothing for an empty tree. */
    method Checksum(ghost W: set<TreeNode>) returns (id: Option<Id>)
      requires Valid(W) && World(h, db.store, W)
      ensures id == if Value().None? then None else Some(IdOf(h, Value().value))
    {
      hide IdOf, Stored, Balanced;
      id := if root == null then None else Some(root.id);
    }

    /** The depth-first walk of Commit: every node's bytes go into the batch, parents first. */
    method Collect(n: TreeNode, batch: Store, ghost W: set<TreeNode>) returns (batch': Store, ghost W': set<TreeNode>)
      requires Env() && World(h, db.store, W) && n in W
      modifies W`leftNode, W`rightNode, cache
      ensures Env() && World(h, db.store, W') && W <= W' && fresh(W' - W)
      ensures batch' == Written(h, n.abs, batch)
      decreases n.abs
    {
      hide Stored, IdOf, World, ChildOk, Env, NodeOk, EncodeRecord, RecordOf;
      ghost var t := n.abs;
      NodeFields(h, db.store, W, n);
      RecordFields(h, db.store, W, n);
      var b := batch[n.id := EncodeRecord(n.Record())];
      if n.depth == 0 {
        return b, W;
      }
      var lc, W1 := MustLoadLeft(n, W, t.left);
      var bl, W2 := Collect(lc, b, W1);
      NodeFields(h, db.store, W2, n);
      var rc, W3 := MustLoadRight(n, W2, t.right);
      batch', W' := Collect(rc, bl, W3);
    }

    /** Commit: the whole tree is in the store afterwards, and nothing stored before has changed. */
    method Commit(ghost s: set<seq<byte>>, ghost W: set<TreeNode>) returns (ghost W': set<TreeNode>)
      requires Valid(W) && World(h, db.store, W)
      requires CollisionFree(h, s) && StoreOk(h, s, db.store)
      requires root != null ==> Storable(root.abs) && Encodings(h, root.abs) <= s
      modifies db, W`leftNode, W`rightNode, cache
      ensures Valid(W') && World(h, db.store, W') && W <= W' && fresh(W' - W)
      ensures Value() == old(Value()) && (root != null ==> Stored(h, db.store, root.abs))
      ensures Extends(old(db.store), db.store) && StoreOk(h, s, db.store)
    {
      hide Stored, IdOf, World, Balanced, Storable, Encodings, Written, CollisionFree;
      if root == null {
        return W;
      }
      ghost var store := db.store;
      var batch;
      batch, W' := Collect(root, map[], W);
      CommitStores(h, s, root.abs, db.store);
      db.store := db.store + batch;
      WorldMonotone(h, store, db.store, W');
    }
  }

  lemma InnerDepth(bytes: seq<byte>)
    requires DecodeRecord(bytes).Some?
    ensures DecodeRecord(bytes).value.InnerRecord? ==> DecodeRecord(bytes).value.depth > 0
  {}

  /** What is stored under `id` is the tree t, complete. */
  ghost predicate Whole(h: Hash, store: Store, id: Id, t: Root)
  {
    if IsRootId(id) then t.Some? && Stored(h, store, t.value) && id == IdOf(h, t.value) && Balanced(t.value) else t.None?
  }

  /** NewTreeN: null stands for the error when the named root is not stored or does not decode, where NewTree
      panics. Only the root is read, so a tree that is stored in part is opened all the same. */
  method OpenTree(h: Hash, db: TreeDb, id: Id, ghost t: Root) returns (r: Tree?)
    requires HashLaws(h)
    ensures r == null <==> IsRootId(id) && (id !in db.store || DecodeRecord(db.store[id]).None?)
    ensures r != null ==> fresh(r) && fresh(r.cache) && r.h == h && r.db == db && (r.root == null <==> !IsRootId(id))
    ensures r != null && r.root != null ==> fresh(r.root) && DecodeRecord(db.store[id]) == Some(r.root.Record())
    ensures r != null && Whole(h, db.store, id, t) ==> r.Env() && r.Value() == t
    ensures r != null && Whole(h, db.store, id, t) && r.root != null ==>
              Balanced(r.root.abs) && NodeOk(h, db.store, {}, r.root)
    ensures Whole(h, db.store, id, t) ==> r != null
  {
    hide Stored, Balanced, IdOf, EncodeRecord, DecodeRecord, RecordOf;
    r := new Tree.NewTree(h, db, [], None);
    if IsRootId(id) {
      if Whole(h, db.store, id, t) { StoredDecodes(h, db.store, t.value); }
      if id !in db.store || DecodeRecord(db.store[id]).None? {
        return null;
      }
      var n := r.Decoded(db.store[id], if t.Some? then t.value else Leaf([], []));
      var buf := EncodeRecord(n.Record());
      r.cache.Put(id, buf);
      r.root := n;
    }
  }

  lemma NodeGrows(h: Hash, store: Store, V: set<TreeNode>, W: set<TreeNode>, n: TreeNode)
    requires V <= W && NodeOk(h, store, V, n)
    ensures NodeOk(h, store, W, n)
  {}

  lemma LeafNode(h: Hash, store: Store, W: set<TreeNode>, n: TreeNode)
    requires n.abs.Leaf? && n.depth == 0 && n.key == n.abs.key && n.value == n.abs.value
    requires n.id == h(EncodeRecord(n.Record()))
    ensures NodeOk(h, store, W, n)
  {
    hide EncodeRecord;
    assert n.Record() == RecordOf(h, n.abs);
  }

  lemma RecordFields(h: Hash, store: Store, W: set<TreeNode>, n: TreeNode)
    requires World(h, store, W) && n in W
    ensures n.Record() == RecordOf(h, n.abs) && n.id == IdOf(h, n.abs)
  {
    hide Stored, IdOf;
  }

  /** A larger store serves every node as well. */
  lemma WorldMonotone(h: Hash, store: Store, store': Store, W: set<TreeNode>)
    requires World(h, store, W) && Extends(store, store')
    ensures World(h, store', W)
  {
    hide Stored, IdOf;
    forall n | n in W ensures NodeOk(h, store', W, n) {
      assert NodeOk(h, store, W, n);
      if n.abs.Node? {
        if n.leftNode == null { StoredMonotone(h, store, store', n.abs.left); }
        if n.rightNode == null { StoredMonotone(h, store, store', n.abs.right); }
      }
    }
  }

  /** After an insertion only the grown side can be too deep. */
  lemma InsertDepths(t: AvlTree.Tree, k: Key, v: Val)
    requires Balanced(t) && t.Node?
    ensures Depth(Insert(t.left, k, v)) - Depth(t.right) >= -1
    ensures Depth(t.left) - Depth(Insert(t.right, k, v)) <= 1
  {
    hide Insert;
  }

  lemma BalanceIs(t: AvlTree.Tree)
    requires t.Node?
    ensures Balance(t) == Depth(t.left) - Depth(t.right)
  {}

  lemma LoadedFields(h: Hash, store: Store, W: set<TreeNode>, n: TreeNode)
    requires World(h, store, W) && n.abs.Node? && ChildrenOk(h, store, W, n, n.abs.left, n.abs.right)
    requires n.leftNode != null && n.rightNode != null
    ensures n.leftNode.depth == Depth(n.abs.left) && n.rightNode.depth == Depth(n.abs.right)
  {}

  lemma HeavyLeftFacts(h: Hash, store: Store, V: set<TreeNode>, n: TreeNode, left: TreeNode)
    requires Rotatable(n.abs) && Balance(n.abs) > 1 && NodeOk(h, store, V + {left}, n)
    requires n.leftNode == left && left.abs == n.abs.left
    ensures n.abs.Node? && n.abs.left.Node? && n.depth == n.abs.depth > 0 && n.key == n.abs.key && n.id == IdOf(h, n.abs)
    ensures n.left == IdOf(h, n.abs.left) && n.right == IdOf(h, n.abs.right)
    ensures ChildOk(h, store, V, n.rightNode, n.abs.right)
    ensures Balance(n.abs.left) < 0 ==> n.abs.left.right.Node?
  {
    hide Stored, IdOf;
  }

  lemma HeavyRightFacts(h: Hash, store: Store, V: set<TreeNode>, n: TreeNode, right: TreeNode)
    requires Rotatable(n.abs) && Balance(n.abs) < -1 && NodeOk(h, store, V + {right}, n)
    requires n.rightNode == right && right.abs == n.abs.right
    ensures n.abs.Node? && n.abs.right.Node? && n.depth == n.abs.depth > 0 && n.key == n.abs.key && n.id == IdOf(h, n.abs)
    ensures n.left == IdOf(h, n.abs.left) && n.right == IdOf(h, n.abs.right)
    ensures ChildOk(h, store, V, n.leftNode, n.abs.left)
    ensures Balance(n.abs.right) > 0 ==> n.abs.right.left.Node?
  {
    hide Stored, IdOf;
  }

  lemma StillOk(h: Hash, store: Store, V: set<TreeNode>, n: TreeNode)
    requires n.abs.Node? && n.depth == n.abs.depth > 0 && n.key == n.abs.key && n.id == IdOf(h, n.abs)
    requires ChildrenOk(h, store, V, n, n.abs.left, n.abs.right)
    ensures NodeOk(h, store, V, n)
  {}

  lemma LoadedChildren(h: Hash, store: Store, W: set<TreeNode>, n: TreeNode, l: AvlTree.Tree, r: AvlTree.Tree)
    requires n.left == IdOf(h, l) && n.leftNode != null && n.leftNode in W && n.leftNode.abs == l
    requires n.right == IdOf(h, r) && n.rightNode != null && n.rightNode in W && n.rightNode.abs == r
    ensures ChildrenOk(h, store, W, n, l, r)
  {}

  lemma PrivateChildren(h: Hash, store: Store, W: set<TreeNode>, n: TreeNode)
    requires NodeOk(h, store, W, n) && n.abs.Node?
    ensures ChildrenOk(h, store, W, n, n.abs.left, n.abs.right)
  {}

  lemma ChildStays(h: Hash, store: Store, W: set<TreeNode>, V: set<TreeNode>, c: TreeNode?, t: AvlTree.Tree)
    requires W <= V && ChildOk(h, store, W, c, t)
    ensures ChildOk(h, store, V, c, t)
  {}

  lemma SameFields(h: Hash, store: Store, W: set<TreeNode>, m: TreeNode, n: TreeNode)
    requires NodeOk(h, store, W, m) && n.leftNode == m.leftNode && n.rightNode == m.rightNode
    requires n.left == m.left && n.right == m.right && n.id == m.id && n.key == m.key && n.value == m.value
    requires n.depth == m.depth && n.abs == m.abs
    ensures NodeOk(h, store, W, n)
  {}

  /** A node outside the world joins it. */
  lemma Adopt(h: Hash, store: Store, W: set<TreeNode>, n: TreeNode)
    requires World(h, store, W) && NodeOk(h, store, W, n)
    ensures World(h, store, W + {n})
  {
    hide Stored, IdOf;
  }

  /** What the fields of a node of the world are. */
  lemma NodeFields(h: Hash, store: Store, W: set<TreeNode>, n: TreeNode)
    requires World(h, store, W) && n in W
    ensures n.depth == Depth(n.abs) && n.key == n.abs.key && n.id == IdOf(h, n.abs) && ChildOk(h, store, W, n, n.abs)
    ensures (n.depth == 0 <==> n.abs.Leaf?) && (n.abs.Leaf? ==> n.value == n.abs.value)
    ensures n.abs.Node? ==> ChildrenOk(h, store, W, n, n.abs.left, n.abs.right)
  {}

  /** Fields computed from two loaded children make a well-formed inner node. */
  lemma SyncedNode(h: Hash, store: Store, W: set<TreeNode>, n: TreeNode, l: AvlTree.Tree, r: AvlTree.Tree)
    requires ChildrenOk(h, store, W, n, l, r) && n.abs == Sync(l, r)
    requires n.depth == (if Depth(l) > Depth(r) then Depth(l) else Depth(r)) + 1
    requires n.key == (if Less(r.key, l.key) then l.key else r.key)
    requires n.id == h(EncodeRecord(n.Record()))
    ensures NodeOk(h, store, W, n)
  {
    hide Stored, EncodeRecord, Less;
    InnerId(h, l, r);
  }

  /** An inner node whose identifier was recomputed from its fields is well formed. */
  lemma InnerNode(h: Hash, store: Store, W: set<TreeNode>, n: TreeNode)
    requires n.abs.Node? && n.depth == n.abs.depth > 0 && n.key == n.abs.key
    requires ChildrenOk(h, store, W, n, n.abs.left, n.abs.right) && n.id == h(EncodeRecord(n.Record()))
    ensures NodeOk(h, store, W, n)
  {
    hide Stored, EncodeRecord, ChildOk;
    assert n.Record() == RecordOf(h, n.abs);
  }

  lemma InnerId(h: Hash, l: AvlTree.Tree, r: AvlTree.Tree)
    ensures var t := Sync(l, r);
            IdOf(h, t) == h(EncodeRecord(InnerRecord(t.depth, t.key, IdOf(h, l), IdOf(h, r))))
  {}

  lemma WorldLoaded(h: Hash, store: Store, W: set<TreeNode>, c: TreeNode, n: TreeNode)
    requires NodeOk(h, store, {}, c)
    requires forall m :: m in W && m != n ==> NodeOk(h, store, W, m)
    requires n in W ==> NodeOk(h, store, W + {c}, n)
    ensures World(h, store, W + {c})
  {
    hide Stored, IdOf;
  }
}
