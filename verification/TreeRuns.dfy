/**
 * Runs over many handles on one store (avlmerkle/tree.go): handles are copied and reopened, share
 * nodes and caches, and are written, read and committed in any order. Every handle behaves as a
 * tree value of its own.
 */
module TreeRuns {
  import opened Bytes
  import opened Keys
  import opened Options
  import opened Collections
  import opened AvlTree
  import opened NodeCodec
  import opened Lru
  import opened MerkleTree

  datatype Op =
    | PutOp(i: nat, k: Key, v: Val)
    | GetOp(i: nat, k: Key)
    | CopyOp(i: nat)
    | CommitOp(i: nat)
    | ReopenOp(i: nat)

  /** One root per handle, and the trees that were committed. */
  datatype Model = Model(roots: seq<Root>, committed: set<AvlTree.Tree>)

  ghost predicate BalancedRoots(m: Model)
  {
    forall i :: 0 <= i < |m.roots| && m.roots[i].Some? ==> Balanced(m.roots[i].value)
  }

  /** The handle exists, a committed tree can be stored, a reopened one was committed. */
  ghost predicate Allowed(h: Hash, s: set<seq<byte>>, m: Model, op: Op)
  {
    && op.i < |m.roots|
    && (op.CommitOp? && m.roots[op.i].Some? ==>
          Storable(m.roots[op.i].value) && Encodings(h, m.roots[op.i].value) <= s)
    && (op.ReopenOp? && m.roots[op.i].Some? ==> m.roots[op.i].value in m.committed)
  }

  ghost function Next(m: Model, op: Op): (m': Model)
    requires op.i < |m.roots| && BalancedRoots(m)
    ensures BalancedRoots(m')
  {
    var r := m.roots[op.i];
    match op
    case PutOp(i, k, v) => m.(roots := m.roots[i := Put(r, k, v)])
    case GetOp(_, _) => m
    case CopyOp(_) => m.(roots := m.roots + [r])
    case CommitOp(_) => if r.None? then m else m.(committed := m.committed + {r.value})
    case ReopenOp(_) => m.(roots := m.roots + [r])
  }

  ghost function Answer(m: Model, op: Op): Option<Val>
    requires op.i < |m.roots|
  {
    if op.GetOp? then Get(m.roots[op.i], op.k) else None
  }

  ghost predicate Runnable(h: Hash, s: set<seq<byte>>, m: Model, ops: seq<Op>)
    requires BalancedRoots(m)
    decreases ops
  {
    ops == [] || (Allowed(h, s, m, ops[0]) && Runnable(h, s, Next(m, ops[0]), ops[1..]))
  }

  ghost function Answers(h: Hash, s: set<seq<byte>>, m: Model, ops: seq<Op>): seq<Option<Val>>
    requires BalancedRoots(m) && Runnable(h, s, m, ops)
    decreases ops
  {
    if ops == [] then [] else [Answer(m, ops[0])] + Answers(h, s, Next(m, ops[0]), ops[1..])
  }

  ghost predicate HandleOk(h: Hash, db: TreeDb, W: set<TreeNode>, t: MerkleTree.Tree, r: Root)
    reads t, t.root, db, t.cache
  {
    t.h == h && t.db == db && t.Valid(W) && t.Value() == r
  }

  ghost function Caches(ts: seq<MerkleTree.Tree>): set<Cache<Id, seq<byte>>>
  {
    set i | 0 <= i < |ts| :: ts[i].cache
  }

  /** The handles stand for the model's roots, and what the model calls committed is stored. */
  ghost predicate Represents(h: Hash, s: set<seq<byte>>, db: TreeDb, W: set<TreeNode>, ts: seq<MerkleTree.Tree>, m: Model)
    reads db, W, ts, Caches(ts)
  {
    && HashLaws(h) && CollisionFree(h, s) && StoreOk(h, s, db.store) && World(h, db.store, W)
    && Distinct(ts) && |ts| == |m.roots|
    && (forall i :: 0 <= i < |ts| ==> (ts[i].root != null ==> ts[i].root in W) && HandleOk(h, db, W, ts[i], m.roots[i]))
    && (forall t :: t in m.committed ==> Stored(h, db.store, t))
  }

  ghost function Handles(ts: seq<MerkleTree.Tree>): set<MerkleTree.Tree>
  {
    set i | 0 <= i < |ts| :: ts[i]
  }

  method PutStep(h: Hash, ghost s: set<seq<byte>>, db: TreeDb, ghost W: set<TreeNode>, ts: seq<MerkleTree.Tree>,
                 ghost m: Model, op: Op)
    returns (ghost W': set<TreeNode>)
    requires Represents(h, s, db, W, ts, m) && BalancedRoots(m) && Allowed(h, s, m, op) && op.PutOp?
    modifies Handles(ts)`root, W`leftNode, W`rightNode, Caches(ts)
    ensures Represents(h, s, db, W', ts, Next(m, op)) && W <= W' && fresh(W' - W)
  {
    hide CollisionFree, World, Stored, Balanced, Put, Get, HashLaws, StoreOk, BalancedRoots;
    W' := ts[op.i].Put(op.k, op.v, W);
  }

  method GetStep(h: Hash, ghost s: set<seq<byte>>, db: TreeDb, ghost W: set<TreeNode>, ts: seq<MerkleTree.Tree>,
                 ghost m: Model, op: Op)
    returns (answer: Option<Val>, ghost W': set<TreeNode>)
    requires Represents(h, s, db, W, ts, m) && BalancedRoots(m) && Allowed(h, s, m, op) && op.GetOp?
    modifies W`leftNode, W`rightNode, Caches(ts)
    ensures Represents(h, s, db, W', ts, Next(m, op)) && W <= W' && fresh(W' - W)
    ensures answer == Answer(m, op)
  {
    hide CollisionFree, World, Stored, Balanced, Put, Get, HashLaws, StoreOk, BalancedRoots;
    answer, W' := ts[op.i].Get(op.k, W);
  }

  method CopyStep(h: Hash, ghost s: set<seq<byte>>, db: TreeDb, ghost W: set<TreeNode>, ts: seq<MerkleTree.Tree>,
                  ghost m: Model, op: Op)
    returns (t: MerkleTree.Tree, ghost W': set<TreeNode>)
    requires Represents(h, s, db, W, ts, m) && BalancedRoots(m) && Allowed(h, s, m, op) && op.CopyOp?
    modifies {}
    ensures Represents(h, s, db, W', ts + [t], Next(m, op)) && W <= W' && fresh(W' - W) && fresh(t)
    ensures t.cache in Caches(ts)
  {
    hide CollisionFree, World, Stored, Balanced, Put, Get, HashLaws, StoreOk, BalancedRoots;
    t := ts[op.i].Copy(W);
    W' := W;
  }

  method CommitStep(h: Hash, ghost s: set<seq<byte>>, db: TreeDb, ghost W: set<TreeNode>, ts: seq<MerkleTree.Tree>,
                    ghost m: Model, op: Op)
    returns (ghost W': set<TreeNode>)
    requires Represents(h, s, db, W, ts, m) && BalancedRoots(m) && Allowed(h, s, m, op) && op.CommitOp?
    modifies db, W`leftNode, W`rightNode, Caches(ts)
    ensures Represents(h, s, db, W', ts, Next(m, op)) && W <= W' && fresh(W' - W)
  {
    hide CollisionFree, World, Stored, Balanced, Put, Get, HashLaws, StoreOk, BalancedRoots;
    ghost var store := db.store;
    W' := ts[op.i].Commit(s, W);
    KeepStored(h, store, db.store, m.committed);
  }

  method ReopenStep(h: Hash, ghost s: set<seq<byte>>, db: TreeDb, ghost W: set<TreeNode>, ts: seq<MerkleTree.Tree>,
                    ghost m: Model, op: Op)
    returns (t: MerkleTree.Tree, ghost W': set<TreeNode>)
    requires Represents(h, s, db, W, ts, m) && BalancedRoots(m) && Allowed(h, s, m, op) && op.ReopenOp?
    modifies {}
    ensures Represents(h, s, db, W', ts + [t], Next(m, op)) && W <= W' && fresh(W' - W) && fresh(t)
    ensures fresh(t.cache)
  {
    hide CollisionFree, World, Stored, Balanced, HashLaws, StoreOk, BalancedRoots, HandleOk;
    assert HandleOk(h, db, W, ts[op.i], m.roots[op.i]);
    t, W' := Reopen(h, db, ts[op.i], m.roots[op.i], W);
    forall i | 0 <= i < |ts| ensures HandleOk(h, db, W', ts[i], m.roots[i]) {
      LargerWorld(h, db, W, W', ts[i], m.roots[i]);
    }
  }

  lemma LargerWorld(h: Hash, db: TreeDb, W: set<TreeNode>, W': set<TreeNode>, t: MerkleTree.Tree, r: Root)
    requires HandleOk(h, db, W, t, r) && W <= W'
    ensures HandleOk(h, db, W', t, r)
  {}

  /** A new handle from the checksum of another. */
  method Reopen(h: Hash, db: TreeDb, t0: MerkleTree.Tree, ghost r: Root, ghost W: set<TreeNode>)
    returns (t: MerkleTree.Tree, ghost W': set<TreeNode>)
    requires HashLaws(h) && World(h, db.store, W) && HandleOk(h, db, W, t0, r)
    requires r.Some? ==> Stored(h, db.store, r.value)
    ensures fresh(t) && fresh(t.cache) && World(h, db.store, W') && W <= W' && fresh(W' - W)
    ensures HandleOk(h, db, W', t, r) && (t.root != null ==> t.root in W')
  {
    assert !IsRootId([]);
    hide World, NodeOk, Stored, Balanced, IdOf, IsRootId, HashLaws;
    var id := t0.Checksum(W);
    if r.Some? { RootIdentifier(h, r.value); }
    t := new MerkleTree.Tree.NewTree(h, db, if id.None? then [] else id.value, r);
    W' := W;
    if t.root != null {
      NodeGrows(h, db.store, {}, W, t.root);
      Adopt(h, db.store, W, t.root);
      W' := W + {t.root};
    }
  }

  lemma KeepStored(h: Hash, store: Store, store': Store, trees: set<AvlTree.Tree>)
    requires (forall t :: t in trees ==> Stored(h, store, t)) && Extends(store, store')
    ensures forall t :: t in trees ==> Stored(h, store', t)
  {
    hide Stored;
    forall t | t in trees ensures Stored(h, store', t) { StoredMonotone(h, store, store', t); }
  }

  lemma RootIdentifier(h: Hash, t: AvlTree.Tree)
    requires HashLaws(h)
    ensures IsRootId(IdOf(h, t))
  {
    hide RecordOf, EncodeRecord;
  }

  /** An empty store and one handle on the empty tree. */
  method Start(h: Hash, ghost s: set<seq<byte>>) returns (db: TreeDb, t: MerkleTree.Tree)
    requires HashLaws(h) && CollisionFree(h, s)
    ensures fresh(db) && fresh(t) && fresh(t.cache) && Represents(h, s, db, {}, [t], Model([None], {}))
  {
    assert !IsRootId([]);
    hide CollisionFree, Stored, Balanced, IsRootId, HashLaws;
    db := new TreeDb(map[]);
    t := new MerkleTree.Tree.NewTree(h, db, [], None);
  }

  method Step(h: Hash, ghost s: set<seq<byte>>, db: TreeDb, ghost W: set<TreeNode>, ts: seq<MerkleTree.Tree>,
              ghost m: Model, op: Op)
    returns (ts': seq<MerkleTree.Tree>, answer: Option<Val>, ghost W': set<TreeNode>)
    requires Represents(h, s, db, W, ts, m) && BalancedRoots(m) && Allowed(h, s, m, op)
    modifies db, Handles(ts)`root, W`leftNode, W`rightNode, Caches(ts)
    ensures Represents(h, s, db, W', ts', Next(m, op)) && answer == Answer(m, op)
    ensures fresh(W' - W) && fresh(Handles(ts') - Handles(ts)) && fresh(Caches(ts') - Caches(ts))
  {
    hide Represents, Next, BalancedRoots, Get;
    ts', answer := ts, None;
    match op {
      case PutOp(_, _, _) =>
        W' := PutStep(h, s, db, W, ts, m, op);
      case GetOp(_, _) =>
        answer, W' := GetStep(h, s, db, W, ts, m, op);
      case CommitOp(_) =>
        W' := CommitStep(h, s, db, W, ts, m, op);
      case CopyOp(_) =>
        var t, V := CopyStep(h, s, db, W, ts, m, op);
        ts', W' := ts + [t], V;
      case ReopenOp(_) =>
        var t, V := ReopenStep(h, s, db, W, ts, m, op);
        ts', W' := ts + [t], V;
    }
  }

  lemma OneHandle(t: MerkleTree.Tree)
    ensures Handles([t]) == {t} && Caches([t]) == {t.cache}
  {
    assert [t][0] == t;
    assert t in Handles([t]) && t.cache in Caches([t]);
  }

  /** From an empty store, any interleaving of operations answers as independent values would. */
  method RunFromStart(h: Hash, ghost s: set<seq<byte>>, ops: seq<Op>) returns (answers: seq<Option<Val>>)
    requires HashLaws(h) && CollisionFree(h, s) && Runnable(h, s, Model([None], {}), ops)
    ensures answers == Answers(h, s, Model([None], {}), ops) == LastPuts(h, s, Model([None], {}), [[]], ops)
  {
    AnswersAreLastPuts(h, s, Model([None], {}), [[]], ops);
    var db, t := Start(h, s);
    OneHandle(t);
    hide Represents, BalancedRoots, Answers, LastPuts, Runnable;
    answers := Run(h, s, db, {}, [t], Model([None], {}), ops);
  }

  /** Any interleaving of operations on any number of handles answers as independent values would. */
  method Run(h: Hash, ghost s: set<seq<byte>>, db: TreeDb, ghost W: set<TreeNode>, ts: seq<MerkleTree.Tree>,
             ghost m: Model, ops: seq<Op>)
    returns (answers: seq<Option<Val>>)
    requires Represents(h, s, db, W, ts, m) && BalancedRoots(m) && Runnable(h, s, m, ops)
    modifies db, Handles(ts)`root, W`leftNode, W`rightNode, Caches(ts)
    ensures answers == Answers(h, s, m, ops)
    decreases ops
  {
    hide Represents, BalancedRoots, Next, Answer, Handles, Caches;
    answers := [];
    if ops != [] {
      var ts', answer, W' := Step(h, s, db, W, ts, m, ops[0]);
      var rest := Run(h, s, db, W', ts', Next(m, ops[0]), ops[1..]);
      answers := [answer] + rest;
    }
  }

  type History = seq<(Key, Val)>

  /** The Puts each handle has seen, those of the handle it was copied or reopened from included. */
  function NextHistories(hs: seq<History>, op: Op): (r: seq<History>)
    requires op.i < |hs|
  {
    match op
    case PutOp(i, k, v) => hs[i := hs[i] + [(k, v)]]
    case GetOp(_, _) => hs
    case CommitOp(_) => hs
    case CopyOp(i) => hs + [hs[i]]
    case ReopenOp(i) => hs + [hs[i]]
  }

  ghost predicate Follows(m: Model, hs: seq<History>)
  {
    |m.roots| == |hs| && forall i :: 0 <= i < |hs| ==> m.roots[i] == PutAll(hs[i])
  }

  /** What a map per handle would answer. */
  ghost function LastPuts(h: Hash, s: set<seq<byte>>, m: Model, hs: seq<History>, ops: seq<Op>): seq<Option<Val>>
    requires BalancedRoots(m) && Runnable(h, s, m, ops) && Follows(m, hs)
    decreases ops
  {
    if ops == [] then []
    else
      FollowsNext(m, hs, ops[0]);
      [if ops[0].GetOp? then LastPut(hs[ops[0].i], ops[0].k) else None]
      + LastPuts(h, s, Next(m, ops[0]), NextHistories(hs, ops[0]), ops[1..])
  }

  lemma FollowsNext(m: Model, hs: seq<History>, op: Op)
    requires BalancedRoots(m) && Follows(m, hs) && op.i < |hs|
    ensures Follows(Next(m, op), NextHistories(hs, op))
  {
    hide Put;
    if op.PutOp? {
      var before := hs[op.i];
      var after := before + [(op.k, op.v)];
      assert after[..|after| - 1] == before;
    }
  }

  /** In every run, a Get through a handle returns the value last put under its key in that handle's own history. */
  lemma {:induction false} AnswersAreLastPuts(h: Hash, s: set<seq<byte>>, m: Model, hs: seq<History>, ops: seq<Op>)
    requires BalancedRoots(m) && Runnable(h, s, m, ops) && Follows(m, hs)
    ensures Answers(h, s, m, ops) == LastPuts(h, s, m, hs, ops)
    decreases ops
  {
    if ops != [] {
      FollowsNext(m, hs, ops[0]);
      if ops[0].GetOp? { GetAfterPuts(hs[ops[0].i], ops[0].k); }
      AnswersAreLastPuts(h, s, Next(m, ops[0]), NextHistories(hs, ops[0]), ops[1..]);
    }
  }
}
