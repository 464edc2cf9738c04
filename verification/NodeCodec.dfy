/** Encoding of tree nodes, their identifiers, and the store they are committed to
    (avlmerkle/node.go, avlmerkle/tree.go). */
module NodeCodec {
  import opened Bytes
  import opened Keys
  import opened Options
  import opened AvlTree

  type Id = seq<byte>
  type Hash = seq<byte> -> Id
  type Store = map<Id, seq<byte>>

  const UINT32: int := 0x1_0000_0000

  /** What a node's bytes hold. */
  datatype Record =
    | LeafRecord(key: Key, value: Val)
    | InnerRecord(depth: nat, key: Key, left: Id, right: Id)

  /** A four-byte little-endian length. */
  function Length4(n: nat): (s: seq<byte>)
    ensures |s| == 4
  {
    [n % 256, n / 0x100 % 256, n / 0x1_0000 % 256, n / 0x100_0000 % 256]
  }

  function FromLength4(s: seq<byte>): (n: nat)
    requires |s| == 4
    ensures n < UINT32
  {
    var b0: int, b1: int, b2: int, b3: int := s[0], s[1], s[2], s[3];
    b0 + b1 * 0x100 + b2 * 0x1_0000 + b3 * 0x100_0000
  }

  lemma Length4RoundTrip(n: nat)
    requires n < UINT32
    ensures FromLength4(Length4(n)) == n
  {
    var q1, q2, q3 := n / 0x100, n / 0x1_0000, n / 0x100_0000;
    assert n == n % 256 + 256 * q1;
    assert q2 == q1 / 256 && q3 == q2 / 256;
    assert q1 == q1 % 256 + 256 * q2 && q2 == q2 % 256 + 256 * q3 && q3 < 256;
  }

  /** encodeUncertainData: length, then the bytes. */
  function EncodeData(bs: seq<byte>): (s: seq<byte>)
  {
    Length4(|bs|) + bs
  }

  /** Encode: one byte of depth, the key, then the value of a leaf or the children of an inner node. */
  function EncodeRecord(n: Record): (s: seq<byte>)
  {
    if n.LeafRecord? then [0] + EncodeData(n.key) + EncodeData(n.value)
    else [n.depth % 256] + EncodeData(n.key) + n.left + n.right
  }

  /** bytes.Buffer.Read of n bytes at `pos`: a short read leaves zeros behind, reading past the end fails. */
  function ReadAt(data: seq<byte>, pos: nat, n: nat): (r: Option<(seq<byte>, nat)>)
    ensures r.Some? ==> |r.value.0| == n && pos <= r.value.1
    ensures pos + n <= |data| ==> r == Some((data[pos..pos + n], pos + n))
  {
    if n == 0 then (assert pos <= |data| ==> data[pos..pos + n] == []; Some(([], pos)))
    else if pos >= |data| then None
    else if pos + n <= |data| then Some((data[pos..pos + n], pos + n))
    else Some((data[pos..] + seq(pos + n - |data|, _ => 0), |data|))
  }

  /** decodeUncertainData. */
  function DecodeData(data: seq<byte>, pos: nat): (r: Option<(seq<byte>, nat)>)
  {
    match ReadAt(data, pos, 4)
    case None => None
    case Some((len, p)) => ReadAt(data, p, FromLength4(len))
  }

  /** Decode: a zero depth byte announces a leaf. */
  function DecodeRecord(data: seq<byte>): (r: Option<Record>)
  {
    if data == [] then None
    else
      match DecodeData(data, 1)
      case None => None
      case Some((key, p)) =>
        if data[0] == 0 then
          match DecodeData(data, p)
          case None => None
          case Some((value, _)) => Some(LeafRecord(key, value))
        else
          match ReadAt(data, p, 32)
          case None => None
          case Some((left, q)) =>
            match ReadAt(data, q, 32)
            case None => None
            case Some((right, _)) => Some(InnerRecord(data[0], key, left, right))
  }

  /** Records whose sizes the format can express. */
  predicate Fits(n: Record)
  {
    && |n.key| < UINT32
    && (n.LeafRecord? ==> |n.value| < UINT32)
    && (n.InnerRecord? ==> 0 < n.depth < 256 && |n.left| == 32 && |n.right| == 32)
  }

  lemma Middle(pre: seq<byte>, mid: seq<byte>, post: seq<byte>)
    ensures (pre + mid + post)[|pre|..|pre| + |mid|] == mid
  {}

  lemma SizeOf(bs: seq<byte>)
    ensures |EncodeData(bs)| == 4 + |bs|
  {}

  /** The number that four bytes from `pos` on stand for, the lowest first. */
  ghost function NumberAt(data: seq<byte>, pos: nat): int
    requires pos + 4 <= |data|
  {
    var b0: int, b1: int, b2: int, b3: int := data[pos], data[pos + 1], data[pos + 2], data[pos + 3];
    b0 + 256 * (b1 + 256 * (b2 + 256 * b3))
  }

  /** A length and that many bytes. */
  ghost predicate DataAt(data: seq<byte>, pos: nat, bs: seq<byte>)
  {
    pos + 4 + |bs| <= |data| && NumberAt(data, pos) == |bs| && data[pos + 4..pos + 4 + |bs|] == bs
  }

  /** The format: a leaf is 0, key and value; an inner node is its depth, the key and the identifiers of its left and
      of its right child. Nothing follows. */
  ghost predicate LaidOut(data: seq<byte>, n: Record)
  {
    && |data| > 0 && DataAt(data, 1, n.key)
    && var p := 5 + |n.key|;
       match n
       case LeafRecord(_, value) => data[0] == 0 && DataAt(data, p, value) && |data| == p + 4 + |value|
       case InnerRecord(depth, _, left, right) =>
         && data[0] == depth && |data| == p + 64 && |left| == |right| == 32
         && data[p..p + 32] == left && data[p + 32..] == right
  }

  lemma EncodedData(pre: seq<byte>, bs: seq<byte>, post: seq<byte>)
    requires |bs| < UINT32
    ensures DataAt(pre + EncodeData(bs) + post, |pre|, bs)
  {
    var data, n := pre + EncodeData(bs) + post, |bs|;
    Length4RoundTrip(n);
    var s := Length4(n);
    assert data[|pre|] == s[0] && data[|pre| + 1] == s[1] && data[|pre| + 2] == s[2] && data[|pre| + 3] == s[3];
    hide Length4;
    assert data[|pre| + 4..|pre| + 4 + |bs|] == bs;
  }

  lemma DecodedData(data: seq<byte>, pos: nat, bs: seq<byte>)
    requires DataAt(data, pos, bs)
    ensures DecodeData(data, pos) == Some((bs, pos + 4 + |bs|))
  {
    var s := data[pos..pos + 4];
    assert s[0] == data[pos] && s[1] == data[pos + 1] && s[2] == data[pos + 2] && s[3] == data[pos + 3];
    assert FromLength4(s) == |bs|;
  }

  lemma LeafLaidOut(n: Record)
    requires Fits(n) && n.LeafRecord?
    ensures LaidOut(EncodeRecord(n), n)
  {
    var data, k, v := EncodeRecord(n), EncodeData(n.key), EncodeData(n.value);
    SizeOf(n.key);
    SizeOf(n.value);
    EncodedData([0], n.key, v);
    EncodedData([0] + k, n.value, []);
    assert data == [0] + k + v == ([0] + k) + v + [];
    hide EncodeData, DataAt;
  }

  lemma InnerLaidOut(n: Record)
    requires Fits(n) && n.InnerRecord?
    ensures LaidOut(EncodeRecord(n), n)
  {
    var d: byte := n.depth;
    var data, k := EncodeRecord(n), EncodeData(n.key);
    SizeOf(n.key);
    EncodedData([d], n.key, n.left + n.right);
    assert data == [d] + k + n.left + n.right == [d] + k + (n.left + n.right);
    hide EncodeData, DataAt, EncodeRecord;
    Middle([d] + k, n.left, n.right);
    assert data[|[d] + k + n.left|..] == n.right;
  }

  /** The bytes of a record are laid out in the format, and bytes in the format decode to the record. */
  lemma EncodeLayout(n: Record, data: seq<byte>)
    requires Fits(n)
    ensures LaidOut(data, n) <==> data == EncodeRecord(n)
    ensures LaidOut(data, n) ==> DecodeRecord(data) == Some(n)
  {
    if n.LeafRecord? { LeafLaidOut(n); } else { InnerLaidOut(n); }
    hide EncodeRecord, Fits;
    if LaidOut(data, n) {
      assert data[..|data|] == data;
      LayoutDecodes(data, n, |data|);
      LayoutUnique(data, EncodeRecord(n), n);
    }
  }

  /** Bytes after the record are not looked at. */
  lemma LayoutDecodes(data: seq<byte>, n: Record, k: nat)
    requires k <= |data| && LaidOut(data[..k], n) && (n.InnerRecord? ==> n.depth > 0)
    ensures DecodeRecord(data) == Some(n)
  {
    var p := 5 + |n.key|;
    MoreData(data, k, 1, n.key);
    DecodedData(data, 1, n.key);
    if n.LeafRecord? {
      MoreData(data, k, p, n.value);
      DecodedData(data, p, n.value);
    }
    hide DataAt, DecodeData;
    if n.InnerRecord? {
      assert data[p..p + 32] == data[..k][p..p + 32] && data[p + 32..p + 64] == data[..k][p + 32..];
    }
  }

  lemma MoreData(data: seq<byte>, k: nat, pos: nat, bs: seq<byte>)
    requires k <= |data| && DataAt(data[..k], pos, bs)
    ensures DataAt(data, pos, bs)
  {
    assert data[pos + 4..pos + 4 + |bs|] == data[..k][pos + 4..pos + 4 + |bs|];
  }

  lemma SameData(c: seq<byte>, d: seq<byte>, pos: nat, bs: seq<byte>)
    requires DataAt(c, pos, bs) && DataAt(d, pos, bs)
    ensures c[pos..pos + 4 + |bs|] == d[pos..pos + 4 + |bs|]
  {
    var n := pos + 4 + |bs|;
    assert c[pos] == d[pos] && c[pos + 1] == d[pos + 1] && c[pos + 2] == d[pos + 2] && c[pos + 3] == d[pos + 3];
    assert c[pos..n] == c[pos..pos + 4] + c[pos + 4..n] && d[pos..n] == d[pos..pos + 4] + d[pos + 4..n];
  }

  lemma LayoutUnique(c: seq<byte>, d: seq<byte>, n: Record)
    requires LaidOut(c, n) && LaidOut(d, n)
    ensures c == d
  {
    var p := 5 + |n.key|;
    SameData(c, d, 1, n.key);
    assert c == [c[0]] + c[1..p] + c[p..] && d == [d[0]] + d[1..p] + d[p..];
    if n.LeafRecord? {
      SameData(c, d, p, n.value);
      assert c[p..] == c[p..p + 4 + |n.value|] && d[p..] == d[p..p + 4 + |n.value|];
    } else {
      assert c[p..] == c[p..p + 32] + c[p + 32..] && d[p..] == d[p..p + 32] + d[p + 32..];
    }
  }

  /** Decoding undoes encoding. */
  lemma DecodeEncode(n: Record)
    requires Fits(n)
    ensures DecodeRecord(EncodeRecord(n)) == Some(n)
  {
    hide EncodeRecord, DecodeRecord, LaidOut, Fits;
    EncodeLayout(n, EncodeRecord(n));
  }

  /** Different records have different bytes. */
  lemma EncodeInjective(m: Record, n: Record)
    requires Fits(m) && Fits(n) && EncodeRecord(m) == EncodeRecord(n)
    ensures m == n
  {
    DecodeEncode(m);
    DecodeEncode(n);
  }

  /** The record and identifier of a tree; `h` stands for SHA-256. */
  ghost function RecordOf(h: Hash, t: Tree): Record
    decreases t, 0
  {
    if t.Leaf? then LeafRecord(t.key, t.value)
    else InnerRecord(t.depth, t.key, IdOf(h, t.left), IdOf(h, t.right))
  }

  ghost function IdOf(h: Hash, t: Tree): Id
    decreases t, 1
  {
    h(EncodeRecord(RecordOf(h, t)))
  }

  /** Identifiers have 32 bytes and are never all zero. */
  ghost predicate HashLaws(h: Hash)
  {
    forall x {:trigger h(x)} :: |h(x)| == 32 && exists i :: 0 <= i < 32 && h(x)[i] != 0
  }

  /** Sizes that can be stored. */
  ghost predicate Storable(t: Tree)
  {
    && |t.key| < UINT32
    && (t.Leaf? ==> |t.value| < UINT32)
    && (t.Node? ==> 0 < t.depth < 256 && Storable(t.left) && Storable(t.right))
  }

  lemma StorableFits(h: Hash, t: Tree)
    requires HashLaws(h) && Storable(t)
    ensures Fits(RecordOf(h, t))
  {}

  /** The identifier of a tree is the hash of bytes in the format: its depth and key, then its value or the
      identifiers of its subtrees, the one with the smaller keys first. */
  lemma IdLayout(h: Hash, t: Tree) returns (data: seq<byte>)
    requires HashLaws(h) && Storable(t)
    ensures IdOf(h, t) == h(data) && |data| > 0 && DataAt(data, 1, t.key)
    ensures t.Leaf? ==> data[0] == 0 && DataAt(data, 5 + |t.key|, t.value) && |data| == 9 + |t.key| + |t.value|
    ensures t.Node? ==> data[0] == t.depth && data[5 + |t.key|..] == IdOf(h, t.left) + IdOf(h, t.right)
  {
    var n := RecordOf(h, t);
    StorableFits(h, t);
    data := EncodeRecord(n);
    hide EncodeRecord, DataAt, IdOf, HashLaws, Fits, DecodeRecord;
    EncodeLayout(n, data);
    IdIs(h, t);
    if t.Node? {
      var p := 5 + |t.key|;
      assert data[p..] == data[p..p + 32] + data[p + 32..];
    }
  }

  lemma IdIs(h: Hash, t: Tree)
    ensures IdOf(h, t) == h(EncodeRecord(RecordOf(h, t)))
  {}

  /** The bytes of every node of a tree. */
  ghost function Encodings(h: Hash, t: Tree): set<seq<byte>>
  {
    {EncodeRecord(RecordOf(h, t))} + if t.Leaf? then {} else Encodings(h, t.left) + Encodings(h, t.right)
  }

  /** No two of these byte strings collide. */
  ghost predicate CollisionFree(h: Hash, s: set<seq<byte>>)
  {
    forall x, y {:trigger h(x), h(y)} :: x in s && y in s && h(x) == h(y) ==> x == y
  }

  /** Equal identifiers mean equal trees, structure and contents alike. */
  lemma {:induction false} ChecksumDetermines(h: Hash, t: Tree, u: Tree, s: set<seq<byte>>)
    requires HashLaws(h) && Storable(t) && Storable(u) && IdOf(h, t) == IdOf(h, u)
    requires CollisionFree(h, s) && Encodings(h, t) <= s && Encodings(h, u) <= s
    ensures t == u
  {
    var m, n := RecordOf(h, t), RecordOf(h, u);
    StorableFits(h, t);
    StorableFits(h, u);
    assert EncodeRecord(m) in s && EncodeRecord(n) in s;
    hide EncodeRecord, Fits;
    EncodeInjective(m, n);
    if t.Node? {
      ChecksumDetermines(h, t.left, u.left, s);
      ChecksumDetermines(h, t.right, u.right, s);
    }
  }

  /** Every node of the tree is in the store under its identifier. */
  ghost predicate Stored(h: Hash, store: Store, t: Tree)
  {
    && Storable(t)
    && IdOf(h, t) in store && store[IdOf(h, t)] == EncodeRecord(RecordOf(h, t))
    && (t.Node? ==> Stored(h, store, t.left) && Stored(h, store, t.right))
  }

  /** What an entry of the store decodes to. */
  lemma StoredDecodes(h: Hash, store: Store, t: Tree)
    requires HashLaws(h) && Stored(h, store, t)
    ensures IdOf(h, t) in store && store[IdOf(h, t)] == EncodeRecord(RecordOf(h, t))
    ensures DecodeRecord(store[IdOf(h, t)]) == Some(RecordOf(h, t))
  {
    StorableFits(h, t);
    hide EncodeRecord, DecodeRecord, Fits;
    DecodeEncode(RecordOf(h, t));
  }

  /** Stores that agree on their common identifiers, the first inside the second. */
  ghost predicate Extends(store: Store, store': Store)
  {
    forall id :: id in store ==> id in store' && store'[id] == store[id]
  }

  lemma {:induction false} StoredMonotone(h: Hash, store: Store, store': Store, t: Tree)
    requires Stored(h, store, t) && Extends(store, store')
    ensures Stored(h, store', t)
  {
    if t.Node? {
      StoredMonotone(h, store, store', t.left);
      StoredMonotone(h, store, store', t.right);
    }
  }

  /** What a depth-first walk puts into a batch: every node's bytes under its identifier. */
  ghost function Written(h: Hash, t: Tree, batch: Store): Store
    decreases t
  {
    var b := batch[IdOf(h, t) := EncodeRecord(RecordOf(h, t))];
    if t.Leaf? then b else Written(h, t.right, Written(h, t.left, b))
  }

  /** Entries sit under the hash of their bytes, which come from the collision-free set s. */
  ghost predicate StoreOk(h: Hash, s: set<seq<byte>>, store: Store)
  {
    forall id :: id in store ==> store[id] in s && h(store[id]) == id
  }

  /** Writes of collision-free bytes never change an entry. */
  lemma {:induction false} WrittenExtends(h: Hash, s: set<seq<byte>>, t: Tree, batch: Store)
    requires CollisionFree(h, s) && Encodings(h, t) <= s && StoreOk(h, s, batch)
    ensures Extends(batch, Written(h, t, batch)) && StoreOk(h, s, Written(h, t, batch))
    decreases t
  {
    hide EncodeRecord;
    var e := EncodeRecord(RecordOf(h, t));
    assert e in s;
    var b := batch[IdOf(h, t) := e];
    if t.Node? {
      WrittenExtends(h, s, t.left, b);
      WrittenExtends(h, s, t.right, Written(h, t.left, b));
    }
  }

  lemma {:induction false} WrittenStored(h: Hash, s: set<seq<byte>>, t: Tree, batch: Store)
    requires CollisionFree(h, s) && Encodings(h, t) <= s && StoreOk(h, s, batch) && Storable(t)
    ensures Stored(h, Written(h, t, batch), t)
    decreases t
  {
    hide EncodeRecord;
    var e := EncodeRecord(RecordOf(h, t));
    assert e in s;
    var b := batch[IdOf(h, t) := e];
    if t.Node? {
      var bl := Written(h, t.left, b);
      var br := Written(h, t.right, bl);
      WrittenExtends(h, s, t.left, b);
      WrittenStored(h, s, t.left, b);
      WrittenExtends(h, s, t.right, bl);
      WrittenStored(h, s, t.right, bl);
      StoredMonotone(h, bl, br, t.left);
    }
  }

  /** Committing a tree stores all of it and leaves every earlier entry as it was. */
  lemma {:induction false} CommitStores(h: Hash, s: set<seq<byte>>, t: Tree, store: Store)
    requires CollisionFree(h, s) && Encodings(h, t) <= s && StoreOk(h, s, store) && Storable(t)
    ensures var store' := store + Written(h, t, map[]);
            Stored(h, store', t) && Extends(store, store') && StoreOk(h, s, store')
  {
    hide Encodings, Storable, Stored;
    WrittenExtends(h, s, t, map[]);
    WrittenStored(h, s, t, map[]);
    StoredMonotone(h, Written(h, t, map[]), store + Written(h, t, map[]), t);
  }
}
