/**
 * The header store of block_chain.go and chaindb.go: headers by hash, the hash at each height of the
 * main chain, and the head. A header is named by its hash, which is kept as a field.
 */
module ChainIndex {
  import opened Bytes
  import opened Options

  type Hash = seq<byte>

  datatype Header = Header(hash: Hash, prev: Hash, height: nat)

  type Headers = map<Hash, Header>
  type Index = map<nat, Hash>

  datatype State = State(headers: Headers, index: Index, last: Hash, current: Header)

  /** The headers a node may ever see: hashes tell them apart, and a child is one above its parent. */
  ghost predicate Linked(all: iset<Header>, genesis: Header)
  {
    && genesis in all && genesis.height == 0
    && (forall x, y :: x in all && y in all && x.hash == y.hash ==> x == y)
    && (forall x, y :: x in all && y in all && x.prev == y.hash ==> x.height == y.height + 1)
  }

  ghost predicate StoredOk(all: iset<Header>, headers: Headers, top: nat)
  {
    forall k :: k in headers ==> headers[k] in all && headers[k].hash == k && headers[k].height <= top
  }

  /** The index entry at h names a stored header of that height, whose parent is the entry below. */
  ghost predicate EntryOk(headers: Headers, index: Index, h: nat)
  {
    && h in index && index[h] in headers && headers[index[h]].height == h
    && (h > 0 ==> h - 1 in index && headers[index[h]].prev == index[h - 1])
  }

  ghost predicate IndexOk(headers: Headers, index: Index, top: nat)
  {
    && (forall h :: 0 <= h <= top ==> EntryOk(headers, index, h))
    && (forall h :: h in index ==> h <= top)
  }

  ghost predicate Inv(all: iset<Header>, genesis: Header, s: State)
  {
    && StoredOk(all, s.headers, s.current.height) && IndexOk(s.headers, s.index, s.current.height)
    && s.current in all && s.current.hash in s.headers && s.last == s.current.hash
    && s.current.height in s.index && s.index[s.current.height] == s.current.hash
    && 0 in s.index && s.index[0] == genesis.hash
  }

  /** The parent, if it is stored; a parent is always lower. */
  ghost predicate HasParent(headers: Headers, x: Header)
  {
    x.prev in headers && headers[x.prev].height < x.height
  }

  /** Walking parent links from k down to height h. */
  ghost function AncestorAt(headers: Headers, k: Hash, h: nat): Option<Header>
    decreases if k in headers then headers[k].height else 0
  {
    if k !in headers then None
    else if headers[k].height == h then Some(headers[k])
    else if HasParent(headers, headers[k]) then AncestorAt(headers, headers[k].prev, h)
    else None
  }

  /** The height at which the chain ending in k meets the indexed chain. */
  ghost function Fork(headers: Headers, index: Index, k: Hash): Option<nat>
    decreases if k in headers then headers[k].height else 0
  {
    if k !in headers then None
    else if headers[k].height in index && index[headers[k].height] == k then Some(headers[k].height)
    else if HasParent(headers, headers[k]) then Fork(headers, index, headers[k].prev)
    else None
  }

  /** The part of that chain above the fork, by height. */
  ghost function Branch(headers: Headers, index: Index, k: Hash): Index
    decreases if k in headers then headers[k].height else 0
  {
    if k !in headers || (headers[k].height in index && index[headers[k].height] == k) then map[]
    else if HasParent(headers, headers[k]) then Branch(headers, index, headers[k].prev)[headers[k].height := k]
    else map[]
  }

  /** The indexed hashes above height f. */
  ghost function Above(index: Index, f: nat): set<Hash>
  {
    set h | h in index && h > f :: index[h]
  }

  datatype Outcome = Written | Refused | Crashed

  /** writeBlock: a lower block is only stored, a child of the head extends the chain, and any other
      higher block switches the chain if its ancestors lead to it. */
  ghost function Write(s: State, b: Header): (State, Outcome)
  {
    if b.height <= s.current.height then (s.(headers := s.headers[b.hash := b]), Written)
    else if b.prev == s.current.hash then
      (State(s.headers[b.hash := b], s.index[b.height := b.hash], b.hash, b), Written)
    else if b.prev !in s.headers then (s, Crashed)
    else
      var fork := Fork(s.headers, s.index, b.prev);
      if fork.None? then (s, Refused)
      else
        (State((s.headers - Above(s.index, fork.value))[b.hash := b],
               (s.index + Branch(s.headers, s.index, b.prev))[b.height := b.hash], b.hash, b), Written)
  }

  lemma ParentLower(all: iset<Header>, genesis: Header, headers: Headers, top: nat, x: Header)
    requires Linked(all, genesis) && StoredOk(all, headers, top) && x in all && x.prev in headers
    ensures HasParent(headers, x) && headers[x.prev].height + 1 == x.height
  {
    var y := headers[x.prev];
    assert y in all && y.hash == x.prev;
  }

  /** What the branch looks like: one stored header at each height above the fork, none of them indexed. */
  ghost predicate BranchEntry(headers: Headers, index: Index, br: Index, f: nat, h: nat)
  {
    && h in br && br[h] in headers && headers[br[h]].height == h && (h in index ==> index[h] != br[h])
    && (if h == f + 1 then f in index && headers[br[h]].prev == index[f]
        else h - 1 in br && headers[br[h]].prev == br[h - 1])
  }

  ghost predicate BranchOk(headers: Headers, index: Index, br: Index, f: nat, top: nat, k: Hash)
  {
    && f <= top && f in index && (forall h :: h in br ==> f < h <= top)
    && (forall h :: f < h <= top ==> BranchEntry(headers, index, br, f, h))
    && (f == top ==> k == index[f]) && (f < top ==> top in br && k == br[top])
  }

  lemma {:induction false} BranchShape(all: iset<Header>, genesis: Header, headers: Headers, index: Index, top: nat, k: Hash)
    requires Linked(all, genesis) && StoredOk(all, headers, top) && k in headers && Fork(headers, index, k).Some?
    ensures BranchOk(headers, index, Branch(headers, index, k), Fork(headers, index, k).value, headers[k].height, k)
    decreases headers[k].height
  {
    var x := headers[k];
    if !(x.height in index && index[x.height] == k) {
      ParentLower(all, genesis, headers, top, x);
      BranchShape(all, genesis, headers, index, top, x.prev);
      var br, f := Branch(headers, index, x.prev), Fork(headers, index, k).value;
      hide Fork, Branch, Linked, StoredOk;
      BranchGrows(headers, index, br, f, x, k);
    }
  }

  lemma BranchGrows(headers: Headers, index: Index, br: Index, f: nat, x: Header, k: Hash)
    requires k in headers && headers[k] == x && x.height > 0 && (x.height in index ==> index[x.height] != k)
    requires BranchOk(headers, index, br, f, x.height - 1, x.prev)
    ensures BranchOk(headers, index, br[x.height := k], f, x.height, k)
  {
    var br' := br[x.height := k];
    forall h | f < h <= x.height ensures BranchEntry(headers, index, br', f, h) {
      if h < x.height { assert BranchEntry(headers, index, br, f, h); }
    }
  }

  // ---- every write keeps the invariant ----

  lemma StoreKeeps(all: iset<Header>, genesis: Header, s: State, b: Header)
    requires Linked(all, genesis) && b in all && Inv(all, genesis, s) && b.height <= s.current.height
    ensures Inv(all, genesis, s.(headers := s.headers[b.hash := b]))
  {
    var headers := s.headers[b.hash := b];
    forall h | 0 <= h <= s.current.height ensures EntryOk(headers, s.index, h) {
      assert EntryOk(s.headers, s.index, h);
      SameHash(all, genesis, s.headers[s.index[h]], b);
    }
  }

  lemma SameHash(all: iset<Header>, genesis: Header, x: Header, y: Header)
    requires Linked(all, genesis) && x in all && y in all
    ensures x.hash == y.hash ==> x == y
  {}

  /** Stored below the new head, and in the index or on the branch: such a header survives the switch. */
  lemma Survives(headers: Headers, index: Index, f: nat, top: nat, k: Hash)
    requires IndexOk(headers, index, top) && k in headers
    requires headers[k].height <= f || headers[k].height !in index || index[headers[k].height] != k
    ensures k in headers - Above(index, f)
  {
    forall h | h in index && h > f ensures index[h] != k {
      assert EntryOk(headers, index, h);
    }
  }

  /** The new index: the old entries up to the fork, the branch above it, the new head on top. */
  lemma SwitchedEntries(headers: Headers, index: Index, br: Index, f: nat, top: nat, b: Header, headers': Headers, h: nat)
    requires IndexOk(headers, index, top) && BranchOk(headers, index, br, f, top, b.prev) && b.height == top + 1
    requires b.hash in headers ==> headers[b.hash] == b
    requires headers' == (headers - Above(index, f))[b.hash := b]
    requires forall k :: k in headers ==> headers[k].height <= top
    requires h <= b.height
    ensures EntryOk(headers', (index + br)[b.height := b.hash], h)
  {
    if h <= top {
      if h <= f {
        assert EntryOk(headers, index, h);
        Survives(headers, index, f, top, index[h]);
      } else {
        assert BranchEntry(headers, index, br, f, h);
        Survives(headers, index, f, top, br[h]);
        if h > f + 1 { assert BranchEntry(headers, index, br, f, h - 1); }
      }
    }
  }

  lemma SwitchKeeps(all: iset<Header>, genesis: Header, s: State, b: Header)
    requires Linked(all, genesis) && b in all && Inv(all, genesis, s) && b.height > s.current.height
    requires b.prev in s.headers && Fork(s.headers, s.index, b.prev).Some?
    ensures var f, br := Fork(s.headers, s.index, b.prev).value, Branch(s.headers, s.index, b.prev);
            Inv(all, genesis, State((s.headers - Above(s.index, f))[b.hash := b], (s.index + br)[b.height := b.hash], b.hash, b))
  {
    var top := s.current.height;
    var f, br := Fork(s.headers, s.index, b.prev).value, Branch(s.headers, s.index, b.prev);
    ParentLower(all, genesis, s.headers, top, b);
    BranchShape(all, genesis, s.headers, s.index, top, b.prev);
    hide Fork, Branch;
    var headers, index := (s.headers - Above(s.index, f))[b.hash := b], (s.index + br)[b.height := b.hash];
    forall h | 0 <= h <= b.height ensures EntryOk(headers, index, h) {
      SwitchedEntries(s.headers, s.index, br, f, top, b, headers, h);
    }
  }

  lemma ExtendKeeps(all: iset<Header>, genesis: Header, s: State, b: Header)
    requires Linked(all, genesis) && b in all && Inv(all, genesis, s)
    requires b.height > s.current.height && b.prev == s.current.hash
    ensures Inv(all, genesis, State(s.headers[b.hash := b], s.index[b.height := b.hash], b.hash, b))
  {
    var headers, index := s.headers[b.hash := b], s.index[b.height := b.hash];
    ParentLower(all, genesis, s.headers, s.current.height, b);
    SameHash(all, genesis, s.headers[s.current.hash], s.current);
    forall h | 0 <= h <= b.height ensures EntryOk(headers, index, h) {
      if h < b.height {
        assert EntryOk(s.headers, s.index, h);
        SameHash(all, genesis, s.headers[s.index[h]], b);
      }
    }
  }

  /** One write keeps the index in step with the stored chain; a refused one changes nothing. */
  lemma WriteKeeps(all: iset<Header>, genesis: Header, s: State, b: Header)
    requires Linked(all, genesis) && b in all && Inv(all, genesis, s)
    ensures var (s', outcome) := Write(s, b);
            && Inv(all, genesis, s') && s'.current.height >= s.current.height
            && (outcome != Written ==> s' == s)
            && (outcome == Written ==> b.hash in s'.headers
                                       && s'.current == if b.height > s.current.height then b else s.current)
  {
    hide Inv, Linked;
    if b.height <= s.current.height {
      StoreKeeps(all, genesis, s, b);
    } else if b.prev == s.current.hash {
      ExtendKeeps(all, genesis, s, b);
    } else if b.prev in s.headers && Fork(s.headers, s.index, b.prev).Some? {
      SwitchKeeps(all, genesis, s, b);
    }
  }

  ghost function WriteAll(s: State, blocks: seq<Header>): State
    decreases |blocks|
  {
    if blocks == [] then s else Write(WriteAll(s, blocks[..|blocks| - 1]), blocks[|blocks| - 1]).0
  }

  /** The state a new node starts from. */
  ghost function Genesis(g: Header): State
  {
    State(map[g.hash := g], map[0 := g.hash], g.hash, g)
  }

  lemma {:induction false} RunKeeps(all: iset<Header>, genesis: Header, blocks: seq<Header>)
    requires Linked(all, genesis) && forall i :: 0 <= i < |blocks| ==> blocks[i] in all
    ensures Inv(all, genesis, WriteAll(Genesis(genesis), blocks))
    decreases |blocks|
  {
    if blocks != [] {
      RunKeeps(all, genesis, blocks[..|blocks| - 1]);
      WriteKeeps(all, genesis, WriteAll(Genesis(genesis), blocks[..|blocks| - 1]), blocks[|blocks| - 1]);
    }
  }

  /** The indexed hash at h is the head's ancestor at h. */
  lemma {:induction false} IndexedAncestor(all: iset<Header>, genesis: Header, s: State, top: nat, h: nat)
    requires Linked(all, genesis) && Inv(all, genesis, s) && h <= top <= s.current.height
    ensures EntryOk(s.headers, s.index, top) && EntryOk(s.headers, s.index, h)
    ensures AncestorAt(s.headers, s.index[top], h) == Some(s.headers[s.index[h]])
    decreases top
  {
    assert EntryOk(s.headers, s.index, top) && EntryOk(s.headers, s.index, h);
    if h < top {
      assert EntryOk(s.headers, s.index, top - 1);
      ParentLower(all, genesis, s.headers, s.current.height, s.headers[s.index[top]]);
      IndexedAncestor(all, genesis, s, top - 1, h);
    }
  }

  /** After any run of writes the height index up to the head is exactly the head's chain of parents. */
  lemma IndexAfterRun(all: iset<Header>, genesis: Header, blocks: seq<Header>, h: nat)
    requires Linked(all, genesis) && forall i :: 0 <= i < |blocks| ==> blocks[i] in all
    requires h <= WriteAll(Genesis(genesis), blocks).current.height
    ensures var s := WriteAll(Genesis(genesis), blocks);
            h in s.index && s.index[h] in s.headers && AncestorAt(s.headers, s.current.hash, h) == Some(s.headers[s.index[h]])
  {
    var s := WriteAll(Genesis(genesis), blocks);
    RunKeeps(all, genesis, blocks);
    hide WriteAll;
    IndexedAncestor(all, genesis, s, s.current.height, h);
  }

  /** A store with some other headers removed, and b added on top, walks the same way below b. */
  lemma {:induction false} SameAncestors(headers: Headers, headers': Headers, b: Header, k: Hash, h: nat)
    requires forall i :: i in headers' && i != b.hash ==> i in headers && headers'[i] == headers[i]
    requires b.hash in headers' && headers'[b.hash] == b
    requires k in headers' && headers'[k].height < b.height && AncestorAt(headers', k, h).Some?
    ensures AncestorAt(headers, k, h) == AncestorAt(headers', k, h)
    decreases headers'[k].height
  {
    if headers'[k].height != h { SameAncestors(headers, headers', b, headers'[k].prev, h); }
  }

  lemma WriteStores(s: State, b: Header)
    ensures var (s', outcome) := Write(s, b);
            && (outcome == Written ==> b.hash in s'.headers && s'.headers[b.hash] == b)
            && (forall i :: i in s'.headers && i != b.hash ==> i in s.headers && s'.headers[i] == s.headers[i])
  {}

  /** A switch removes nothing of the chain that leads to the new head. */
  lemma NewChainKept(all: iset<Header>, genesis: Header, s: State, b: Header, h: nat)
    requires Linked(all, genesis) && b in all && Inv(all, genesis, s)
    requires b.height > s.current.height && Write(s, b).1 == Written && h < b.height
    ensures var s' := Write(s, b).0;
            && AncestorAt(s'.headers, b.hash, h).Some?
            && AncestorAt(s.headers, b.prev, h) == AncestorAt(s'.headers, b.hash, h)
  {
    var s' := Write(s, b).0;
    WriteKeeps(all, genesis, s, b);
    WriteStores(s, b);
    hide Write;
    IndexedAncestor(all, genesis, s', b.height, h);
    SameAncestors(s.headers, s'.headers, b, b.prev, h);
  }

  // ---- which blocks are accepted, and what a write leaves ----

  /** x is on the chain of parents that ends in k. */
  ghost predicate OnChain(headers: Headers, k: Hash, x: Header)
  {
    AncestorAt(headers, k, x.height) == Some(x)
  }

  lemma {:induction false} AncestorLower(headers: Headers, k: Hash, h: nat)
    requires AncestorAt(headers, k, h).Some?
    ensures k in headers && h <= headers[k].height
    decreases if k in headers then headers[k].height else 0
  {
    if headers[k].height != h { AncestorLower(headers, headers[k].prev, h); }
  }

  /** Whoever has an indexed ancestor meets the index there or above. */
  lemma {:induction false} MeetsAbove(headers: Headers, index: Index, k: Hash, x: Header)
    requires OnChain(headers, k, x) && x.height in index && index[x.height] == x.hash
    requires forall i :: i in headers ==> headers[i].hash == i
    ensures Fork(headers, index, k).Some? && Fork(headers, index, k).value >= x.height
    decreases if k in headers then headers[k].height else 0
  {
    AncestorLower(headers, k, x.height);
    if headers[k].height != x.height && !(headers[k].height in index && index[headers[k].height] == k) {
      MeetsAbove(headers, index, headers[k].prev, x);
    }
  }

  /** Below the fork the ancestors are the indexed headers. */
  lemma {:induction false} MeetsBelow(all: iset<Header>, genesis: Header, s: State, k: Hash, h: nat)
    requires Linked(all, genesis) && Inv(all, genesis, s) && k in s.headers
    requires Fork(s.headers, s.index, k).Some? && h <= Fork(s.headers, s.index, k).value
    ensures Fork(s.headers, s.index, k).value <= s.current.height && EntryOk(s.headers, s.index, h)
    ensures AncestorAt(s.headers, k, h) == Some(s.headers[s.index[h]])
    decreases s.headers[k].height
  {
    var x := s.headers[k];
    if x.height in s.index && s.index[x.height] == k {
      IndexedAncestor(all, genesis, s, x.height, h);
    } else {
      MeetsBelow(all, genesis, s, x.prev, h);
      ForkLower(s.headers, s.index, x.prev);
    }
  }

  lemma {:induction false} ForkLower(headers: Headers, index: Index, k: Hash)
    requires Fork(headers, index, k).Some?
    ensures k in headers && Fork(headers, index, k).value <= headers[k].height
    decreases if k in headers then headers[k].height else 0
  {
    if !(headers[k].height in index && index[headers[k].height] == k) { ForkLower(headers, index, headers[k].prev); }
  }

  /** The chains meet exactly when the new one leads to the genesis block. */
  lemma ForkExactly(all: iset<Header>, genesis: Header, s: State, k: Hash)
    requires Linked(all, genesis) && Inv(all, genesis, s)
    ensures Fork(s.headers, s.index, k).Some? <==> OnChain(s.headers, k, genesis)
  {
    assert EntryOk(s.headers, s.index, 0);
    SameHash(all, genesis, s.headers[s.index[0]], genesis);
    assert s.headers[genesis.hash] == genesis && genesis.height == 0;
    if Fork(s.headers, s.index, k).Some? {
      ForkLower(s.headers, s.index, k);
      MeetsBelow(all, genesis, s, k, 0);
    }
    if OnChain(s.headers, k, genesis) { MeetsAbove(s.headers, s.index, k, genesis); }
  }

  /** A block at or below the head is always written, and only stored. A higher one is written exactly when its
      parents lead to the genesis block; a parent that is not stored is a crash, and any other gap an error. */
  lemma WriteExactly(all: iset<Header>, genesis: Header, s: State, b: Header)
    requires Linked(all, genesis) && b in all && Inv(all, genesis, s)
    ensures var (s', outcome) := Write(s, b);
            && (outcome == Written <==> b.height <= s.current.height || OnChain(s.headers, b.prev, genesis))
            && (outcome == Crashed <==> b.height > s.current.height && b.prev !in s.headers)
            && (b.height <= s.current.height ==> s' == s.(headers := s.headers[b.hash := b]))
            && (outcome != Written ==> s' == s)
  {
    ForkExactly(all, genesis, s, b.prev);
    if b.prev == s.current.hash {
      IndexedAncestor(all, genesis, s, s.current.height, 0);
      assert EntryOk(s.headers, s.index, 0);
      SameHash(all, genesis, s.headers[s.index[0]], genesis);
    }
    hide Fork, Branch;
  }

  /** Which indexed headers lie on the new chain. */
  lemma IndexedOnChain(all: iset<Header>, genesis: Header, s: State, k: Hash, h: nat)
    requires Linked(all, genesis) && Inv(all, genesis, s) && k in s.headers && Fork(s.headers, s.index, k).Some?
    requires h <= s.current.height
    ensures EntryOk(s.headers, s.index, h)
    ensures OnChain(s.headers, k, s.headers[s.index[h]]) <==> h <= Fork(s.headers, s.index, k).value
  {
    assert EntryOk(s.headers, s.index, h);
    if h <= Fork(s.headers, s.index, k).value { MeetsBelow(all, genesis, s, k, h); }
    if OnChain(s.headers, k, s.headers[s.index[h]]) { MeetsAbove(s.headers, s.index, k, s.headers[s.index[h]]); }
  }

  /** The head's chain is what the index names. */
  lemma HeadChain(all: iset<Header>, genesis: Header, s: State, x: Header)
    requires Linked(all, genesis) && Inv(all, genesis, s) && x.hash in s.headers && s.headers[x.hash] == x
    ensures OnChain(s.headers, s.current.hash, x) <==> x.height in s.index && s.index[x.height] == x.hash
  {
    assert x.height <= s.current.height;
    IndexedAncestor(all, genesis, s, s.current.height, x.height);
  }

  /** x is not on the chain left, or is on the new one as well. */
  ghost predicate Stays(headers: Headers, was: Hash, now: Hash, x: Header)
  {
    OnChain(headers, was, x) ==> OnChain(headers, now, x)
  }

  lemma StoredHash(all: iset<Header>, genesis: Header, s: State, k: Hash)
    requires Inv(all, genesis, s) && k in s.headers
    ensures s.headers[k].hash == k
  {}

  /** A block that becomes the head is added to the store, and exactly the headers of the chain left that are not on
      the new one are removed. */
  lemma WriteRemoves(all: iset<Header>, genesis: Header, s: State, b: Header, x: Header)
    requires Linked(all, genesis) && b in all && Inv(all, genesis, s)
    requires b.height > s.current.height && Write(s, b).1 == Written && x.hash in s.headers && s.headers[x.hash] == x
    ensures var s' := Write(s, b).0;
            && b.hash in s'.headers && s'.headers[b.hash] == b
            && (x.hash in s'.headers <==> Stays(s.headers, s.current.hash, b.prev, x))
            && (x.hash in s'.headers ==> s'.headers[x.hash] == x)
            && forall k :: k in s'.headers && k != b.hash ==> k in s.headers
  {
    SameHash(all, genesis, x, b);
    ParentStored(all, genesis, s, b);
    HeadChain(all, genesis, s, x);
    if b.prev == s.current.hash {
      hide AncestorAt;
    } else if x.height in s.index && s.index[x.height] == x.hash {
      IndexedOnChain(all, genesis, s, b.prev, x.height);
      AboveAt(s.headers, s.index, s.current.height, Fork(s.headers, s.index, b.prev).value, x.height);
      hide AncestorAt, Fork, Branch;
    } else {
      Survives(s.headers, s.index, Fork(s.headers, s.index, b.prev).value, s.current.height, x.hash);
      hide AncestorAt, Fork, Branch;
    }
  }

  /** A new head has its parent stored. It is higher than anything stored, so it was not stored before. */
  lemma ParentStored(all: iset<Header>, genesis: Header, s: State, b: Header)
    requires Linked(all, genesis) && Inv(all, genesis, s) && b in all
    requires b.height > s.current.height && Write(s, b).1 == Written
    ensures b.prev in s.headers && b.hash !in s.headers
  {
    hide Fork, Branch;
    if b.hash in s.headers { SameHash(all, genesis, s.headers[b.hash], b); }
  }

  lemma AboveAt(headers: Headers, index: Index, top: nat, f: nat, h: nat)
    requires IndexOk(headers, index, top) && h <= top
    ensures h in index && (index[h] in Above(index, f) <==> h > f)
  {
    assert EntryOk(headers, index, h);
    if index[h] in Above(index, f) {
      var k :| k in index && k > f && index[k] == index[h];
      assert EntryOk(headers, index, k);
    }
  }

  /** The same for every write of every run from the genesis block. */
  lemma RunWrites(all: iset<Header>, genesis: Header, blocks: seq<Header>, i: nat)
    requires Linked(all, genesis) && i < |blocks| && forall j :: 0 <= j < |blocks| ==> blocks[j] in all
    ensures var s, s', b := WriteAll(Genesis(genesis), blocks[..i]), WriteAll(Genesis(genesis), blocks[..i + 1]), blocks[i];
            && (b.height <= s.current.height ==> s' == s.(headers := s.headers[b.hash := b]))
            && (b.height > s.current.height && OnChain(s.headers, b.prev, genesis) ==>
                  && s'.current == b && b.hash in s'.headers && s'.headers[b.hash] == b
                  && forall k :: k in s.headers ==>
                       (k in s'.headers <==> Stays(s.headers, s.current.hash, b.prev, s.headers[k])))
            && (b.height > s.current.height && !OnChain(s.headers, b.prev, genesis) ==> s' == s)
  {
    var s, b := WriteAll(Genesis(genesis), blocks[..i]), blocks[i];
    RunKeeps(all, genesis, blocks[..i]);
    assert blocks[..i + 1][..i] == blocks[..i];
    assert WriteAll(Genesis(genesis), blocks[..i + 1]) == Write(s, b).0;
    WriteExactly(all, genesis, s, b);
    WriteKeeps(all, genesis, s, b);
    hide Write, WriteAll, Inv, Linked, OnChain;
    if b.height > s.current.height && OnChain(s.headers, b.prev, genesis) {
      var s' := Write(s, b).0;
      HeadStored(s, b);
      forall k | k in s.headers ensures k in s'.headers <==> Stays(s.headers, s.current.hash, b.prev, s.headers[k]) {
        StoredHash(all, genesis, s, k);
        WriteRemoves(all, genesis, s, b, s.headers[k]);
      }
    }
  }

  lemma HeadStored(s: State, b: Header)
    requires Write(s, b).1 == Written
    ensures b.hash in Write(s, b).0.headers && Write(s, b).0.headers[b.hash] == b
  {
    hide Fork, Branch;
  }

  /** Six headers: two branches above g, the second one longer. */
  ghost predicate TwoBranches(g: Header, a1: Header, b1: Header, b2: Header, a2: Header, a3: Header)
  {
    && g.height == 0 && a1.height == b1.height == 1 && a2.height == b2.height == 2 && a3.height == 3
    && a1.prev == g.hash == b1.prev && a2.prev == a1.hash && b2.prev == b1.hash && a3.prev == a2.hash
    && g.hash != a1.hash && g.hash != b1.hash && g.hash != b2.hash && g.hash != a2.hash
    && a1.hash != b1.hash && a1.hash != b2.hash && a1.hash != a2.hash
    && b1.hash != b2.hash && b1.hash != a2.hash && b2.hash != a2.hash
  }

  /** The headers of an abandoned branch are gone, so a later block on it is refused though it is
      the highest and every ancestor was once written. */
  lemma AbandonedBranch(g: Header, a1: Header, b1: Header, b2: Header, a2: Header, a3: Header)
    requires TwoBranches(g, a1, b1, b2, a2, a3)
    ensures Write(WriteAll(Genesis(g), [a1, b1, b2, a2]), a3).1 == Refused
  {
    var s1 := State(map[g.hash := g, a1.hash := a1], map[0 := g.hash, 1 := a1.hash], a1.hash, a1);
    var s2 := s1.(headers := s1.headers[b1.hash := b1]);
    var s3 := State(map[g.hash := g, b1.hash := b1, b2.hash := b2], map[0 := g.hash, 1 := b1.hash, 2 := b2.hash], b2.hash, b2);
    var s4 := s3.(headers := s3.headers[a2.hash := a2]);
    assert Write(Genesis(g), a1).0 == s1;
    assert Write(s1, b1).0 == s2;
    SwitchExample(g, a1, b1, b2, s2, s3);
    assert Write(s3, a2).0 == s4;
    assert Write(s4, a3).1 == Refused;
    hide Write;
    assert [a1, b1, b2, a2][..3] == [a1, b1, b2] && [a1, b1, b2][..2] == [a1, b1] && [a1, b1][..1] == [a1] && [a1][..0] == [];
    assert WriteAll(Genesis(g), []) == Genesis(g);
    assert WriteAll(Genesis(g), [a1]) == s1;
    assert WriteAll(Genesis(g), [a1, b1]) == s2;
    assert WriteAll(Genesis(g), [a1, b1, b2]) == s3;
  }

  lemma SwitchExample(g: Header, a1: Header, b1: Header, b2: Header, s2: State, s3: State)
    requires g.height == 0 && a1.height == b1.height == 1 && b2.height == 2
    requires a1.prev == g.hash == b1.prev && b2.prev == b1.hash && g.hash != a1.hash && g.hash != b1.hash && a1.hash != b1.hash
    requires s2 == State(map[g.hash := g, a1.hash := a1, b1.hash := b1], map[0 := g.hash, 1 := a1.hash], a1.hash, a1)
    requires s3 == State(map[g.hash := g, b1.hash := b1, b2.hash := b2], map[0 := g.hash, 1 := b1.hash, 2 := b2.hash], b2.hash, b2)
    ensures Write(s2, b2) == (s3, Written)
  {
    assert Fork(s2.headers, s2.index, g.hash) == Some(0) && Branch(s2.headers, s2.index, g.hash) == map[];
    assert Fork(s2.headers, s2.index, b1.hash) == Some(0) && Branch(s2.headers, s2.index, b1.hash) == map[1 := b1.hash];
    assert Above(s2.index, 0) == {a1.hash} by { assert 1 in s2.index; }
    assert s2.headers - {a1.hash} == map[g.hash := g, b1.hash := b1];
    assert s2.index + map[1 := b1.hash] == map[0 := g.hash, 1 := b1.hash];
    assert (s2.headers - {a1.hash})[b2.hash := b2] == s3.headers;
    assert (s2.index + map[1 := b1.hash])[2 := b2.hash] == s3.index;
  }
}
