/** writeBlock and reorg of block_chain.go, on the header store of chaindb.go. */
module BlockChain {
  import opened Options
  import opened ChainIndex

  /** Index entries written for a list of headers, later ones winning. */
  function EntriesOf(bs: seq<Header>): (r: Index)
    decreases |bs|
  {
    if bs == [] then map[] else EntriesOf(bs[..|bs| - 1])[bs[|bs| - 1].height := bs[|bs| - 1].hash]
  }

  function HashesOf(bs: seq<Header>): (r: set<Hash>)
  {
    set i | 0 <= i < |bs| :: bs[i].hash
  }

  lemma EntriesAppend(bs: seq<Header>, b: Header)
    ensures EntriesOf(bs + [b]) == EntriesOf(bs)[b.height := b.hash]
  {
    assert (bs + [b])[..|bs|] == bs;
  }

  lemma HashesAppend(bs: seq<Header>, b: Header)
    ensures HashesOf(bs + [b]) == HashesOf(bs) + {b.hash}
  {
    var cs := bs + [b];
    assert cs[|bs|] == b && forall i :: 0 <= i < |bs| ==> cs[i] == bs[i];
  }

  /** One step down both chains: what is left of the branch and what has been collected together make the branch. */
  lemma BranchStep(headers: Headers, index: Index, x: Header, collected: seq<Header>)
    requires x.hash in headers && headers[x.hash] == x && !(x.height in index && index[x.height] == x.hash)
    requires HasParent(headers, x) && x.height !in EntriesOf(collected)
    ensures Fork(headers, index, x.hash) == Fork(headers, index, x.prev)
    ensures Branch(headers, index, x.hash) + EntriesOf(collected)
            == Branch(headers, index, x.prev) + EntriesOf(collected + [x])
  {
    EntriesAppend(collected, x);
  }

  lemma AboveStep(headers: Headers, index: Index, top: nat, h: nat)
    requires IndexOk(headers, index, top) && 0 < h <= top
    ensures h in index && Above(index, h - 1) == Above(index, h) + {index[h]}
  {
    assert EntryOk(headers, index, h);
  }

  lemma AboveTop(headers: Headers, index: Index, top: nat)
    requires IndexOk(headers, index, top)
    ensures Above(index, top) == {}
  {}

  /** Where the walk stands: both headers are stored at the same height, the old one indexed. */
  ghost predicate Walking(s: State, start: Hash, mOld: Header, mNew: Header,
                          deleted: seq<Header>, added: seq<Header>)
  {
    && mOld.height == mNew.height <= s.current.height
    && mOld.hash in s.headers && s.headers[mOld.hash] == mOld && mNew.hash in s.headers && s.headers[mNew.hash] == mNew
    && mOld.height in s.index && s.index[mOld.height] == mOld.hash
    && HashesOf(deleted) == Above(s.index, mOld.height)
    && Fork(s.headers, s.index, start) == Fork(s.headers, s.index, mNew.hash)
    && Branch(s.headers, s.index, start) == Branch(s.headers, s.index, mNew.hash) + EntriesOf(added)
    && forall h :: h in EntriesOf(added) ==> h > mNew.height
  }

  lemma WalkStep(all: iset<Header>, genesis: Header, s: State, start: Hash, mOld: Header, mNew: Header,
                 deleted: seq<Header>, added: seq<Header>)
    requires Linked(all, genesis) && Inv(all, genesis, s)
    requires Walking(s, start, mOld, mNew, deleted, added) && mOld.hash != mNew.hash
    requires mOld.prev in s.headers && mNew.prev in s.headers
    ensures s.headers[mOld.prev].height < mOld.height
    ensures Walking(s, start, s.headers[mOld.prev], s.headers[mNew.prev], deleted + [mOld], added + [mNew])
  {
    ParentLower(all, genesis, s.headers, s.current.height, mOld);
    ParentLower(all, genesis, s.headers, s.current.height, mNew);
    assert EntryOk(s.headers, s.index, mOld.height);
    assert EntryOk(s.headers, s.index, mOld.height - 1);
    AboveStep(s.headers, s.index, s.current.height, mOld.height);
    HashesAppend(deleted, mOld);
    BranchStep(s.headers, s.index, mNew, added);
    EntriesAppend(added, mNew);
    hide Fork, Branch, EntriesOf, Above;
  }

  /** The walk can only run out of ancestors when the chains do not meet. */
  lemma WalkEnds(all: iset<Header>, genesis: Header, s: State, start: Hash, mOld: Header, mNew: Header,
                 deleted: seq<Header>, added: seq<Header>)
    requires Linked(all, genesis) && Inv(all, genesis, s)
    requires Walking(s, start, mOld, mNew, deleted, added) && mOld.hash != mNew.hash
    requires mOld.prev !in s.headers || mNew.prev !in s.headers
    ensures Fork(s.headers, s.index, start).None?
  {
    if mNew.prev in s.headers {
      ParentLower(all, genesis, s.headers, s.current.height, mNew);
      IndexedParent(s.headers, s.index, s.current.height, mOld.height);
    }
  }

  lemma IndexedParent(headers: Headers, index: Index, top: nat, h: nat)
    requires IndexOk(headers, index, top) && 0 < h <= top
    ensures EntryOk(headers, index, h) && headers[index[h]].prev in headers
  {
    assert EntryOk(headers, index, h) && EntryOk(headers, index, h - 1);
  }

  class BlockChain {
    var headers: Headers
    var index: Index
    var last: Hash
    var current: Header

    ghost function View(): State
      reads this
    {
      State(headers, index, last, current)
    }

    constructor (genesis: Header)
      requires genesis.height == 0
      ensures View() == Genesis(genesis)
    {
      headers, index, last, current := map[genesis.hash := genesis], map[0 := genesis.hash], genesis.hash, genesis;
    }

    function GetBlockByHash(h: Hash): (r: Option<Header>)
      reads this
      ensures r.Some? <==> h in headers
    {
      if h in headers then Some(headers[h]) else None
    }

    method InsertHeader(b: Header)
      modifies this`index, this`last, this`current
      ensures View() == old(View()).(index := old(index)[b.height := b.hash], last := b.hash, current := b)
    {
      index := index[b.height := b.hash];
      last := b.hash;
      current := b;
    }

    /** The first loop of reorg. All stored headers lie at or below the head, so it goes round once. */
    method FindPeer(b: Header, ghost all: iset<Header>, ghost genesis: Header)
      returns (mNew: Option<Header>, newBlocks: seq<Header>)
      requires Linked(all, genesis) && Inv(all, genesis, View()) && b in all && b.height > current.height
      ensures newBlocks == [b] && mNew == GetBlockByHash(b.prev)
      ensures mNew.Some? ==> mNew.value.height == current.height
    {
      mNew, newBlocks := Some(b), [];
      while mNew.Some? && mNew.value.height != current.height
        invariant newBlocks == [] ==> mNew == Some(b)
        invariant newBlocks != [] ==> newBlocks == [b] && mNew == GetBlockByHash(b.prev)
        invariant newBlocks != [] && mNew.Some? ==> mNew.value.height == current.height
        decreases if newBlocks == [] then 1 else 0
      {
        newBlocks := newBlocks + [b];
        mNew := GetBlockByHash(mNew.value.prev);
        if mNew.Some? { ParentLower(all, genesis, headers, current.height, b); }
      }
    }

    /** The second loop of reorg: down both chains to the common ancestor. */
    method Walk(b: Header, peer: Header, ghost all: iset<Header>, ghost genesis: Header)
      returns (met: bool, deleted: seq<Header>, added: seq<Header>)
      requires Linked(all, genesis) && Inv(all, genesis, View())
      requires b.prev in headers && headers[b.prev] == peer && peer.height == current.height
      ensures met <==> Fork(headers, index, b.prev).Some?
      ensures met ==> HashesOf(deleted) == Above(index, Fork(headers, index, b.prev).value)
      ensures met ==> EntriesOf(added) == Branch(headers, index, b.prev)
    {
      var mOld, mNew := current, peer;
      deleted, added := [], [];
      ghost var s := View();
      AboveTop(headers, index, current.height);
      hide Fork, Branch, Above;
      assert Walking(s, b.prev, mOld, mNew, deleted, added);
      while mOld.hash != mNew.hash
        invariant Walking(s, b.prev, mOld, mNew, deleted, added)
        decreases mOld.height
      {
        hide Walking;
        var old', new' := GetBlockByHash(mOld.prev), GetBlockByHash(mNew.prev);
        if old'.None? || new'.None? {
          WalkEnds(all, genesis, s, b.prev, mOld, mNew, deleted, added);
          return false, [], [];
        }
        WalkStep(all, genesis, s, b.prev, mOld, mNew, deleted, added);
        deleted, added := deleted + [mOld], added + [mNew];
        mOld, mNew := old'.value, new'.value;
      }
      met := true;
      Met(s, mNew);
    }

    method DeleteHeaders(bs: seq<Header>)
      modifies this`headers
      ensures headers == old(headers) - HashesOf(bs)
    {
      var i := 0;
      assert bs[..0] == [];
      while i < |bs|
        invariant 0 <= i <= |bs| && headers == old(headers) - HashesOf(bs[..i])
      {
        assert bs[..i + 1] == bs[..i] + [bs[i]];
        HashesAppend(bs[..i], bs[i]);
        headers := headers - {bs[i].hash};
        i := i + 1;
      }
      assert bs[..i] == bs;
    }

    method InsertHeaders(bs: seq<Header>)
      modifies this`index, this`last, this`current
      ensures index == old(index) + EntriesOf(bs)
    {
      var i := 0;
      assert bs[..0] == [];
      while i < |bs|
        invariant 0 <= i <= |bs| && index == old(index) + EntriesOf(bs[..i])
      {
        assert bs[..i + 1] == bs[..i] + [bs[i]];
        EntriesAppend(bs[..i], bs[i]);
        InsertHeader(bs[i]);
        i := i + 1;
      }
      assert bs[..i] == bs;
    }

    /** reorg: nothing is written unless the chains meet. */
    method Reorg(b: Header, ghost all: iset<Header>, ghost genesis: Header) returns (outcome: Outcome)
      requires Linked(all, genesis) && Inv(all, genesis, View()) && b in all && b.height > current.height
      modifies this
      ensures outcome == Crashed <==> b.prev !in old(headers)
      ensures outcome == Refused <==> b.prev in old(headers) && Fork(old(headers), old(index), b.prev).None?
      ensures outcome != Written ==> View() == old(View())
      ensures outcome == Written ==>
                && headers == old(headers) - Above(old(index), Fork(old(headers), old(index), b.prev).value)
                && index[b.height := b.hash] == (old(index) + Branch(old(headers), old(index), b.prev))[b.height := b.hash]
    {
      hide Fork, Branch, Above, Inv, Linked, HashesOf, EntriesOf;
      var peer, first := FindPeer(b, all, genesis);
      if peer.None? {
        return Crashed;
      }
      var met, deleted, added := Walk(b, peer.value, all, genesis);
      if !met {
        return Refused;
      }
      DeleteHeaders(deleted);
      FirstEntry(b, added, index);
      InsertHeaders(first + added);
      outcome := Written;
    }

    method WriteBlock(b: Header, ghost all: iset<Header>, ghost genesis: Header) returns (outcome: Outcome)
      requires Linked(all, genesis) && Inv(all, genesis, View()) && b in all
      modifies this
      ensures (View(), outcome) == Write(old(View()), b)
      ensures Inv(all, genesis, View())
      ensures outcome == Written <==> b.height <= old(current).height || OnChain(old(headers), b.prev, genesis)
    {
      hide Fork, Branch, Above, Inv, Linked, OnChain;
      WriteKeeps(all, genesis, View(), b);
      WriteExactly(all, genesis, View(), b);
      if b.height > current.height {
        if b.prev != current.hash {
          outcome := Reorg(b, all, genesis);
          if outcome != Written {
            return;
          }
        }
        InsertHeader(b);
      }
      headers := headers[b.hash := b];
      outcome := Written;
    }
  }

  lemma {:induction false} PrependEntries(b: Header, added: seq<Header>)
    ensures EntriesOf([b] + added) == map[b.height := b.hash] + EntriesOf(added)
    decreases |added|
  {
    if added == [] {
      assert [b] + added == [] + [b];
      EntriesAppend([], b);
    } else {
      var init, x := added[..|added| - 1], added[|added| - 1];
      assert added == init + [x] && [b] + added == ([b] + init) + [x];
      EntriesAppend(init, x);
      EntriesAppend([b] + init, x);
      PrependEntries(b, init);
      hide EntriesOf;
    }
  }

  /** The new block is inserted first and again at the end. */
  lemma FirstEntry(b: Header, added: seq<Header>, index: Index)
    ensures (index + EntriesOf([b] + added))[b.height := b.hash] == (index + EntriesOf(added))[b.height := b.hash]
  {
    hide EntriesOf;
    PrependEntries(b, added);
  }

  lemma Met(s: State, x: Header)
    requires x.hash in s.headers && s.headers[x.hash] == x && x.height in s.index && s.index[x.height] == x.hash
    ensures Fork(s.headers, s.index, x.hash) == Some(x.height) && Branch(s.headers, s.index, x.hash) == map[]
  {}

  /** A block above the genesis block whose parent was never stored ends in the nil dereference. */
  method MissingParent(g: Header, b: Header) returns (chain: BlockChain, outcome: Outcome)
    requires g.height == 0 < b.height && b.prev != g.hash && b.prev != b.hash && g.hash != b.hash && g.prev != b.hash
    requires g.prev != g.hash
    ensures fresh(chain) && outcome == Crashed && chain.View() == Genesis(g)
  {
    ghost var all := iset{g, b};
    chain := new BlockChain(g);
    RunKeeps(all, g, []);
    outcome := chain.WriteBlock(b, all, g);
  }
}
