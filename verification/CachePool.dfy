/** When the pool of downloaded hashes and the block cache of backend/queue.go agree. */
module CachePool {
  import opened Options
  import opened DownloadQueue

  ghost function BlocksIn(cache: Cache): set<Block>
  {
    set i | 0 <= i < |cache| && cache[i].Some? :: cache[i].value.rawBlock
  }

  ghost function HashSet(bs: set<Block>): set<Hash>
  {
    set b | b in bs :: b.hash
  }

  /** A hash names one block. */
  ghost predicate Telling(bs: set<Block>)
  {
    forall x, y :: x in bs && y in bs && x.hash == y.hash ==> x == y
  }

  ghost predicate OnePerHeight(bs: set<Block>)
  {
    forall x, y :: x in bs && y in bs && x.height == y.height ==> x == y
  }

  /** The pool holds the hashes of the cached blocks and no others. */
  ghost predicate Tied(q: State)
  {
    q.blockPool.Keys == HashSet(BlocksIn(q.cache))
  }

  /** The blocks that a delivery puts into the cache: those asked for, up to the first one outside the window. */
  ghost function Asked(owed: map<Hash, int>, blocks: seq<Block>, offset: Height, size: nat): set<Block>
    decreases blocks
  {
    if blocks == [] then {}
    else if blocks[0].hash !in owed then Asked(owed, blocks[1..], offset, size)
    else if !InWindow(blocks[0].height, offset, size) then {}
    else {blocks[0]} + Asked(owed - {blocks[0].hash}, blocks[1..], offset, size)
  }

  /** The slot for this height is taken. */
  ghost predicate Occupied(cache: Cache, offset: Height, height: Height)
  {
    var i := Signed(height - offset); 0 <= i < |cache| && cache[i].Some?
  }

  /** What a delivery did to cache and pool, `a` being the blocks it put in. */
  ghost predicate Filled(d: Delivery, a: set<Block>, d': Delivery, offset: Height)
  {
    && d'.blockPool.Keys == d.blockPool.Keys + HashSet(a) && |d'.cache| == |d.cache|
    && BlocksIn(d'.cache) <= BlocksIn(d.cache) + a
    && (forall b :: b in BlocksIn(d.cache) + a ==> Occupied(d'.cache, offset, b.height))
  }

  /** Slots of a placed cache are found from the heights. */
  lemma SlotOf(cache: Cache, offset: Height, i: nat)
    requires PlacedCache(cache, offset) && i < |cache| <= 0x8000_0000_0000_0000 && cache[i].Some?
    ensures Signed(cache[i].value.rawBlock.height - offset) == i
  {}

  lemma Seated(cache: Cache, offset: Height, b: Block)
    requires PlacedCache(cache, offset) && |cache| <= 0x8000_0000_0000_0000 && b in BlocksIn(cache)
    ensures var i := Signed(b.height - offset); 0 <= i < |cache| && cache[i].Some? && cache[i].value.rawBlock == b
  {
    var i :| 0 <= i < |cache| && cache[i].Some? && cache[i].value.rawBlock == b;
    SlotOf(cache, offset, i);
  }

  lemma FilledNothing(d: Delivery, offset: Height)
    requires PlacedCache(d.cache, offset) && |d.cache| <= 0x8000_0000_0000_0000
    ensures Filled(d, {}, d, offset)
  {
    forall b | b in BlocksIn(d.cache) + {} ensures Occupied(d.cache, offset, b.height) {
      Seated(d.cache, offset, b);
    }
    assert HashSet({}) == {};
  }

  lemma FilledOne(d: Delivery, b: Block, offset: Height, p: Peer)
    requires PlacedCache(d.cache, offset) && |d.cache| <= 0x8000_0000_0000_0000
    requires b.hash in d.owed && InWindow(b.height, offset, |d.cache|)
    ensures Filled(d, {b}, Accept(d, b, offset, p), offset)
  {
    WindowIndex(b.height, offset, |d.cache|);
    var i, d' := Signed(b.height - offset), Accept(d, b, offset, p);
    hide InWindow, Signed, PlacedCache;
    OneMore(d.cache, d'.cache, i, b);
    forall x | x in BlocksIn(d.cache) + {b} ensures Occupied(d'.cache, offset, x.height) {
      if x != b { Seated(d.cache, offset, x); }
    }
    assert HashSet({b}) == {b.hash};
  }

  lemma OneMore(c: Cache, c': Cache, i: nat, b: Block)
    requires i < |c| == |c'| && c'[i].Some? && c'[i].value.rawBlock == b
    requires forall k :: 0 <= k < |c| && k != i ==> c'[k] == c[k]
    ensures BlocksIn(c') <= BlocksIn(c) + {b}
  {
    forall x | x in BlocksIn(c') ensures x in BlocksIn(c) + {b} {
      var k :| 0 <= k < |c'| && c'[k].Some? && c'[k].value.rawBlock == x;
      if k != i { assert c'[k] == c[k]; }
    }
  }

  lemma FilledThen(d: Delivery, a: set<Block>, d1: Delivery, b: set<Block>, d2: Delivery, offset: Height)
    requires Filled(d, a, d1, offset) && Filled(d1, b, d2, offset)
    requires forall x :: x in BlocksIn(d.cache) + a ==> Occupied(d1.cache, offset, x.height) ==> Occupied(d2.cache, offset, x.height)
    ensures Filled(d, a + b, d2, offset)
  {
    hide BlocksIn, Occupied;
    assert HashSet(a + b) == HashSet(a) + HashSet(b);
  }

  /** A taken slot stays taken. */
  lemma StaysOccupied(d: Delivery, a: set<Block>, d': Delivery, offset: Height, h: Height)
    requires Filled(d, a, d', offset) && PlacedCache(d.cache, offset) && Occupied(d.cache, offset, h)
    ensures Occupied(d'.cache, offset, h)
  {
    var b := Sitting(d.cache, offset, h);
  }

  lemma Sitting(cache: Cache, offset: Height, h: Height) returns (b: Block)
    requires PlacedCache(cache, offset) && Occupied(cache, offset, h)
    ensures b in BlocksIn(cache) && b.height == h
  {
    var i := Signed(h - offset);
    SlotHeight(h, offset);
    b := cache[i].value.rawBlock;
    assert b.height == HeightAt(offset, i);
  }

  lemma {:induction false} AcceptAllFilled(d: Delivery, blocks: seq<Block>, offset: Height, p: Peer)
    requires !d.invalid && PlacedCache(d.cache, offset) && |d.cache| <= 0x8000_0000_0000_0000
    ensures Filled(d, Asked(d.owed, blocks, offset, |d.cache|), AcceptAll(d, blocks, offset, p), offset)
    decreases blocks
  {
    if blocks == [] {
      FilledNothing(d, offset);
    } else {
      var b, d1 := blocks[0], Accept(d, blocks[0], offset, p);
      WindowIndex(b.height, offset, |d.cache|);
      if b.hash !in d.owed {
        AcceptAllFilled(d1, blocks[1..], offset, p);
        hide BlocksIn, Occupied, HashSet, PlacedCache, Asked;
      } else if d1.invalid {
        FilledNothing(d, offset);
      } else {
        FilledOne(d, b, offset, p);
        var a := Asked(d.owed - {b.hash}, blocks[1..], offset, |d.cache|);
        AcceptAllPlaced(d, [b], offset, p);
        AcceptOne(d, b, offset, p);
        AcceptAllFilled(d1, blocks[1..], offset, p);
        var d2 := AcceptAll(d1, blocks[1..], offset, p);
        forall x | x in BlocksIn(d.cache) + {b} && Occupied(d1.cache, offset, x.height)
          ensures Occupied(d2.cache, offset, x.height)
        {
          StaysOccupied(d1, a, d2, offset, x.height);
        }
        FilledThen(d, {b}, d1, a, d2, offset);
      }
    }
  }

  lemma AcceptOne(d: Delivery, b: Block, offset: Height, p: Peer)
    requires !d.invalid
    ensures AcceptAll(d, [b], offset, p) == Accept(d, b, offset, p)
  {
    assert [b][1..] == [];
  }

  /** From agreement, a delivery keeps pool and cache in agreement exactly when no two of the blocks cached or put in
      share a height: otherwise a slot is overwritten while both hashes stay in the pool. */
  lemma DeliverTied(q: State, p: Peer, blocks: seq<Block>)
    requires Tied(q) && Placed(q) && p in q.pending && |q.cache| <= 0x8000_0000_0000_0000
    requires Telling(BlocksIn(q.cache) + Asked(q.pending[p].hashes, blocks, q.offset, |q.cache|))
    ensures Tied(Deliver(q, p, blocks).0) <==>
            OnePerHeight(BlocksIn(q.cache) + Asked(q.pending[p].hashes, blocks, q.offset, |q.cache|))
  {
    var d, a := StartDelivery(q, p), Asked(q.pending[p].hashes, blocks, q.offset, |q.cache|);
    AcceptAllFilled(d, blocks, q.offset, p);
    AcceptAllPlaced(d, blocks, q.offset, p);
    var d' := AcceptAll(d, blocks, q.offset, p);
    assert HashSet(BlocksIn(q.cache) + a) == HashSet(BlocksIn(q.cache)) + HashSet(a);
    hide Asked, AcceptAll;
    TiedExactly(d'.cache, q.offset, BlocksIn(q.cache) + a);
  }

  lemma TiedExactly(cache: Cache, offset: Height, all: set<Block>)
    requires PlacedCache(cache, offset) && |cache| <= 0x8000_0000_0000_0000 && Telling(all)
    requires BlocksIn(cache) <= all && forall b :: b in all ==> Occupied(cache, offset, b.height)
    ensures HashSet(all) == HashSet(BlocksIn(cache)) <==> OnePerHeight(all)
  {
    hide PlacedCache, Occupied, Telling;
    if OnePerHeight(all) { AllCached(cache, offset, all); }
    if HashSet(all) == HashSet(BlocksIn(cache)) {
      forall x, y | x in all && y in all && x.height == y.height ensures x == y {
        hide HashSet, BlocksIn;
        InCache(cache, all, x);
        InCache(cache, all, y);
        Seated(cache, offset, x);
        Seated(cache, offset, y);
      }
    }
  }

  lemma AllCached(cache: Cache, offset: Height, all: set<Block>)
    requires PlacedCache(cache, offset) && OnePerHeight(all)
    requires BlocksIn(cache) <= all && forall b :: b in all ==> Occupied(cache, offset, b.height)
    ensures all == BlocksIn(cache)
  {
    hide BlocksIn, Occupied, PlacedCache;
    forall b | b in all ensures b in BlocksIn(cache) {
      var x := Sitting(cache, offset, b.height);
    }
  }

  lemma InCache(cache: Cache, all: set<Block>, x: Block)
    requires Telling(all) && BlocksIn(cache) <= all && x in all && HashSet(all) == HashSet(BlocksIn(cache))
    ensures x in BlocksIn(cache)
  {
    assert x.hash in HashSet(all);
    var y :| y in BlocksIn(cache) && y.hash == x.hash;
  }

  /** Taking blocks out keeps the agreement. */
  lemma TakeTied(q: State)
    requires Tied(q) && Placed(q) && |q.cache| <= 0x8000_0000_0000_0000 && Telling(BlocksIn(q.cache))
    ensures Tied(TakeBlocks(q).0)
  {
    var q' := TakeBlocks(q).0;
    assert q'.blockPool.Keys == q.blockPool.Keys - HashesOf(ReadyBlocks(q.cache));
    hide TakeBlocks, Placed, Telling, HashesOf, ReadyBlocks, BlocksIn, HashSet;
    forall h | h in HashSet(BlocksIn(q'.cache)) ensures h in q'.blockPool { StaysPooled(q, h); }
    forall h | h in q'.blockPool ensures h in HashSet(BlocksIn(q'.cache)) { StaysCached(q, h); }
  }

  lemma StaysPooled(q: State, h: Hash)
    requires Placed(q) && |q.cache| <= 0x8000_0000_0000_0000 && Telling(BlocksIn(q.cache))
    requires h in HashSet(BlocksIn(TakeBlocks(q).0.cache))
    ensures h in HashSet(BlocksIn(q.cache)) && h !in HashesOf(ReadyBlocks(q.cache))
  {
    var n := Ready(q.cache);
    var i := SlotWith(TakeBlocks(q).0.cache, h);
    ShiftedFrom(q, i);
    hide TakeBlocks, Placed, Telling, HashesOf, Ready, ReadyBlocks;
    assert q.cache[i + n].value.rawBlock in BlocksIn(q.cache);
    NotTaken(q, i + n);
  }

  lemma StaysCached(q: State, h: Hash)
    requires h in HashSet(BlocksIn(q.cache)) && h !in HashesOf(ReadyBlocks(q.cache))
    ensures h in HashSet(BlocksIn(TakeBlocks(q).0.cache))
  {
    hide TakeBlocks, HashesOf, Ready, ReadyBlocks;
    var c, n := TakeBlocks(q).0.cache, Ready(q.cache);
    var i := SlotWith(q.cache, h);
    if i >= n {
      ShiftedTo(q, i);
      assert c[i - n].value.rawBlock in BlocksIn(c);
    } else {
      TakenHash(q.cache, i);
    }
  }

  lemma ShiftedFrom(q: State, i: nat)
    requires i < |q.cache| && TakeBlocks(q).0.cache[i].Some?
    ensures var n := Ready(q.cache); i + n < |q.cache| && TakeBlocks(q).0.cache[i] == q.cache[i + n]
  {}

  lemma ShiftedTo(q: State, i: nat)
    requires Ready(q.cache) <= i < |q.cache|
    ensures |TakeBlocks(q).0.cache| == |q.cache| && TakeBlocks(q).0.cache[i - Ready(q.cache)] == q.cache[i]
  {}

  lemma SlotWith(cache: Cache, h: Hash) returns (i: nat)
    requires h in HashSet(BlocksIn(cache))
    ensures i < |cache| && cache[i].Some? && cache[i].value.rawBlock.hash == h
  {
    var b :| b in BlocksIn(cache) && b.hash == h;
    i :| 0 <= i < |cache| && cache[i].Some? && cache[i].value.rawBlock == b;
  }

  lemma TakenHash(cache: Cache, i: nat)
    requires i < Ready(cache)
    ensures cache[i].value.rawBlock.hash in HashesOf(ReadyBlocks(cache))
  {
    assert ReadyBlocks(cache)[i] == cache[i].value;
  }

  /** A block that stays is none of those taken. */
  lemma NotTaken(q: State, i: nat)
    requires Placed(q) && |q.cache| <= 0x8000_0000_0000_0000 && Telling(BlocksIn(q.cache))
    requires Ready(q.cache) <= i < |q.cache| && q.cache[i].Some?
    ensures q.cache[i].value.rawBlock.hash !in HashesOf(ReadyBlocks(q.cache))
  {
    var bs, b := ReadyBlocks(q.cache), q.cache[i].value.rawBlock;
    hide Placed, Telling, BlocksIn;
    if b.hash in HashesOf(bs) {
      var j :| 0 <= j < |bs| && bs[j].rawBlock.hash == b.hash;
      assert q.cache[j] == Some(bs[j]);
      OneSlot(q, i, j);
    }
  }

  /** No hash sits in two slots. */
  lemma OneSlot(q: State, i: nat, j: nat)
    requires Placed(q) && |q.cache| <= 0x8000_0000_0000_0000 && Telling(BlocksIn(q.cache))
    requires i < |q.cache| && j < |q.cache| && q.cache[i].Some? && q.cache[j].Some?
    requires q.cache[i].value.rawBlock.hash == q.cache[j].value.rawBlock.hash
    ensures i == j
  {
    SlotOf(q.cache, q.offset, i);
    SlotOf(q.cache, q.offset, j);
    hide Signed, Wrap, Placed;
    assert q.cache[i].value.rawBlock in BlocksIn(q.cache) && q.cache[j].value.rawBlock in BlocksIn(q.cache);
  }

  /** The blocks at stake in a step: those cached, and those that a delivery puts in. */
  ghost function AtStake(q: State, e: Event): set<Block>
  {
    BlocksIn(q.cache)
    + if e.DeliverEvent? && e.peer in q.pending then Asked(q.pending[e.peer].hashes, e.blocks, q.offset, |q.cache|) else {}
  }

  /** From agreement, a step keeps it exactly when it does not put two blocks of one height into the cache. */
  lemma StepTied(q: State, e: Event, q': State)
    requires Tied(q) && Placed(q) && |q.cache| <= 0x8000_0000_0000_0000 && Telling(AtStake(q, e)) && Next(q, e, q')
    ensures Tied(q') <==> e.ResetEvent? || OnePerHeight(AtStake(q, e))
  {
    hide Telling, Placed, TakeBlocks, Deliver, Insert, Asked, HashSet;
    CachedOnce(q);
    assert BlocksIn(q.cache) + {} == BlocksIn(q.cache);
    match e
    case ResetEvent => assert BlocksIn(q'.cache) == {} && HashSet({}) == {} by { EmptyHashes(); }
    case InsertEvent(hashes, _) => InsertWindow(q, hashes);
    case DeliverEvent(p, blocks, _) =>
      if p in q.pending { DeliverTied(q, p, blocks); } else { DeliverNone(q, p, blocks); }
    case TakeEvent(_) => TakeTied(q);
    case _ =>
  }

  lemma EmptyHashes()
    ensures HashSet({}) == {}
  {}

  lemma DeliverNone(q: State, p: Peer, blocks: seq<Block>)
    requires p !in q.pending
    ensures Deliver(q, p, blocks).0 == q
  {}

  lemma {:induction false} InsertWindow(q: State, hashes: seq<Hash>)
    ensures Insert(q, hashes).0.cache == q.cache && Insert(q, hashes).0.blockPool == q.blockPool
    decreases hashes
  {
    if hashes != [] {
      InsertWindow(if hashes[0] in q.hashPool then q else InsertOne(q, hashes[0]), hashes[1..]);
    }
  }

  /** Cached blocks have different heights. */
  lemma CachedOnce(q: State)
    requires Placed(q) && |q.cache| <= 0x8000_0000_0000_0000
    ensures OnePerHeight(BlocksIn(q.cache))
  {
    forall x, y | x in BlocksIn(q.cache) && y in BlocksIn(q.cache) && x.height == y.height ensures x == y {
      Seated(q.cache, q.offset, x);
      Seated(q.cache, q.offset, y);
    }
  }

  // ---- runs ----

  lemma StepSize(q: State, e: Event, q': State)
    requires Safe(q) && Next(q, e, q') && Legal(q, e)
    ensures |q'.cache| == |q.cache|
  {
    hide Safe, Insert, Reserve, Deliver, TakeBlocks;
    match e
    case InsertEvent(hashes, _) => InsertWindow(q, hashes);
    case ReserveEvent(p, lacks, count, time, r) => ReserveKeeps(q, p, lacks, count, time, r, q');
    case DeliverEvent(p, blocks, _) => DeliverKeeps(q, p, blocks);
    case TakeEvent(_) => TakeKeeps(q);
    case _ =>
  }

  lemma {:induction false} RunSize(qs: seq<State>, es: seq<Event>, n: nat)
    requires SteadyRun(qs, es) && n < |qs|
    ensures |qs[n].cache| == |qs[0].cache|
  {
    hide *;
    RunLength(qs, es);
    if n > 0 {
      RunSize(qs, es, n - 1);
      SteadyAt(qs, es, n - 1);
      StepSize(qs[n - 1], es[n - 1], qs[n]);
    }
  }

  lemma RunLength(qs: seq<State>, es: seq<Event>)
    requires SteadyRun(qs, es)
    ensures |qs| == |es| + 1
  {
    hide Next, Legal, Steady, Safe, Conserved, Placed;
  }

  ghost predicate TellingRun(qs: seq<State>, es: seq<Event>)
  {
    |qs| == |es| + 1 && forall i :: 0 <= i < |es| ==> Telling(AtStake(qs[i], es[i]))
  }

  ghost predicate TiedUpTo(qs: seq<State>, n: nat)
    requires n < |qs|
  {
    forall i :: 0 <= i <= n ==> Tied(qs[i])
  }

  /** No step before n puts two blocks of one height into the cache. */
  ghost predicate ClashFree(qs: seq<State>, es: seq<Event>, n: nat)
    requires n <= |es| < |qs|
  {
    forall i :: 0 <= i < n ==> OnePerHeight(AtStake(qs[i], es[i]))
  }

  /** Over every steady run: pool and cache have agreed throughout exactly when no two blocks of one height met. */
  lemma {:induction false} RunTied(qs: seq<State>, es: seq<Event>, n: nat)
    requires SteadyRun(qs, es) && TellingRun(qs, es) && n < |qs| && Tied(qs[0])
    requires |qs[0].cache| <= 0x8000_0000_0000_0000
    ensures TiedUpTo(qs, n) <==> ClashFree(qs, es, n)
  {
    hide *;
    RunLength(qs, es);
    UpToStep(qs, es, n);
    if n > 0 {
      RunTied(qs, es, n - 1);
      RunSize(qs, es, n - 1);
      TakenConsecutive(qs, es, n - 1);
      SteadyAt(qs, es, n - 1);
      if TiedUpTo(qs, n - 1) { SteadyTied(qs[n - 1], es[n - 1], qs[n]); }
    }
  }

  lemma UpToStep(qs: seq<State>, es: seq<Event>, n: nat)
    requires TellingRun(qs, es) && n < |qs|
    ensures n == 0 ==> (TiedUpTo(qs, n) <==> Tied(qs[0])) && ClashFree(qs, es, n)
    ensures n > 0 ==> (TiedUpTo(qs, n) <==> TiedUpTo(qs, n - 1) && Tied(qs[n])) && (TiedUpTo(qs, n - 1) ==> Tied(qs[n - 1]))
    ensures n > 0 ==> Telling(AtStake(qs[n - 1], es[n - 1]))
    ensures n > 0 ==> (ClashFree(qs, es, n) <==> ClashFree(qs, es, n - 1) && OnePerHeight(AtStake(qs[n - 1], es[n - 1])))
  {
    hide Tied, Telling, OnePerHeight, AtStake;
  }

  lemma SteadyTied(q: State, e: Event, q': State)
    requires Tied(q) && Placed(q) && |q.cache| <= 0x8000_0000_0000_0000 && Telling(AtStake(q, e))
    requires Next(q, e, q') && Steady(q, e)
    ensures Tied(q') <==> OnePerHeight(AtStake(q, e))
  {
    assert !e.ResetEvent?;
    hide *;
    StepTied(q, e, q');
  }

  lemma FirstTied(q: State, b: Block, p: Peer)
    requires |q.cache| > 0 && q.cache[0] == Some(QueueBlock(b, p)) && forall i :: 0 < i < |q.cache| ==> q.cache[i].None?
    ensures BlocksIn(q.cache) == {b} && HashSet(BlocksIn(q.cache)) == {b.hash}
  {
    assert b in BlocksIn(q.cache);
  }

  /** Two peers' blocks of one height: the second overwrites the first, whose hash stays in the pool when
      everything has been taken out of the cache. */
  lemma Overwritten(q0: State, p: Peer, h: Hash, k: Hash, time: int)
    returns (q1: State, q2: State, q3: State, q4: State, q5: State, q6: State, q7: State, q8: State)
    requires |q0.cache| > 1 && h != k
    ensures && Next(q0, ResetEvent, q1) && Next(q1, InsertEvent([h], [h]), q2)
            && Next(q2, ReserveEvent(p, {}, 1, time, Some(Ask(q1, p, h, time))), q3)
            && Next(q3, DeliverEvent(p, [Block(h, 0)], Delivered(0)), q4)
            && Next(q4, InsertEvent([k], [k]), q5)
            && Next(q5, ReserveEvent(p, {}, 1, time, Some(Ask(q4, p, k, time))), q6)
            && Next(q6, DeliverEvent(p, [Block(k, 0)], Delivered(0)), q7)
            && Next(q7, TakeEvent([QueueBlock(Block(k, 0), p)]), q8)
    ensures Tied(q4) && !Tied(q7) && BlocksIn(q8.cache) == {} && h in q8.blockPool
  {
    hide Next, Tied, TakeBlocks;
    q1 := Reset(q0);
    q2, q3 := InsertOne(q1, h), Asking(q1, p, h, time);
    q4 := Arrived(q3, p, Block(h, 0));
    FirstDispatch(q0, p, h, time);
    DeliverOne(q3, p, -1, time, Block(h, 0));
    q5, q6, q7 := SecondBlock(q4, p, h, k, time);
    q8 := TakeBlocks(q7).0;
    TakeFirst(q7, p, Block(k, 0), h);
  }

  lemma SecondBlock(q4: State, p: Peer, h: Hash, k: Hash, time: int) returns (q5: State, q6: State, q7: State)
    requires q4.queued == multiset{} && q4.pending == map[] && q4.hashPool == map[] && q4.offset == 0 && |q4.cache| > 1
    requires q4.blockPool == map[h := 0] && h != k && q4.cache[0] == Some(QueueBlock(Block(h, 0), p))
    requires forall i :: 0 < i < |q4.cache| ==> q4.cache[i].None?
    ensures Next(q4, InsertEvent([k], [k]), q5) && Next(q5, ReserveEvent(p, {}, 1, time, Some(Ask(q4, p, k, time))), q6)
    ensures Next(q6, DeliverEvent(p, [Block(k, 0)], Delivered(0)), q7)
    ensures Tied(q4) && !Tied(q7) && h in q7.blockPool && |q7.cache| > 1
    ensures q7.cache[0] == Some(QueueBlock(Block(k, 0), p)) && forall i :: 0 < i < |q7.cache| ==> q7.cache[i].None?
  {
    hide Next;
    q5, q6 := InsertOne(q4, k), Asking(q4, p, k, time);
    q7 := Arrived(q6, p, Block(k, 0));
    Dispatched(q4, p, k, time);
    DeliverOne(q6, p, -(q4.counter + 1), time, Block(k, 0));
    FirstTied(q4, Block(h, 0), p);
    FirstTied(q7, Block(k, 0), p);
  }

  lemma TakeFirst(q: State, p: Peer, b: Block, h: Hash)
    requires |q.cache| > 1 && q.cache[0] == Some(QueueBlock(b, p)) && h in q.blockPool && h != b.hash
    requires forall i :: 0 < i < |q.cache| ==> q.cache[i].None?
    ensures Next(q, TakeEvent([QueueBlock(b, p)]), TakeBlocks(q).0)
    ensures BlocksIn(TakeBlocks(q).0.cache) == {} && h in TakeBlocks(q).0.blockPool
  {
    ReadyIs(q.cache, 1);
    hide Ready;
    assert ReadyBlocks(q.cache) == [QueueBlock(b, p)];
  }
}
