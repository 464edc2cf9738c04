/** The download queue of backend/queue.go: each method takes one step of the state machine. */
module SyncQueue {
  import opened Options
  import opened Priqueue
  import Heap
  import opened DownloadQueue

  /** Pushes every hash of m, in whatever order the map is walked. */
  method Requeue(queue: Queue<Hash>, m: map<Hash, int>)
    requires queue.Valid()
    modifies queue.cont, queue.cont.Arrays()
    ensures queue.Valid() && queue.Items() == old(queue.Items()) + ItemsOf(m)
    ensures queue.cont == old(queue.cont) && fresh(queue.cont.Arrays() - old(queue.cont.Arrays()))
  {
    hide Queue.Valid, Queue.Items, ItemsOf;
    var rest := m;
    while rest != map[]
      invariant queue.Valid() && queue.cont == old(queue.cont) && fresh(queue.cont.Arrays() - old(queue.cont.Arrays()))
      invariant queue.Items() + ItemsOf(rest) == old(queue.Items()) + ItemsOf(m)
      decreases |rest|
    {
      var h :| h in rest;
      ItemsWithout(rest, h);
      FewerSize(rest, h);
      queue.Push(h, rest[h]);
      rest := rest - {h};
    }
    ItemsSize(map[]);
  }

  /** Pushes every hash of every request, and lists the peers. */
  method RequeueAll(queue: Queue<Hash>, gone: Pending) returns (peers: seq<Peer>)
    requires queue.Valid()
    modifies queue.cont, queue.cont.Arrays()
    ensures queue.Valid() && queue.Items() == old(queue.Items()) + InFlight(gone)
    ensures queue.cont == old(queue.cont) && fresh(queue.cont.Arrays() - old(queue.cont.Arrays()))
    ensures forall p :: p in peers <==> p in gone
  {
    assert InFlight(map[]) == multiset{};
    hide Queue.Valid, Queue.Items, ItemsOf, InFlight;
    peers := [];
    var rest := gone;
    while rest != map[]
      invariant queue.Valid() && queue.cont == old(queue.cont) && fresh(queue.cont.Arrays() - old(queue.cont.Arrays()))
      invariant queue.Items() + InFlight(rest) == old(queue.Items()) + InFlight(gone)
      invariant forall p :: p in gone <==> p in peers || p in rest
      decreases |rest|
    {
      var p :| p in rest;
      InFlightWithout(rest, p);
      FewerSize(rest, p);
      Requeue(queue, rest[p].hashes);
      peers := peers + [p];
      rest := rest - {p};
    }
  }

  /** The popping loop of Reserve: at most `space` pops and `count` hashes to send. */
  method Pick(queue: Queue<Hash>, lacks: set<Hash>, count: int, space: int)
    returns (send: map<Hash, int>, skip: map<Hash, int>, ghost picks: seq<Item<Hash>>)
    requires queue.Valid()
    modifies queue.cont, queue.cont.Arrays()
    ensures queue.Valid() && queue.cont == old(queue.cont) && queue.cont.Arrays() == old(queue.cont.Arrays())
    ensures Popped(old(queue.Items()), picks, queue.Items()) && Picks(space, lacks, count, picks, queue.Items())
    ensures send == SendOf(picks, lacks) && skip == SkipOf(picks, lacks)
  {
    hide Queue.Valid, Queue.Items, Popped;
    send, skip, picks := map[], map[], [];
    PopNothing(queue.Items());
    var i := 0;
    while i < space && |send| < count && !queue.Empty()
      invariant queue.Valid() && queue.cont == old(queue.cont) && queue.cont.Arrays() == old(queue.cont.Arrays())
      invariant i == |picks| && (picks == [] || |picks| <= space)
      invariant forall n :: 0 <= n < |picks| ==> |SendOf(picks[..n], lacks)| < count
      invariant Popped(old(queue.Items()), picks, queue.Items())
      invariant send == SendOf(picks, lacks) && skip == SkipOf(picks, lacks)
    {
      ghost var before, all := picks, queue.Items();
      var hash, priority := queue.Pop();
      PopOne(old(queue.Items()), before, all, queue.Items(), Item(hash, priority));
      PickOne(before, Item(hash, priority), lacks, count);
      picks := picks + [Item(hash, priority)];
      if hash in lacks {
        skip := skip[hash := priority];
      } else {
        send := send[hash := priority];
      }
      i := i + 1;
    }
  }

  /** Popping, and pushing back what the peer lacks. */
  method HandOut(queue: Queue<Hash>, lacks: set<Hash>, count: int, space: int)
    returns (send: map<Hash, int>, ghost picks: seq<Item<Hash>>, ghost rest: Items)
    requires queue.Valid()
    modifies queue.cont, queue.cont.Arrays()
    ensures queue.Valid() && queue.cont == old(queue.cont) && fresh(queue.cont.Arrays() - old(queue.cont.Arrays()))
    ensures Popped(old(queue.Items()), picks, rest) && Picks(space, lacks, count, picks, rest)
    ensures send == SendOf(picks, lacks) && queue.Items() == rest + ItemsOf(SkipOf(picks, lacks))
  {
    hide Queue.Valid, Queue.Items, ItemsOf, Picks, Popped, SendOf, SkipOf;
    var skip;
    send, skip, picks := Pick(queue, lacks, count, space);
    rest := queue.Items();
    Requeue(queue, skip);
  }

  lemma PopNothing(items: Items)
    ensures Popped(items, [], items)
  {}

  lemma PopOne(all: Items, picks: seq<Item<Hash>>, left: Items, rest: Items, x: Item<Hash>)
    requires Popped(all, picks, left) && left == rest + multiset{x} && forall y :: y in rest ==> y.priority <= x.priority
    ensures Popped(all, picks + [x], rest)
  {
    assert multiset(picks + [x]) == multiset(picks) + multiset{x};
  }

  lemma PickOne(picks: seq<Item<Hash>>, x: Item<Hash>, lacks: set<Hash>, count: int)
    requires |SendOf(picks, lacks)| < count && forall n :: 0 <= n < |picks| ==> |SendOf(picks[..n], lacks)| < count
    ensures forall n :: 0 <= n < |picks + [x]| ==> |SendOf((picks + [x])[..n], lacks)| < count
    ensures SendOf(picks + [x], lacks) ==
            if x.value in lacks then SendOf(picks, lacks) else SendOf(picks, lacks)[x.value := x.priority]
    ensures SkipOf(picks + [x], lacks) ==
            if x.value in lacks then SkipOf(picks, lacks)[x.value := x.priority] else SkipOf(picks, lacks)
  {
    var more := picks + [x];
    assert more[..|picks|] == picks;
    forall n | 0 <= n < |more| ensures |SendOf(more[..n], lacks)| < count {
      assert more[..n] == if n < |picks| then picks[..n] else picks;
    }
  }

  class SyncQueue {
    var hashCounter: nat
    var hashPool: map<Hash, int>
    var blockPool: map<Hash, int>
    var pendPool: Pending
    const hashQueue: Queue<Hash>
    var blockCache: array<Option<QueueBlock>>
    var blockOffset: Height

    ghost predicate Valid()
      reads this, hashQueue, hashQueue.cont, hashQueue.cont.Arrays()
    {
      hashQueue.Valid()
    }

    ghost function View(): State
      requires Valid()
      reads this, hashQueue, hashQueue.cont, hashQueue.cont.Arrays(), blockCache
    {
      State(hashCounter, hashPool, blockPool, pendPool, hashQueue.Items(), blockCache[..], blockOffset)
    }

    /** The priority queue's storage may only have grown by new blocks. */
    twostate predicate SameQueue(cont: SStack<Hash>, arrays: set<array<Option<Item<Hash>>>>)
      reads hashQueue, hashQueue.cont
    {
      hashQueue.cont == cont && fresh(hashQueue.cont.Arrays() - arrays)
    }

    /** Objects of different types are different. */
    lemma Apart()
      ensures forall a :: a in hashQueue.cont.Arrays() ==> a as object != this && a as object != hashQueue
      ensures forall a :: a in hashQueue.cont.Arrays() ==> a as object != blockCache as object
    {}

    lemma PoolIs()
      requires Valid()
      ensures View().hashPool == hashPool
    {}

    constructor (queueBlockSize: nat, blockCacheLimit: nat)
      requires queueBlockSize > 0
      ensures Valid() && View() == DownloadQueue.Reset(View()) && blockCache.Length == blockCacheLimit
      ensures fresh(hashQueue) && fresh(hashQueue.cont) && fresh(hashQueue.cont.Arrays()) && fresh(blockCache)
    {
      hashCounter, hashPool, blockPool, pendPool, blockOffset := 0, map[], map[], map[], 0;
      hashQueue := new Queue(queueBlockSize);
      blockCache := new Option<QueueBlock>[blockCacheLimit](_ => None);
    }

    method Schedule(h: Hash)
      requires Valid() && h !in hashPool
      modifies this`hashCounter, this`hashPool, hashQueue.cont, hashQueue.cont.Arrays()
      ensures Valid() && SameQueue(old(hashQueue.cont), old(hashQueue.cont.Arrays()))
      ensures View() == InsertOne(old(View()), h)
    {
      hide Queue.Valid, Queue.Items;
      hashCounter := hashCounter + 1;
      hashPool := hashPool[h := hashCounter];
      var c: int := hashCounter;
      hashQueue.Push(h, -c);
    }

    method Insert(hashes: seq<Hash>) returns (inserts: seq<Hash>)
      requires Valid()
      modifies this`hashCounter, this`hashPool, hashQueue.cont, hashQueue.cont.Arrays()
      ensures Valid() && SameQueue(old(hashQueue.cont), old(hashQueue.cont.Arrays()))
      ensures Next(old(View()), InsertEvent(hashes, inserts), View())
    {
      hide Valid, View, InsertOne;
      inserts := [];
      var i := 0;
      ghost var q := View();
      assert hashes[0..] == hashes;
      while i < |hashes|
        invariant 0 <= i <= |hashes| && Valid() && SameQueue(old(hashQueue.cont), old(hashQueue.cont.Arrays()))
        invariant DownloadQueue.Insert(q, hashes).0 == DownloadQueue.Insert(View(), hashes[i..]).0
        invariant DownloadQueue.Insert(q, hashes).1 == inserts + DownloadQueue.Insert(View(), hashes[i..]).1
      {
        var h := hashes[i];
        assert hashes[i..] == [h] + hashes[i + 1..];
        PoolIs();
        if h !in hashPool {
          inserts := inserts + [h];
          Schedule(h);
        }
        i := i + 1;
      }
      assert hashes[i..] == [];
      InsertNothing(View());
      assert inserts + [] == inserts;
    }

    method Cancel(request: Request)
      requires Valid()
      modifies this`pendPool, hashQueue.cont, hashQueue.cont.Arrays()
      ensures Valid() && SameQueue(old(hashQueue.cont), old(hashQueue.cont.Arrays()))
      ensures Next(old(View()), CancelEvent(request), View())
    {
      hide Queue.Valid, Queue.Items, ItemsOf;
      Requeue(hashQueue, request.hashes);
      pendPool := pendPool - {request.peer};
    }

    /** The number of hashes in flight. */
    method InFlightCount() returns (n: nat)
      ensures n == |InFlight(pendPool)|
    {
      n := 0;
      var rest := pendPool;
      while rest != map[]
        invariant n + |InFlight(rest)| == |InFlight(pendPool)|
        decreases |rest|
      {
        var p :| p in rest;
        InFlightWithout(rest, p);
        ItemsSize(rest[p].hashes);
        FewerSize(rest, p);
        n := n + |rest[p].hashes|;
        rest := rest - {p};
      }
    }

    /** Whether a reservation would find no room. */
    method Throttle() returns (b: bool)
      ensures b <==> |InFlight(pendPool)| >= blockCache.Length - |blockPool|
    {
      var n := InFlightCount();
      b := n >= blockCache.Length - |blockPool|;
    }

    /** `lacks` holds the hashes the peer is marked as not having. */
    method Reserve(p: Peer, lacks: set<Hash>, count: int, now: int) returns (request: Option<Request>)
      requires Valid()
      modifies this`pendPool, hashQueue.cont, hashQueue.cont.Arrays()
      ensures Valid() && SameQueue(old(hashQueue.cont), old(hashQueue.cont.Arrays()))
      ensures Next(old(View()), ReserveEvent(p, lacks, count, now, request), View())
    {
      hide Queue.Valid, Queue.Items, InFlight, ItemsOf, Picks, Popped, SendOf, SkipOf, DownloadQueue.Reserve;
      Apart();
      if hashQueue.Empty() || p in pendPool {
        ReservedNone(View(), p, lacks, count, now);
        return None;
      }
      ghost var q := View();
      var inFlight := InFlightCount();
      ghost var picks, rest;
      var send;
      send, picks, rest := HandOut(hashQueue, lacks, count, blockCache.Length - |blockPool| - inFlight);
      request := None;
      if send != map[] {
        request := Some(Request(p, send, now));
        pendPool := pendPool[p := request.value];
      }
      ReservedBy(q, p, lacks, count, now, picks, rest, request, View());
    }

    method Expire(now: int, timeout: int) returns (peers: seq<Peer>)
      requires Valid()
      modifies this`pendPool, hashQueue.cont, hashQueue.cont.Arrays()
      ensures Valid() && SameQueue(old(hashQueue.cont), old(hashQueue.cont.Arrays()))
      ensures Next(old(View()), ExpireEvent(now, timeout), View())
      ensures forall p :: p in peers <==> p in Expired(old(View()), now, timeout)
    {
      hide Queue.Valid, Queue.Items, InFlight;
      var gone := map p | p in pendPool && now - pendPool[p].time > timeout :: pendPool[p];
      peers := RequeueAll(hashQueue, gone);
      pendPool := pendPool - gone.Keys;
    }

    /** The loop of Deliver over the blocks received; `owed` is what it leaves in the request. */
    method TakeIn(p: Peer, blocks: seq<Block>, asked: map<Hash, int>) returns (owed: map<Hash, int>, errs: nat, invalid: bool)
      modifies this`hashPool, this`blockPool, blockCache
      ensures AcceptAll(Delivery(asked, old(hashPool), old(blockPool), old(blockCache[..]), 0, false), blocks, blockOffset, p)
              == Delivery(owed, hashPool, blockPool, blockCache[..], errs, invalid)
    {
      owed, errs, invalid := asked, 0, false;
      ghost var d0 := Delivery(asked, hashPool, blockPool, blockCache[..], 0, false);
      var i := 0;
      assert blocks[0..] == blocks;
      while i < |blocks|
        invariant 0 <= i <= |blocks| && !invalid
        invariant AcceptAll(d0, blocks, blockOffset, p)
                  == AcceptAll(Delivery(owed, hashPool, blockPool, blockCache[..], errs, false), blocks[i..], blockOffset, p)
      {
        var b := blocks[i];
        assert blocks[i..] == [b] + blocks[i + 1..];
        ghost var d := Delivery(owed, hashPool, blockPool, blockCache[..], errs, false);
        if b.hash !in owed {
          errs := errs + 1;
        } else {
          var index := Signed(b.height - blockOffset);
          if index >= blockCache.Length || index < 0 {
            invalid := true;
            return;
          }
          blockCache[index] := Some(QueueBlock(b, p));
          owed := owed - {b.hash};
          hashPool := hashPool - {b.hash};
          blockPool := blockPool[b.hash := Signed(b.height)];
        }
        assert Accept(d, b, blockOffset, p) == Delivery(owed, hashPool, blockPool, blockCache[..], errs, false);
        i := i + 1;
      }
    }

    /** `left` is what the delivery leaves in the request, which its holder may still cancel, and `ignored` holds the
        hashes the peer is marked as lacking: all of them when it sends nothing. */
    method Deliver(p: Peer, blocks: seq<Block>) returns (outcome: Outcome, left: map<Hash, int>, ignored: set<Hash>)
      requires Valid()
      modifies this`pendPool, this`hashPool, this`blockPool, blockCache, hashQueue.cont, hashQueue.cont.Arrays()
      ensures Valid() && SameQueue(old(hashQueue.cont), old(hashQueue.cont.Arrays()))
      ensures Next(old(View()), DeliverEvent(p, blocks, outcome), View())
      ensures left == if p in old(pendPool) then AfterDelivery(old(View()), p, blocks).owed else map[]
      ensures ignored == if p in old(pendPool) && blocks == [] then old(pendPool)[p].hashes.Keys else {}
    {
      hide Queue.Valid, Queue.Items, ItemsOf, AcceptAll;
      Apart();
      left, ignored := map[], {};
      if p !in pendPool {
        outcome := NotFound;
        return;
      }
      var request := pendPool[p];
      pendPool := pendPool - {p};
      if |blocks| == 0 {
        ignored := request.hashes.Keys;
      }
      var errs, invalid;
      left, errs, invalid := TakeIn(p, blocks, request.hashes);
      if invalid {
        outcome := InvalidChain;
        return;
      }
      Requeue(hashQueue, left);
      outcome := Delivered(errs);
    }

    method Prepare(offset: Height)
      requires Valid()
      modifies this`blockOffset
      ensures Valid() && Next(old(View()), PrepareEvent(offset), View())
    {
      hide SStack.Valid, SStack.Contents, Heap.IsHeap;
      Apart();
      if blockOffset < offset {
        blockOffset := offset;
      }
    }

    /** Moves the remaining blocks to the front and clears the rest. */
    method Shift(n: nat)
      requires n <= blockCache.Length
      modifies blockCache
      ensures blockCache[..] == old(blockCache[..])[n..] + seq(n, _ => None)
    {
      ghost var was := blockCache[..];
      var len, k := blockCache.Length, 0;
      while k < len - n
        invariant 0 <= k <= len - n
        invariant forall i :: 0 <= i < k ==> blockCache[i] == was[i + n]
        invariant forall i :: k <= i < len ==> blockCache[i] == was[i]
      {
        blockCache[k] := blockCache[k + n];
        k := k + 1;
      }
      while k < len
        invariant len - n <= k <= len
        invariant forall i :: 0 <= i < len - n ==> blockCache[i] == was[i + n]
        invariant forall i :: len - n <= i < k ==> blockCache[i] == None
      {
        blockCache[k] := None;
        k := k + 1;
      }
    }

    /** Collects the blocks at the front of the cache up to the first gap. */
    method Collect() returns (blocks: seq<QueueBlock>)
      modifies this`blockPool
      ensures blocks == ReadyBlocks(blockCache[..]) && blockPool == old(blockPool) - HashesOf(blocks)
    {
      blocks := [];
      var i := 0;
      assert HashesOf([]) == {};
      while i < blockCache.Length && blockCache[i].Some?
        invariant 0 <= i <= blockCache.Length && |blocks| == i
        invariant forall j :: 0 <= j < i ==> blockCache[j] == Some(blocks[j])
        invariant blockPool == old(blockPool) - HashesOf(blocks)
      {
        var b := blockCache[i].value;
        assert HashesOf(blocks + [b]) == HashesOf(blocks) + {b.rawBlock.hash} by {
          assert (blocks + [b])[i] == b && forall j :: 0 <= j < i ==> (blocks + [b])[j] == blocks[j];
        }
        blocks := blocks + [b];
        blockPool := blockPool - {b.rawBlock.hash};
        i := i + 1;
      }
      ReadyIs(blockCache[..], i);
      assert blocks == ReadyBlocks(blockCache[..]);
    }

    method TakeBlocks() returns (blocks: seq<QueueBlock>)
      requires Valid()
      modifies this`blockPool, this`blockOffset, blockCache
      ensures Valid() && Next(old(View()), TakeEvent(blocks), View())
    {
      hide Queue.Valid, Queue.Items, Ready, ReadyBlocks, HashesOf;
      Apart();
      blocks := Collect();
      Shift(|blocks|);
      blockOffset := HeightAt(blockOffset, |blocks|);
    }

    method Reset()
      requires Valid()
      modifies this, hashQueue
      ensures Valid() && Next(old(View()), ResetEvent, View())
      ensures fresh(blockCache) && fresh(hashQueue.cont) && fresh(hashQueue.cont.Arrays())
    {
      hide SStack.Valid, SStack.Contents, Heap.IsHeap;
      Apart();
      hashCounter, hashPool, blockPool, pendPool, blockOffset := 0, map[], map[], map[], 0;
      hashQueue.Reset();
      blockCache := new Option<QueueBlock>[blockCache.Length](_ => None);
    }
  }
}
