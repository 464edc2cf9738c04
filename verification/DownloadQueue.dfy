/**
 * The block download queue of backend/queue.go as a state machine. Hashes move between the priority
 * queue, the requests in flight and the block cache. The state is what the fields hold, with the
 * priority queue seen as the multiset of its items.
 */
module DownloadQueue {
  import opened Options
  import opened Bytes
  import opened Collections
  import opened Priqueue

  type Hash = seq<byte>
  type Peer = seq<byte>
  type Items = multiset<Item<Hash>>

  /** uint64 heights, and the wrap-around of sums of them. */
  type Height = x: int | 0 <= x < 0x1_0000_0000_0000_0000

  function Wrap(x: int): (r: Height)
  {
    x % 0x1_0000_0000_0000_0000
  }

  /** The conversion of a 64-bit word to int64. */
  function Signed(x: int): (r: int)
  {
    if Wrap(x) < 0x8000_0000_0000_0000 then Wrap(x) else Wrap(x) - 0x1_0000_0000_0000_0000
  }

  /** The height that slot i of the cache is for. */
  function HeightAt(offset: Height, i: int): (r: Height)
  {
    Wrap(offset + i)
  }

  lemma WrapSum(a: int, b: int)
    ensures Wrap(Wrap(a) + b) == Wrap(a + b)
  {}

  /** The slot a height is cached at leads back to the height. */
  lemma SlotHeight(height: Height, offset: Height)
    ensures Wrap(offset + Signed(height - offset)) == height
  {}

  datatype Block = Block(hash: Hash, height: Height)
  datatype QueueBlock = QueueBlock(rawBlock: Block, originPeer: Peer)
  datatype Request = Request(peer: Peer, hashes: map<Hash, int>, time: int)

  type Cache = seq<Option<QueueBlock>>
  type Pending = map<Peer, Request>

  datatype State = State(counter: nat, hashPool: map<Hash, int>, blockPool: map<Hash, int>, pending: Pending,
                         queued: Items, cache: Cache, offset: Height)

  /** A map of hashes to priorities, as items. */
  ghost function ItemsOf(m: map<Hash, int>): Items
  {
    multiset(set h | h in m :: Item(h, m[h]))
  }

  /** Everything in flight. */
  ghost function InFlight(pending: Pending): Items
    decreases |pending|
  {
    if pending == map[] then multiset{}
    else
      var p :| p in pending;
      ItemsOf(pending[p].hashes) + InFlight(pending - {p})
  }

  /** What should be queued or in flight: every scheduled hash, at its original priority. */
  ghost function Scheduled(hashPool: map<Hash, int>): Items
  {
    multiset(set h | h in hashPool :: Item(h, -hashPool[h]))
  }

  lemma {:induction false} InFlightWithout(pending: Pending, p: Peer)
    requires p in pending
    ensures InFlight(pending) == ItemsOf(pending[p].hashes) + InFlight(pending - {p})
    decreases |pending|
  {
    hide ItemsOf;
    assert pending != map[];
    var o :| o in pending && InFlight(pending) == ItemsOf(pending[o].hashes) + InFlight(pending - {o});
    if o != p {
      InFlightWithout(pending - {o}, p);
      assert pending - {o} - {p} == pending - {p} - {o};
      InFlightWithout(pending - {p}, o);
    }
  }

  lemma InFlightWith(pending: Pending, p: Peer, r: Request)
    requires p !in pending
    ensures InFlight(pending[p := r]) == ItemsOf(r.hashes) + InFlight(pending)
  {
    hide ItemsOf, InFlight;
    InFlightWithout(pending[p := r], p);
    assert pending[p := r] - {p} == pending;
  }

  lemma ItemsSize(m: map<Hash, int>)
    ensures |ItemsOf(m)| == |m|
  {
    var s := set h | h in m :: Item(h, m[h]);
    SetSize(m, s);
  }

  lemma {:induction false} SetSize(m: map<Hash, int>, s: set<Item<Hash>>)
    requires s == set h | h in m :: Item(h, m[h])
    ensures |s| == |m|
    decreases |m|
  {
    if m == map[] {
      assert s == {};
    } else {
      var h :| h in m;
      var m' := m - {h};
      assert m.Keys == m'.Keys + {h};
      assert s - {Item(h, m[h])} == set k | k in m' :: Item(k, m'[k]);
      SetSize(m', s - {Item(h, m[h])});
    }
  }

  lemma ItemsWithout(m: map<Hash, int>, h: Hash)
    requires h in m
    ensures ItemsOf(m) == ItemsOf(m - {h}) + multiset{Item(h, m[h])}
  {
    var s := set k | k in m - {h} :: Item(k, m[k]);
    assert (set k | k in m :: Item(k, m[k])) == s + {Item(h, m[h])};
  }

  lemma ScheduledWithout(m: map<Hash, int>, h: Hash)
    requires h in m
    ensures Scheduled(m) == Scheduled(m - {h}) + multiset{Item(h, -m[h])}
  {
    var s := set k | k in m - {h} :: Item(k, -m[k]);
    assert (set k | k in m :: Item(k, -m[k])) == s + {Item(h, -m[h])};
  }

  lemma ScheduledWith(m: map<Hash, int>, h: Hash, c: int)
    requires h !in m
    ensures Scheduled(m[h := c]) == Scheduled(m) + multiset{Item(h, -c)}
  {
    hide Scheduled;
    ScheduledWithout(m[h := c], h);
    assert m[h := c] - {h} == m;
  }

  /** Hashes already scheduled are skipped; the others get the next counter, negated, as priority. */
  ghost function Insert(q: State, hashes: seq<Hash>): (State, seq<Hash>)
    decreases hashes
  {
    if hashes == [] then (q, [])
    else
      var h := hashes[0];
      if h in q.hashPool then Insert(q, hashes[1..])
      else
        var (q', rest) := Insert(InsertOne(q, h), hashes[1..]);
        (q', [h] + rest)
  }

  lemma InsertNothing(q: State)
    ensures Insert(q, []) == (q, [])
  {}

  ghost function InsertOne(q: State, h: Hash): State
  {
    var c := q.counter + 1;
    q.(counter := c, hashPool := q.hashPool[h := c], queued := q.queued + multiset{Item(h, -c)})
  }

  /** The request's hashes go back into the queue, and whatever its peer has pending is dropped. */
  ghost function Cancel(q: State, r: Request): State
  {
    q.(queued := q.queued + ItemsOf(r.hashes), pending := q.pending - {r.peer})
  }

  ghost function Space(q: State): int
  {
    |q.cache| - |q.blockPool| - |InFlight(q.pending)|
  }

  /** Nothing picked has a lower priority than anything left. */
  ghost predicate PickedFirst(picked: Items, rest: Items)
  {
    forall x, y :: x in picked && y in rest ==> x.priority >= y.priority
  }

  /** Some of the queued hashes, in order of priority and none that the peer is known to lack, are handed out:
      `skip` holds the ones passed over. */
  ghost predicate HandsOut(q: State, lacks: set<Hash>, count: int, send: map<Hash, int>, rest: Items, skip: Items)
  {
    && ItemsOf(send) + rest == q.queued && skip <= rest
    && (forall h :: h in send ==> h !in lacks) && (forall x :: x in skip ==> x.value in lacks)
    && PickedFirst(ItemsOf(send) + skip, rest - skip)
    && (send == map[] || |send| <= count)
    && (|send| + |skip| == 0 || |send| + |skip| <= Space(q))
    && (|send| >= count || |send| + |skip| >= Space(q) || rest == skip)
  }

  /** The popped hashes that go to the peer, and those it is known to lack; a hash popped twice counts once. */
  function SendOf(picks: seq<Item<Hash>>, lacks: set<Hash>): (r: map<Hash, int>)
  {
    if picks == [] then map[]
    else
      var m, x := SendOf(picks[..|picks| - 1], lacks), picks[|picks| - 1];
      if x.value in lacks then m else m[x.value := x.priority]
  }

  function SkipOf(picks: seq<Item<Hash>>, lacks: set<Hash>): (r: map<Hash, int>)
  {
    if picks == [] then map[]
    else
      var m, x := SkipOf(picks[..|picks| - 1], lacks), picks[|picks| - 1];
      if x.value in lacks then m[x.value := x.priority] else m
  }

  /** `picks` came off the queue one after the other, highest priority first, and left `rest`. */
  ghost predicate Popped(queued: Items, picks: seq<Item<Hash>>, rest: Items)
  {
    && multiset(picks) + rest == queued
    && (forall i, j :: 0 <= i < j < |picks| ==> picks[i].priority >= picks[j].priority)
    && (forall i, y :: 0 <= i < |picks| && y in rest ==> picks[i].priority >= y.priority)
  }

  /** The popping stops when the space or the count is used up or nothing is left, and not before. */
  ghost predicate Picks(space: int, lacks: set<Hash>, count: int, picks: seq<Item<Hash>>, rest: Items)
  {
    && (picks == [] || |picks| <= space)
    && (forall n :: 0 <= n < |picks| ==> |SendOf(picks[..n], lacks)| < count)
    && (|picks| >= space || |SendOf(picks, lacks)| >= count || rest == multiset{})
  }

  ghost predicate Reserves(q: State, p: Peer, lacks: set<Hash>, count: int, time: int, r: Option<Request>, q': State,
                           picks: seq<Item<Hash>>, rest: Items)
  {
    var send := SendOf(picks, lacks);
    var q1 := q.(queued := rest + ItemsOf(SkipOf(picks, lacks)));
    && Popped(q.queued, picks, rest) && Picks(Space(q), lacks, count, picks, rest)
    && (send == map[] ==> q' == q1 && r.None?)
    && (send != map[] ==> r == Some(Request(p, send, time)) && q' == q1.(pending := q.pending[p := r.value]))
  }

  ghost predicate Reserve(q: State, p: Peer, lacks: set<Hash>, count: int, time: int, r: Option<Request>, q': State)
  {
    if q.queued == multiset{} || p in q.pending then q' == q && r.None?
    else exists picks, rest :: Reserves(q, p, lacks, count, time, r, q', picks, rest)
  }

  lemma ReservedNone(q: State, p: Peer, lacks: set<Hash>, count: int, time: int)
    requires q.queued == multiset{} || p in q.pending
    ensures Reserve(q, p, lacks, count, time, None, q)
  {}

  /** The step that these picks make. */
  lemma ReservedBy(q: State, p: Peer, lacks: set<Hash>, count: int, time: int, picks: seq<Item<Hash>>, rest: Items,
                   r: Option<Request>, q': State)
    requires q.queued != multiset{} && p !in q.pending
    requires Popped(q.queued, picks, rest) && Picks(Space(q), lacks, count, picks, rest)
    requires var send, q1 := SendOf(picks, lacks), q.(queued := rest + ItemsOf(SkipOf(picks, lacks)));
             if send == map[] then r.None? && q' == q1
             else r == Some(Request(p, send, time)) && q' == q1.(pending := q.pending[p := r.value])
    ensures Reserve(q, p, lacks, count, time, r, q')
  {
    hide Popped, Picks, Space, SendOf, SkipOf, ItemsOf;
    assert Reserves(q, p, lacks, count, time, r, q', picks, rest);
  }

  ghost function Expired(q: State, now: int, timeout: int): Pending
  {
    map p | p in q.pending && now - q.pending[p].time > timeout :: q.pending[p]
  }

  ghost function Expire(q: State, now: int, timeout: int): State
  {
    var gone := Expired(q, now, timeout);
    q.(queued := q.queued + InFlight(gone), pending := q.pending - gone.Keys)
  }

  datatype Outcome = NotFound | InvalidChain | Delivered(errs: nat)

  /** The loop of Deliver: hashes still owed, the pools, the cache, the number of blocks not asked for. */
  datatype Delivery = Delivery(owed: map<Hash, int>, hashPool: map<Hash, int>, blockPool: map<Hash, int>,
                               cache: Cache, errs: nat, invalid: bool)

  /** The index is computed in int64. */
  function Accept(d: Delivery, b: Block, offset: Height, p: Peer): (d': Delivery)
  {
    if b.hash !in d.owed then d.(errs := d.errs + 1)
    else
      var index := Signed(b.height - offset);
      if index >= |d.cache| || index < 0 then d.(invalid := true)
      else
        d.(owed := d.owed - {b.hash}, hashPool := d.hashPool - {b.hash},
           blockPool := d.blockPool[b.hash := Signed(b.height)],
           cache := d.cache[index := Some(QueueBlock(b, p))])
  }

  function AcceptAll(d: Delivery, blocks: seq<Block>, offset: Height, p: Peer): (d': Delivery)
    decreases blocks
  {
    if d.invalid || blocks == [] then d else AcceptAll(Accept(d, blocks[0], offset, p), blocks[1..], offset, p)
  }

  ghost function Deliver(q: State, p: Peer, blocks: seq<Block>): (State, Outcome)
  {
    if p !in q.pending then (q, NotFound)
    else
      var d := AcceptAll(Delivery(q.pending[p].hashes, q.hashPool, q.blockPool, q.cache, 0, false), blocks, q.offset, p);
      var q' := q.(pending := q.pending - {p}, hashPool := d.hashPool, blockPool := d.blockPool, cache := d.cache);
      if d.invalid then (q', InvalidChain)
      else (q'.(queued := q.queued + ItemsOf(d.owed)), Delivered(d.errs))
  }

  /** How many blocks are ready at the front of the cache. */
  function Ready(cache: Cache): (n: nat)
    ensures n <= |cache| && (forall i :: 0 <= i < n ==> cache[i].Some?)
    ensures n < |cache| ==> cache[n].None?
  {
    if cache == [] || cache[0].None? then 0 else 1 + Ready(cache[1..])
  }

  lemma {:induction false} ReadyIs(cache: Cache, n: nat)
    requires n <= |cache| && (forall i :: 0 <= i < n ==> cache[i].Some?) && (n < |cache| ==> cache[n].None?)
    ensures Ready(cache) == n
  {
    if n > 0 { ReadyIs(cache[1..], n - 1); }
  }

  function ReadyBlocks(cache: Cache): (bs: seq<QueueBlock>)
    ensures |bs| == Ready(cache) && forall i :: 0 <= i < |bs| ==> cache[i] == Some(bs[i])
  {
    seq(Ready(cache), i requires 0 <= i < Ready(cache) => cache[i].value)
  }

  function HashesOf(bs: seq<QueueBlock>): (r: set<Hash>)
  {
    set i | 0 <= i < |bs| :: bs[i].rawBlock.hash
  }

  ghost function TakeBlocks(q: State): (State, seq<QueueBlock>)
  {
    var bs := ReadyBlocks(q.cache);
    (q.(blockPool := q.blockPool - HashesOf(bs),
        cache := q.cache[|bs|..] + seq(|bs|, _ => None),
        offset := HeightAt(q.offset, |bs|)), bs)
  }

  ghost function Prepare(q: State, offset: Height): State
  {
    if q.offset < offset then q.(offset := offset) else q
  }

  ghost function Reset(q: State): State
  {
    State(0, map[], map[], map[], multiset{}, seq(|q.cache|, _ => None), 0)
  }

  datatype Event =
    | ResetEvent
    | InsertEvent(hashes: seq<Hash>, inserts: seq<Hash>)
    | CancelEvent(request: Request)
    | ReserveEvent(peer: Peer, lacks: set<Hash>, count: int, time: int, reserved: Option<Request>)
    | ExpireEvent(now: int, timeout: int)
    | DeliverEvent(peer: Peer, blocks: seq<Block>, outcome: Outcome)
    | TakeEvent(taken: seq<QueueBlock>)
    | PrepareEvent(height: Height)

  ghost predicate Next(q: State, e: Event, q': State)
  {
    match e
    case ResetEvent => q' == Reset(q)
    case InsertEvent(hashes, inserts) => (q', inserts) == Insert(q, hashes)
    case CancelEvent(r) => q' == Cancel(q, r)
    case ReserveEvent(p, lacks, count, time, r) => Reserve(q, p, lacks, count, time, r, q')
    case ExpireEvent(now, timeout) => q' == Expire(q, now, timeout)
    case DeliverEvent(p, blocks, outcome) => (q', outcome) == Deliver(q, p, blocks)
    case TakeEvent(taken) => (q', taken) == TakeBlocks(q)
    case PrepareEvent(height) => q' == Prepare(q, height)
  }

  /** Everything queued or in flight. */
  ghost function Total(q: State): Items
  {
    q.queued + InFlight(q.pending)
  }

  /** Scheduled hashes have different numbers up to the counter. */
  ghost predicate Numbered(hashPool: map<Hash, int>, counter: nat)
  {
    && (forall h :: h in hashPool ==> 0 < hashPool[h] <= counter)
    && (forall h, k :: h in hashPool && k in hashPool && hashPool[h] == hashPool[k] ==> h == k)
  }

  /** No hash is queued or in flight twice, each at the priority of its place in the schedule. */
  ghost predicate Booked(q: State)
  {
    Total(q) <= Scheduled(q.hashPool) && Numbered(q.hashPool, q.counter)
  }

  /** Nothing scheduled is lost. */
  ghost predicate Conserved(q: State)
  {
    Total(q) == Scheduled(q.hashPool)
  }

  /** Every block waited for has a place in the cache. */
  ghost predicate Bounded(q: State)
  {
    |q.blockPool| + |InFlight(q.pending)| <= |q.cache|
  }

  /** The cache is indexed by height. */
  ghost predicate Placed(q: State)
  {
    PlacedCache(q.cache, q.offset)
  }

  ghost predicate PlacedCache(cache: Cache, offset: Height)
  {
    forall i :: 0 <= i < |cache| && cache[i].Some? ==> cache[i].value.rawBlock.height == HeightAt(offset, i)
  }

  // ---- what a booking means ----

  lemma ScheduledItem(m: map<Hash, int>, x: Item<Hash>)
    ensures Scheduled(m)[x] == if x.value in m && x.priority == -m[x.value] then 1 else 0
  {
    var s := set h | h in m :: Item(h, -m[h]);
    if x.value in m && x.priority == -m[x.value] {
      assert x == Item(x.value, -m[x.value]);
      assert x in s;
    }
  }

  lemma ItemsItem(m: map<Hash, int>, h: Hash)
    requires h in m
    ensures Item(h, m[h]) in ItemsOf(m)
  {
    assert Item(h, m[h]) in set k | k in m :: Item(k, m[k]);
  }

  /** A hash is in one place at most, and at the priority it was scheduled with. */
  lemma OnePlace(q: State, h: Hash, p: Peer)
    requires Booked(q) && p in q.pending && h in q.pending[p].hashes
    ensures h in q.hashPool && q.pending[p].hashes[h] == -q.hashPool[h]
    ensures forall x :: x in q.queued ==> x.value != h
    ensures forall o :: o in q.pending && h in q.pending[o].hashes ==> o == p
  {
    hide InFlight, ItemsOf, Scheduled, Numbered;
    var x, m := Item(h, q.pending[p].hashes[h]), q.pending[p].hashes;
    ItemsItem(m, h);
    InFlightWithout(q.pending, p);
    ScheduledItem(q.hashPool, x);
    forall y | y in q.queued ensures y.value != h {
      ScheduledItem(q.hashPool, y);
    }
    forall o | o in q.pending && h in q.pending[o].hashes ensures o == p {
      if o != p {
        var z, n := Item(h, q.pending[o].hashes[h]), q.pending[o].hashes;
        ItemsItem(n, h);
        InFlightWithout(q.pending - {p}, o);
        ScheduledItem(q.hashPool, z);
      }
    }
  }

  lemma QueuedOnce(q: State, x: Item<Hash>)
    requires Booked(q) && x in q.queued
    ensures q.queued[x] == 1 && x.value in q.hashPool && x.priority == -q.hashPool[x.value]
  {
    ScheduledItem(q.hashPool, x);
  }

  // ---- each step ----

  ghost predicate Safe(q: State)
  {
    Booked(q) && Bounded(q)
  }

  lemma NumberNext(hashPool: map<Hash, int>, counter: nat, h: Hash)
    requires Numbered(hashPool, counter) && h !in hashPool
    ensures Numbered(hashPool[h := counter + 1], counter + 1)
  {}

  lemma InsertOneKeeps(q: State, h: Hash)
    requires Safe(q) && h !in q.hashPool
    ensures Safe(InsertOne(q, h)) && (Conserved(InsertOne(q, h)) <==> Conserved(q))
  {
    hide InFlight, Scheduled, Numbered;
    NumberNext(q.hashPool, q.counter, h);
    var x := Item(h, -(q.counter + 1));
    ScheduledWith(q.hashPool, h, q.counter + 1);
    InsertTotal(q, h, x);
    hide Total;
    AddBoth(Total(q), Scheduled(q.hashPool), x);
  }

  lemma InsertTotal(q: State, h: Hash, x: Item<Hash>)
    requires x == Item(h, -(q.counter + 1))
    ensures Total(InsertOne(q, h)) == Total(q) + multiset{x}
  {
    hide InFlight;
  }

  lemma AddBoth(a: Items, b: Items, x: Item<Hash>)
    ensures a <= b <==> a + multiset{x} <= b + multiset{x}
    ensures a == b <==> a + multiset{x} == b + multiset{x}
  {
    if a + multiset{x} <= b + multiset{x} {
      forall y ensures a[y] <= b[y] { assert (a + multiset{x})[y] <= (b + multiset{x})[y]; }
    }
    if a + multiset{x} == b + multiset{x} { SumCancels(a, b, multiset{x}); }
  }

  lemma {:induction false} InsertKeeps(q: State, hashes: seq<Hash>)
    requires Safe(q)
    ensures var q' := Insert(q, hashes).0;
            Safe(q') && (Conserved(q') <==> Conserved(q)) && q'.cache == q.cache && q'.offset == q.offset
    decreases hashes
  {
    hide Safe, Conserved;
    if hashes != [] {
      var h := hashes[0];
      if h in q.hashPool {
        InsertKeeps(q, hashes[1..]);
      } else {
        InsertOneKeeps(q, h);
        InsertKeeps(InsertOne(q, h), hashes[1..]);
      }
    }
  }

  /** What the queue itself remembers of the peer's request. */
  ghost function PendingHashes(q: State, p: Peer): map<Hash, int>
  {
    if p in q.pending then q.pending[p].hashes else map[]
  }

  lemma ItemsInjective(m: map<Hash, int>, n: map<Hash, int>)
    requires ItemsOf(m) == ItemsOf(n)
    ensures m == n
  {
    forall h | h in m ensures h in n && m[h] == n[h] {
      ItemsItem(m, h);
      assert Item(h, m[h]) in ItemsOf(n);
    }
    forall h | h in n ensures h in m && m[h] == n[h] {
      ItemsItem(n, h);
      assert Item(h, n[h]) in ItemsOf(m);
    }
  }

  lemma PendingSplit(q: State, p: Peer)
    ensures InFlight(q.pending) == ItemsOf(PendingHashes(q, p)) + InFlight(q.pending - {p})
  {
    hide ItemsOf;
    if p in q.pending {
      InFlightWithout(q.pending, p);
    } else {
      assert q.pending - {p} == q.pending;
      assert ItemsOf(map[]) == multiset{} by { ItemsSize(map[]); }
    }
  }

  /** A step that only moves items between the queue and the requests keeps the books. */
  lemma SameTotal(q: State, q': State)
    requires Booked(q) && Total(q') == Total(q) && q'.hashPool == q.hashPool && q'.counter == q.counter
    ensures Booked(q') && (Conserved(q') <==> Conserved(q))
  {
    hide Total, Scheduled;
  }

  lemma Regroup(a: Items, b: Items, c: Items)
    ensures (a + b) + c == a + (b + c) == b + (a + c)
  {}

  lemma CancelPending(q: State, r: Request)
    requires Safe(q) && r.hashes == PendingHashes(q, r.peer)
    ensures Safe(Cancel(q, r)) && (Conserved(Cancel(q, r)) <==> Conserved(q))
  {
    hide ItemsOf, InFlight, Scheduled;
    PendingSplit(q, r.peer);
    Regroup(q.queued, ItemsOf(r.hashes), InFlight(q.pending - {r.peer}));
    SameTotal(q, Cancel(q, r));
  }

  /** Cancelling keeps the books exactly when the request is what its peer still has pending. */
  lemma CancelKeeps(q: State, r: Request)
    requires Safe(q) && Conserved(q)
    ensures Conserved(Cancel(q, r)) <==> r.hashes == PendingHashes(q, r.peer)
    ensures r.hashes == PendingHashes(q, r.peer) ==> Safe(Cancel(q, r))
  {
    if r.hashes == PendingHashes(q, r.peer) {
      CancelPending(q, r);
    } else if Conserved(Cancel(q, r)) {
      hide ItemsOf, InFlight, Scheduled;
      var mine, theirs, others := ItemsOf(r.hashes), ItemsOf(PendingHashes(q, r.peer)), InFlight(q.pending - {r.peer});
      PendingSplit(q, r.peer);
      Regroup(mine, q.queued, others);
      Regroup(theirs, q.queued, others);
      SumCancels(mine, theirs, q.queued + others);
      ItemsInjective(r.hashes, PendingHashes(q, r.peer));
    }
  }

  lemma HandsOutParts(q: State, lacks: set<Hash>, count: int, send: map<Hash, int>, rest: Items, skip: Items)
    requires Bounded(q) && HandsOut(q, lacks, count, send, rest, skip)
    ensures ItemsOf(send) + rest == q.queued && |send| + |q.blockPool| + |InFlight(q.pending)| <= |q.cache|
  {
    hide ItemsOf, InFlight;
  }

  lemma HandsOutOrder(q: State, lacks: set<Hash>, count: int, send: map<Hash, int>, rest: Items, skip: Items,
                      h: Hash, x: Item<Hash>)
    requires HandsOut(q, lacks, count, send, rest, skip) && h in send && x in rest && x.value !in lacks
    ensures send[h] >= x.priority
  {
    ItemsItem(send, h);
    hide ItemsOf, InFlight;
    assert Item(h, send[h]) in ItemsOf(send) + skip && x in rest - skip;
  }

  lemma HandOutKeeps(q: State, p: Peer, lacks: set<Hash>, count: int, send: map<Hash, int>, rest: Items, skip: Items, time: int)
    requires Safe(q) && p !in q.pending && HandsOut(q, lacks, count, send, rest, skip)
    ensures var q' := q.(queued := rest, pending := q.pending[p := Request(p, send, time)]);
            Safe(q') && (Conserved(q') <==> Conserved(q))
  {
    hide ItemsOf, InFlight, Scheduled, HandsOut, Numbered;
    var q' := q.(queued := rest, pending := q.pending[p := Request(p, send, time)]);
    HandsOutParts(q, lacks, count, send, rest, skip);
    InFlightWith(q.pending, p, Request(p, send, time));
    ItemsSize(send);
    Regroup(rest, ItemsOf(send), InFlight(q.pending));
    SameTotal(q, q');
  }

  /** While hashes are queued once, what is popped is what is handed out or passed over. */
  lemma {:induction false} PicksPicking(all: Items, picks: seq<Item<Hash>>, rest: Items, lacks: set<Hash>)
    requires Unique(all) && Popped(all, picks, rest)
    ensures Picking(all, rest, SendOf(picks, lacks), SkipOf(picks, lacks), lacks)
    ensures |SendOf(picks, lacks)| + |SkipOf(picks, lacks)| == |picks|
    decreases picks
  {
    if picks == [] {
      assert rest == all;
      PickNothing(all, lacks);
    } else {
      var n := |picks| - 1;
      var before, x := picks[..n], picks[n];
      PoppedBefore(all, picks, rest);
      hide ItemsOf, Unique, Picking, Popped;
      PicksPicking(all, before, rest + multiset{x}, lacks);
      PickStep(all, rest, x, SendOf(before, lacks), SkipOf(before, lacks), lacks);
      NewSize(SendOf(before, lacks), x.value, x.priority);
      NewSize(SkipOf(before, lacks), x.value, x.priority);
    }
  }

  lemma PoppedBefore(all: Items, picks: seq<Item<Hash>>, rest: Items)
    requires Popped(all, picks, rest) && picks != []
    ensures Popped(all, picks[..|picks| - 1], rest + multiset{picks[|picks| - 1]})
    ensures forall y :: y in rest ==> y.priority <= picks[|picks| - 1].priority
  {
    var n := |picks| - 1;
    assert picks == picks[..n] + [picks[n]];
  }

  lemma SentWithin(picks: seq<Item<Hash>>, lacks: set<Hash>, count: int, space: int, rest: Items)
    requires Picks(space, lacks, count, picks, rest)
    ensures SendOf(picks, lacks) == map[] || |SendOf(picks, lacks)| <= count
  {
    if picks != [] {
      var n := |picks| - 1;
      MoreSize(SendOf(picks[..n], lacks), picks[n].value, picks[n].priority);
    }
  }

  lemma HandedOut(q: State, p: Peer, lacks: set<Hash>, count: int, time: int, r: Option<Request>, q': State,
                  picks: seq<Item<Hash>>, rest: Items)
    requires Booked(q) && Reserves(q, p, lacks, count, time, r, q', picks, rest)
    ensures HandsOut(q, lacks, count, SendOf(picks, lacks), q'.queued, ItemsOf(SkipOf(picks, lacks)))
  {
    hide Booked, Popped, Unique, Picking, HandsOut, ItemsOf, InFlight;
    BookedUnique(q);
    PicksPicking(q.queued, picks, rest, lacks);
    SentWithin(picks, lacks, count, Space(q), rest);
    PickedHandsOut(q, rest, SendOf(picks, lacks), SkipOf(picks, lacks), lacks, count);
  }

  lemma ReserveKeeps(q: State, p: Peer, lacks: set<Hash>, count: int, time: int, r: Option<Request>, q': State)
    requires Safe(q) && Reserve(q, p, lacks, count, time, r, q')
    ensures Safe(q') && (Conserved(q') <==> Conserved(q)) && q'.cache == q.cache && q'.offset == q.offset
    ensures q'.blockPool == q.blockPool
  {
    if q' != q {
      var picks, rest :| Reserves(q, p, lacks, count, time, r, q', picks, rest);
      HandedOut(q, p, lacks, count, time, r, q', picks, rest);
      var send := SendOf(picks, lacks);
      hide HandsOut, Safe, Conserved, SendOf, SkipOf, Popped, Picks;
      if send == map[] {
        SentNothing(q, lacks, count, q'.queued, ItemsOf(SkipOf(picks, lacks)));
      } else {
        HandOutKeeps(q, p, lacks, count, send, q'.queued, ItemsOf(SkipOf(picks, lacks)), time);
      }
    }
  }

  lemma SameNumber(q: State, h: Hash, k: Hash)
    requires Booked(q) && h in q.hashPool && k in q.hashPool && q.hashPool[h] <= q.hashPool[k] && h != k
    ensures q.hashPool[h] < q.hashPool[k]
  {
    hide Total, Scheduled;
  }

  /** Hashes go out in the order they were scheduled, past the ones the peer lacks. */
  lemma ReserveInOrder(q: State, p: Peer, lacks: set<Hash>, count: int, time: int, r: Option<Request>, q': State,
                       h: Hash, k: Hash)
    requires Safe(q) && Reserve(q, p, lacks, count, time, r, q') && r.Some?
    requires h in r.value.hashes && k !in lacks && exists x :: x in q'.queued && x.value == k
    ensures h in q.hashPool && k in q.hashPool && q.hashPool[h] < q.hashPool[k]
  {
    var picks, rest :| Reserves(q, p, lacks, count, time, r, q', picks, rest);
    ReserveKeeps(q, p, lacks, count, time, r, q');
    HandedOut(q, p, lacks, count, time, r, q', picks, rest);
    var x :| x in q'.queued && x.value == k;
    hide HandsOut, Booked, Bounded, Conserved, SendOf, SkipOf, Popped, Picks, Reserve;
    HandsOutOrder(q, lacks, count, SendOf(picks, lacks), q'.queued, ItemsOf(SkipOf(picks, lacks)), h, x);
    OnePlace(q', h, p);
    QueuedOnce(q', x);
    SameNumber(q, h, k);
  }

  lemma WithoutOneThenRest(pending: Pending, gone: Pending, p: Peer)
    requires p in gone
    ensures pending - {p} - (gone - {p}).Keys == pending - gone.Keys
  {
    assert gone.Keys == (gone - {p}).Keys + {p};
  }

  lemma {:induction false} InFlightSplit(pending: Pending, gone: Pending)
    requires forall p :: p in gone ==> p in pending && pending[p] == gone[p]
    ensures InFlight(pending) == InFlight(gone) + InFlight(pending - gone.Keys)
    decreases |gone|
  {
    if gone == map[] {
      assert pending - gone.Keys == pending;
      assert InFlight(gone) == multiset{};
    } else {
      hide ItemsOf, InFlight;
      var p :| p in gone;
      InFlightWithout(pending, p);
      InFlightWithout(gone, p);
      InFlightSplit(pending - {p}, gone - {p});
      WithoutOneThenRest(pending, gone, p);
      Regroup(ItemsOf(gone[p].hashes), InFlight(gone - {p}), InFlight(pending - gone.Keys));
    }
  }

  lemma ExpireKeeps(q: State, now: int, timeout: int)
    requires Safe(q)
    ensures var q' := Expire(q, now, timeout);
            Safe(q') && (Conserved(q') <==> Conserved(q)) && q'.cache == q.cache && q'.offset == q.offset
  {
    var gone := Expired(q, now, timeout);
    InFlightSplit(q.pending, gone);
    hide InFlight, Scheduled;
    Regroup(q.queued, InFlight(gone), InFlight(q.pending - gone.Keys));
    SameTotal(q, Expire(q, now, timeout));
  }

  // ---- the loop of Reserve ----

  ghost predicate Unique(items: Items)
  {
    && (forall x :: items[x] <= 1)
    && forall x, y :: x in items && y in items && x.value == y.value ==> x == y
  }

  lemma BookedUnique(q: State)
    requires Booked(q)
    ensures Unique(q.queued)
  {
    hide Booked;
    forall x ensures q.queued[x] <= 1 {
      if x in q.queued { QueuedOnce(q, x); }
    }
    forall x, y | x in q.queued && y in q.queued && x.value == y.value ensures x == y {
      QueuedOnce(q, x);
      QueuedOnce(q, y);
    }
  }

  /** What has been popped so far is in `send` and `skip`, and comes before what is left. */
  ghost predicate Picking(all: Items, rest: Items, send: map<Hash, int>, skip: map<Hash, int>, lacks: set<Hash>)
  {
    && rest + (ItemsOf(send) + ItemsOf(skip)) == all
    && (forall h :: h in send ==> h !in lacks) && (forall h :: h in skip ==> h in lacks)
    && PickedFirst(ItemsOf(send) + ItemsOf(skip), rest)
  }

  lemma ItemsWith(m: map<Hash, int>, h: Hash, c: int)
    requires h !in m
    ensures ItemsOf(m[h := c]) == ItemsOf(m) + multiset{Item(h, c)}
  {
    hide ItemsOf;
    ItemsWithout(m[h := c], h);
    assert m[h := c] - {h} == m;
  }

  /** A hash is popped once. */
  lemma PoppedOnce(all: Items, rest: Items, m: map<Hash, int>, n: map<Hash, int>, x: Item<Hash>)
    requires Unique(all) && rest + (ItemsOf(m) + ItemsOf(n)) == all && x in rest
    ensures x.value !in m && x.value !in n
  {
    assert x in all && all[x] <= 1;
    if x.value in m {
      ItemsItem(m, x.value);
    }
    if x.value in n {
      ItemsItem(n, x.value);
    }
  }

  lemma FirstStep(picked: Items, rest: Items, x: Item<Hash>)
    requires PickedFirst(picked, rest + multiset{x}) && forall y :: y in rest ==> y.priority <= x.priority
    ensures PickedFirst(picked + multiset{x}, rest)
  {}

  lemma PickStep(all: Items, rest: Items, x: Item<Hash>, send: map<Hash, int>, skip: map<Hash, int>, lacks: set<Hash>)
    requires Unique(all) && Picking(all, rest + multiset{x}, send, skip, lacks)
    requires forall y :: y in rest ==> y.priority <= x.priority
    ensures x.value !in send && x.value !in skip
    ensures x.value in lacks ==> Picking(all, rest, send, skip[x.value := x.priority], lacks)
    ensures x.value !in lacks ==> Picking(all, rest, send[x.value := x.priority], skip, lacks)
  {
    hide ItemsOf, Unique, PickedFirst;
    PoppedOnce(all, rest + multiset{x}, send, skip, x);
    var s, k, x1 := ItemsOf(send), ItemsOf(skip), multiset{x};
    FirstStep(s + k, rest, x);
    ItemsWith(send, x.value, x.priority);
    ItemsWith(skip, x.value, x.priority);
    PickSums(rest, s, k, x1);
  }

  lemma PickSums(rest: Items, s: Items, k: Items, x: Items)
    ensures (rest + x) + (s + k) == rest + (s + (k + x)) == rest + ((s + x) + k)
    ensures s + (k + x) == (s + k) + x == (s + x) + k
  {}

  /** The loop's result, with the skipped items pushed back. */
  lemma PickedHandsOut(q: State, rest: Items, send: map<Hash, int>, skip: map<Hash, int>, lacks: set<Hash>, count: int)
    requires Picking(q.queued, rest, send, skip, lacks)
    requires (send == map[] || |send| <= count) && (|send| + |skip| == 0 || |send| + |skip| <= Space(q))
    requires |send| >= count || |send| + |skip| >= Space(q) || rest == multiset{}
    ensures HandsOut(q, lacks, count, send, rest + ItemsOf(skip), ItemsOf(skip))
  {
    hide ItemsOf, InFlight, PickedFirst;
    ItemsSize(skip);
    SkippedLack(skip, lacks);
    PickAlgebra(rest, ItemsOf(send), ItemsOf(skip));
  }

  lemma SkippedLack(skip: map<Hash, int>, lacks: set<Hash>)
    requires forall h :: h in skip ==> h in lacks
    ensures forall x :: x in ItemsOf(skip) ==> x.value in lacks
  {}

  lemma PickAlgebra(rest: Items, s: Items, k: Items)
    ensures s + (rest + k) == rest + (s + k) && k <= rest + k && (rest + k) - k == rest
    ensures rest == multiset{} ==> rest + k == k
  {}

  lemma PickNothing(items: Items, lacks: set<Hash>)
    ensures Picking(items, items, map[], map[], lacks)
  {
    ItemsSize(map[]);
  }

  lemma SentNothing(q: State, lacks: set<Hash>, count: int, rest: Items, skip: Items)
    requires HandsOut(q, lacks, count, map[], rest, skip)
    ensures rest == q.queued
  {
    ItemsSize(map[]);
  }

  // ---- Deliver ----

  /** The books while a delivery is taken in; `base` is all that is queued or in flight elsewhere. */
  ghost predicate Taking(d: Delivery, base: Items, counter: nat, others: nat)
  {
    && base + ItemsOf(d.owed) <= Scheduled(d.hashPool) && Numbered(d.hashPool, counter)
    && |d.blockPool| + |d.owed| + others <= |d.cache|
  }

  /** Taking a block in removes its hash from the schedule and from what is owed alike. */
  lemma TakeIn(owed: map<Hash, int>, pool: map<Hash, int>, base: Items, h: Hash)
    requires h in owed && base + ItemsOf(owed) <= Scheduled(pool)
    ensures h in pool && base + ItemsOf(owed - {h}) <= Scheduled(pool - {h})
    ensures base + ItemsOf(owed - {h}) == Scheduled(pool - {h}) <==> base + ItemsOf(owed) == Scheduled(pool)
  {
    var x := Item(h, owed[h]);
    ItemsItem(owed, h);
    ScheduledItem(pool, x);
    hide ItemsOf, Scheduled;
    ItemsWithout(owed, h);
    ScheduledWithout(pool, h);
    Regroup(base, ItemsOf(owed - {h}), multiset{x});
    AddBoth(base + ItemsOf(owed - {h}), Scheduled(pool - {h}), x);
  }

  lemma FewerSize<V>(m: map<Hash, V>, h: Hash)
    requires h in m
    ensures |m - {h}| == |m| - 1
  {
    assert m.Keys == (m - {h}).Keys + {h};
  }

  lemma MoreSize<V>(m: map<Hash, V>, h: Hash, v: V)
    ensures |m[h := v]| <= |m| + 1
  {
    assert m[h := v].Keys == m.Keys + {h};
  }

  lemma NewSize<V>(m: map<Hash, V>, h: Hash, v: V)
    requires h !in m
    ensures |m[h := v]| == |m| + 1
  {
    assert m[h := v].Keys == m.Keys + {h};
  }

  lemma NumberedWithout(pool: map<Hash, int>, counter: nat, h: Hash)
    requires Numbered(pool, counter)
    ensures Numbered(pool - {h}, counter)
  {}

  lemma AcceptKeeps(d: Delivery, b: Block, offset: Height, p: Peer, base: Items, counter: nat, others: nat)
    requires Taking(d, base, counter, others)
    ensures var d' := Accept(d, b, offset, p);
            && Taking(d', base, counter, others) && |d'.cache| == |d.cache|
            && (base + ItemsOf(d'.owed) == Scheduled(d'.hashPool) <==> base + ItemsOf(d.owed) == Scheduled(d.hashPool))
            && (d'.invalid && !d.invalid ==> d'.owed != map[])
  {
    hide ItemsOf, Scheduled, Numbered;
    if b.hash in d.owed {
      TakeIn(d.owed, d.hashPool, base, b.hash);
      NumberedWithout(d.hashPool, counter, b.hash);
      FewerSize(d.owed, b.hash);
      MoreSize(d.blockPool, b.hash, b.height);
    }
  }

  lemma {:induction false} AcceptAllKeeps(d: Delivery, blocks: seq<Block>, offset: Height, p: Peer, base: Items, counter: nat, others: nat)
    requires Taking(d, base, counter, others) && !d.invalid
    ensures var d' := AcceptAll(d, blocks, offset, p);
            && Taking(d', base, counter, others) && |d'.cache| == |d.cache|
            && (base + ItemsOf(d'.owed) == Scheduled(d'.hashPool) <==> base + ItemsOf(d.owed) == Scheduled(d.hashPool))
            && (d'.invalid ==> d'.owed != map[])
    decreases blocks
  {
    if blocks != [] {
      hide ItemsOf, Scheduled, Taking, Accept;
      var d1 := Accept(d, blocks[0], offset, p);
      AcceptKeeps(d, blocks[0], offset, p, base, counter, others);
      if !d1.invalid { AcceptAllKeeps(d1, blocks[1..], offset, p, base, counter, others); }
    }
  }

  ghost function StartDelivery(q: State, p: Peer): Delivery
    requires p in q.pending
  {
    Delivery(q.pending[p].hashes, q.hashPool, q.blockPool, q.cache, 0, false)
  }

  lemma StartTaking(q: State, p: Peer)
    requires Safe(q) && p in q.pending
    ensures Taking(StartDelivery(q, p), q.queued + InFlight(q.pending - {p}), q.counter, |InFlight(q.pending - {p})|)
    ensures q.queued + InFlight(q.pending - {p}) + ItemsOf(q.pending[p].hashes) == Total(q)
  {
    hide ItemsOf, InFlight, Scheduled, Numbered;
    InFlightWithout(q.pending, p);
    ItemsSize(q.pending[p].hashes);
    Regroup(q.queued, InFlight(q.pending - {p}), ItemsOf(q.pending[p].hashes));
  }

  ghost function AfterDelivery(q: State, p: Peer, blocks: seq<Block>): Delivery
    requires p in q.pending
  {
    AcceptAll(StartDelivery(q, p), blocks, q.offset, p)
  }

  /** Whatever is still owed goes back into the queue, unless the chain was invalid. */
  lemma DeliverTotal(q: State, p: Peer, blocks: seq<Block>)
    requires p in q.pending
    ensures var q', d := Deliver(q, p, blocks).0, AfterDelivery(q, p, blocks);
            q.queued + InFlight(q.pending - {p}) + ItemsOf(d.owed) == if d.invalid then Total(q') + ItemsOf(d.owed) else Total(q')
  {
    hide ItemsOf, InFlight, AcceptAll;
    Regroup(q.queued, ItemsOf(AfterDelivery(q, p, blocks).owed), InFlight(q.pending - {p}));
    Regroup(q.queued, InFlight(q.pending - {p}), ItemsOf(AfterDelivery(q, p, blocks).owed));
  }

  /** Deliver keeps the books, and loses hashes exactly when it reports an invalid chain: the ones still owed. */
  lemma DeliverKeeps(q: State, p: Peer, blocks: seq<Block>)
    requires Safe(q)
    ensures var (q', outcome) := Deliver(q, p, blocks);
            && Safe(q') && |q'.cache| == |q.cache| && q'.offset == q.offset
            && (Conserved(q) ==> (Conserved(q') <==> !outcome.InvalidChain?))
  {
    hide ItemsOf, InFlight, Scheduled, Numbered, AcceptAll;
    if p in q.pending {
      var base := q.queued + InFlight(q.pending - {p});
      var d, q' := AfterDelivery(q, p, blocks), Deliver(q, p, blocks).0;
      StartTaking(q, p);
      AcceptAllKeeps(StartDelivery(q, p), blocks, q.offset, p, base, q.counter, |InFlight(q.pending - {p})|);
      DeliverTotal(q, p, blocks);
      hide Total;
      if d.invalid { LostHashes(Total(q'), d.owed, d.hashPool); }
    }
  }

  lemma LostHashes(t: Items, owed: map<Hash, int>, pool: map<Hash, int>)
    requires t + ItemsOf(owed) <= Scheduled(pool) && owed != map[]
    ensures t <= Scheduled(pool) && t != Scheduled(pool)
  {
    hide Scheduled;
    var h :| h in owed;
    ItemsItem(owed, h);
    assert (t + ItemsOf(owed))[Item(h, owed[h])] > t[Item(h, owed[h])];
  }

  /** The heights that the cache has a slot for; slots are numbered in int64. */
  ghost predicate InWindow(height: Height, offset: Height, size: nat)
  {
    exists i :: 0 <= i < size && i < 0x8000_0000_0000_0000 && height == HeightAt(offset, i)
  }

  lemma WindowIndex(height: Height, offset: Height, size: nat)
    ensures InWindow(height, offset, size) <==> 0 <= Signed(height - offset) < size
  {
    var k := Signed(height - offset);
    SlotHeight(height, offset);
    assert k < 0x8000_0000_0000_0000;
    if InWindow(height, offset, size) {
      var i :| 0 <= i < size && i < 0x8000_0000_0000_0000 && height == HeightAt(offset, i);
      SlotIndex(offset, i);
    }
    hide Signed;
    if 0 <= k < size { assert height == HeightAt(offset, k); }
  }

  lemma SlotIndex(offset: Height, i: nat)
    requires i < 0x8000_0000_0000_0000
    ensures Signed(HeightAt(offset, i) - offset) == i
  {}

  /** A block was asked for and lies outside the window the cache covers. */
  ghost predicate OutOfWindow(owed: map<Hash, int>, blocks: seq<Block>, offset: Height, size: nat)
  {
    exists i :: 0 <= i < |blocks| && blocks[i].hash in owed && !InWindow(blocks[i].height, offset, size)
  }

  ghost predicate HashesTellBlocks(blocks: seq<Block>)
  {
    forall i, j :: 0 <= i < |blocks| && 0 <= j < |blocks| && blocks[i].hash == blocks[j].hash ==> blocks[i] == blocks[j]
  }

  lemma WindowTail(owed: map<Hash, int>, blocks: seq<Block>, offset: Height, size: nat)
    requires blocks != [] && HashesTellBlocks(blocks)
    requires blocks[0].hash in owed ==> InWindow(blocks[0].height, offset, size)
    ensures OutOfWindow(owed - {blocks[0].hash}, blocks[1..], offset, size) <==> OutOfWindow(owed, blocks, offset, size)
    ensures HashesTellBlocks(blocks[1..])
  {
    hide InWindow;
    var h, rest := blocks[0].hash, blocks[1..];
    if OutOfWindow(owed, blocks, offset, size) {
      var i :| 0 <= i < |blocks| && blocks[i].hash in owed && !InWindow(blocks[i].height, offset, size);
      assert rest[i - 1] == blocks[i] && blocks[i].hash != h;
    }
    if OutOfWindow(owed - {h}, rest, offset, size) {
      var i :| 0 <= i < |rest| && rest[i].hash in owed - {h} && !InWindow(rest[i].height, offset, size);
      assert blocks[i + 1] == rest[i];
    }
  }

  /** An invalid chain is reported exactly when a block that was asked for lies outside the window. */
  lemma {:induction false} InvalidExactly(d: Delivery, blocks: seq<Block>, offset: Height, p: Peer)
    requires !d.invalid && HashesTellBlocks(blocks)
    ensures AcceptAll(d, blocks, offset, p).invalid <==> OutOfWindow(d.owed, blocks, offset, |d.cache|)
    decreases blocks
  {
    if blocks != [] {
      var d' := Accept(d, blocks[0], offset, p);
      WindowIndex(blocks[0].height, offset, |d.cache|);
      hide InWindow, Signed;
      if d'.invalid {
        assert blocks[0].hash in d.owed;
      } else {
        hide OutOfWindow, HashesTellBlocks;
        WindowTail(d.owed, blocks, offset, |d.cache|);
        assert d'.owed == d.owed - {blocks[0].hash};
        InvalidExactly(d', blocks[1..], offset, p);
      }
    }
  }

  lemma DeliverInvalid(q: State, p: Peer, blocks: seq<Block>)
    requires p in q.pending && HashesTellBlocks(blocks)
    ensures Deliver(q, p, blocks).1.InvalidChain? <==> OutOfWindow(q.pending[p].hashes, blocks, q.offset, |q.cache|)
  {
    hide OutOfWindow, HashesTellBlocks;
    InvalidExactly(StartDelivery(q, p), blocks, q.offset, p);
  }

  lemma {:induction false} AcceptAllPlaced(d: Delivery, blocks: seq<Block>, offset: Height, p: Peer)
    requires PlacedCache(d.cache, offset)
    ensures PlacedCache(AcceptAll(d, blocks, offset, p).cache, offset)
    decreases blocks
  {
    if !d.invalid && blocks != [] {
      SlotHeight(blocks[0].height, offset);
      hide Wrap, Signed;
      AcceptAllPlaced(Accept(d, blocks[0], offset, p), blocks[1..], offset, p);
    }
  }

  lemma TakeKeeps(q: State)
    requires Safe(q)
    ensures var q' := TakeBlocks(q).0; Safe(q') && (Conserved(q') <==> Conserved(q)) && |q'.cache| == |q.cache|
  {
    hide InFlight, Scheduled, Numbered;
    var hs := HashesOf(ReadyBlocks(q.cache));
    assert (q.blockPool - hs).Keys <= q.blockPool.Keys;
    SubsetSize((q.blockPool - hs).Keys, q.blockPool.Keys);
  }

  ghost predicate Consecutive(bs: seq<QueueBlock>, offset: Height)
  {
    forall i :: 0 <= i < |bs| ==> bs[i].rawBlock.height == HeightAt(offset, i)
  }

  /** Consecutive blocks come out, and the window moves past them. */
  lemma TakeInOrder(q: State)
    requires Placed(q)
    ensures var (q', taken) := TakeBlocks(q);
            Placed(q') && q'.offset == HeightAt(q.offset, |taken|) && Consecutive(taken, q.offset)
  {
    var (q', taken) := TakeBlocks(q);
    forall i | 0 <= i < |q'.cache| && q'.cache[i].Some? ensures q'.cache[i].value.rawBlock.height == Wrap(q'.offset + i) {
      assert q'.cache[i] == q.cache[i + |taken|];
      WrapSum(q.offset + |taken|, i);
    }
  }

  /** Moving the window keeps the cache in place exactly when it does not move or holds nothing. */
  lemma PrepareKeeps(q: State, offset: Height)
    requires Placed(q)
    ensures Placed(Prepare(q, offset)) <==> offset <= q.offset || forall i :: 0 <= i < |q.cache| ==> q.cache[i].None?
  {
    if q.offset < offset && Placed(Prepare(q, offset)) {
      forall i | 0 <= i < |q.cache| ensures q.cache[i].None? {
        assert Wrap(q.offset + i) != Wrap(offset + i);
      }
    }
  }

  // ---- runs ----

  /** A request is cancelled only while it is pending. */
  ghost predicate Legal(q: State, e: Event)
  {
    e.CancelEvent? ==> e.request.peer in q.pending && q.pending[e.request.peer] == e.request
  }

  ghost predicate Loses(e: Event)
  {
    e.DeliverEvent? && e.outcome.InvalidChain?
  }

  lemma ResetKeeps(q: State)
    ensures Safe(Reset(q)) && Conserved(Reset(q)) && Placed(Reset(q))
  {
    assert InFlight(map[]) == multiset{} && Scheduled(map[]) == multiset{};
  }

  /** Every step keeps hashes booked once and the cache large enough; only an invalid chain loses hashes. */
  lemma StepKeeps(q: State, e: Event, q': State)
    requires Safe(q) && Next(q, e, q') && Legal(q, e)
    ensures Safe(q')
    ensures Conserved(q) ==> (Conserved(q') <==> !Loses(e))
  {
    hide Safe, Conserved, Insert, Cancel, Reserve, Expire, Deliver, TakeBlocks, Reset;
    match e
    case ResetEvent => ResetKeeps(q);
    case InsertEvent(hashes, _) => InsertKeeps(q, hashes);
    case CancelEvent(r) => CancelPending(q, r);
    case ReserveEvent(p, lacks, count, time, r) => ReserveKeeps(q, p, lacks, count, time, r, q');
    case ExpireEvent(now, timeout) => ExpireKeeps(q, now, timeout);
    case DeliverEvent(p, blocks, _) => DeliverKeeps(q, p, blocks);
    case TakeEvent(_) => TakeKeeps(q);
    case PrepareEvent(height) => PrepareSafe(q, height);
  }

  lemma PrepareSafe(q: State, offset: Height)
    requires Safe(q)
    ensures Safe(Prepare(q, offset)) && (Conserved(Prepare(q, offset)) <==> Conserved(q))
  {
    hide InFlight, Scheduled, Numbered;
  }

  ghost predicate IsRun(qs: seq<State>, es: seq<Event>)
  {
    && |qs| == |es| + 1
    && forall i :: 0 <= i < |es| ==> Next(qs[i], es[i], qs[i + 1]) && Legal(qs[i], es[i])
  }

  ghost predicate LossFree(es: seq<Event>, n: nat)
    requires n <= |es|
  {
    forall i :: 0 <= i < n ==> !Loses(es[i])
  }

  lemma RunAt(qs: seq<State>, es: seq<Event>, i: nat)
    requires IsRun(qs, es) && i < |es|
    ensures Next(qs[i], es[i], qs[i + 1]) && Legal(qs[i], es[i])
  {
    hide Next, Legal;
  }

  /** Over every run: no hash in two places, room for every block, and nothing lost without an invalid chain. */
  lemma {:induction false} RunSafe(qs: seq<State>, es: seq<Event>, n: nat)
    requires IsRun(qs, es) && n < |qs| && Safe(qs[0]) && Conserved(qs[0])
    ensures Safe(qs[n]) && (LossFree(es, n) ==> Conserved(qs[n]))
  {
    if n > 0 {
      assert |qs| == |es| + 1;
      assert LossFree(es, n) ==> LossFree(es, n - 1) && !Loses(es[n - 1]);
      hide Safe, Conserved, Next, Legal, Loses, LossFree, IsRun;
      RunSafe(qs, es, n - 1);
      RunAt(qs, es, n - 1);
      StepKeeps(qs[n - 1], es[n - 1], qs[n]);
    }
  }

  /** The window is moved by TakeBlocks alone. */
  ghost predicate Steady(q: State, e: Event)
  {
    !e.ResetEvent? && (e.PrepareEvent? ==> e.height <= q.offset)
  }

  lemma StepPlaced(q: State, e: Event, q': State)
    requires Safe(q) && Placed(q) && Next(q, e, q') && Legal(q, e) && Steady(q, e)
    ensures Placed(q') && q'.offset == HeightAt(q.offset, |TakenBy(e)|) && Consecutive(TakenBy(e), q.offset)
  {
    hide Insert, Cancel, Reserve, Expire, TakeBlocks, Safe, AcceptAll;
    match e
    case InsertEvent(hashes, _) => InsertKeeps(q, hashes);
    case CancelEvent(r) => CancelWindow(q, r);
    case ReserveEvent(p, lacks, count, time, r) => ReserveKeeps(q, p, lacks, count, time, r, q');
    case ExpireEvent(now, timeout) => ExpireKeeps(q, now, timeout);
    case DeliverEvent(p, blocks, _) =>
      if p in q.pending { AcceptAllPlaced(StartDelivery(q, p), blocks, q.offset, p); }
    case TakeEvent(_) => TakeInOrder(q);
    case PrepareEvent(_) =>
  }

  lemma CancelWindow(q: State, r: Request)
    ensures Cancel(q, r).cache == q.cache && Cancel(q, r).offset == q.offset
  {}

  ghost function TakenBy(e: Event): seq<QueueBlock>
  {
    if e.TakeEvent? then e.taken else []
  }

  /** All blocks taken in the first n steps, in order. */
  ghost function Taken(es: seq<Event>, n: nat): seq<QueueBlock>
    requires n <= |es|
  {
    if n == 0 then [] else Taken(es, n - 1) + TakenBy(es[n - 1])
  }

  lemma ConsecutiveJoin(a: seq<QueueBlock>, b: seq<QueueBlock>, offset: Height)
    requires Consecutive(a, offset) && Consecutive(b, HeightAt(offset, |a|))
    ensures Consecutive(a + b, offset) && HeightAt(HeightAt(offset, |a|), |b|) == HeightAt(offset, |a + b|)
  {
    WrapSum(offset + |a|, |b|);
    forall i | |a| <= i < |a + b| ensures (a + b)[i].rawBlock.height == Wrap(offset + i) {
      WrapSum(offset + |a|, i - |a|);
    }
  }

  ghost predicate SteadyRun(qs: seq<State>, es: seq<Event>)
  {
    && IsRun(qs, es) && Safe(qs[0]) && Conserved(qs[0]) && Placed(qs[0])
    && forall i :: 0 <= i < |es| ==> Steady(qs[i], es[i])
  }

  lemma SteadyAt(qs: seq<State>, es: seq<Event>, i: nat)
    requires SteadyRun(qs, es) && i < |es|
    ensures Next(qs[i], es[i], qs[i + 1]) && Legal(qs[i], es[i]) && Steady(qs[i], es[i]) && Safe(qs[i])
  {
    RunSafe(qs, es, i);
    hide Next, Legal, Steady, Safe, Conserved, Placed;
    RunAt(qs, es, i);
  }

  /** Whatever order peers deliver in, the blocks taken have consecutive heights from the prepared offset on. */
  lemma {:induction false} TakenConsecutive(qs: seq<State>, es: seq<Event>, n: nat)
    requires SteadyRun(qs, es) && n < |qs|
    ensures Placed(qs[n]) && qs[n].offset == HeightAt(qs[0].offset, |Taken(es, n)|) && Consecutive(Taken(es, n), qs[0].offset)
  {
    assert |qs| == |es| + 1 && Placed(qs[0]);
    assert Taken(es, n) == if n == 0 then [] else Taken(es, n - 1) + TakenBy(es[n - 1]);
    hide *;
    if n == 0 {
      NothingTaken(qs[0].offset);
    } else {
      TakenConsecutive(qs, es, n - 1);
      SteadyAt(qs, es, n - 1);
      StepPlaced(qs[n - 1], es[n - 1], qs[n]);
      ConsecutiveJoin(Taken(es, n - 1), TakenBy(es[n - 1]), qs[0].offset);
    }
  }

  lemma NothingTaken(offset: Height)
    ensures HeightAt(offset, 0) == offset && Consecutive([], offset)
  {}

  // ---- runs that break the books ----

  lemma OneItem(h: Hash, c: int)
    ensures ItemsOf(map[h := c]) == multiset{Item(h, c)} && ItemsOf(map[]) == multiset{}
  {
    ItemsWith(map[], h, c);
    assert map[][h := c] == map[h := c];
  }

  lemma OnePick(x: Item<Hash>, space: int)
    requires space > 0
    ensures SendOf([x], {}) == map[x.value := x.priority] && SkipOf([x], {}) == map[]
    ensures Popped(multiset{x}, [x], multiset{}) && Picks(space, {}, 1, [x], multiset{})
  {
    var m: map<Hash, int> := map[];
    assert [x][..0] == [] && m[x.value := x.priority] == map[x.value := x.priority];
    NewSize(m, x.value, x.priority);
    assert multiset([x]) == multiset{x};
  }

  lemma NoneInFlight()
    ensures InFlight(map[]) == multiset{}
  {}

  lemma SpaceLeft(q: State)
    requires q.pending == map[] && |q.cache| > |q.blockPool|
    ensures Space(q) > 0
  {
    NoneInFlight();
  }

  /** A lone queued hash goes to the peer that asks. */
  lemma ReserveOne(q: State, p: Peer, h: Hash, c: int, time: int)
    requires q.queued == multiset{Item(h, c)} && q.pending == map[] && |q.cache| > |q.blockPool|
    ensures var r := Request(p, map[h := c], time);
            Next(q, ReserveEvent(p, {}, 1, time, Some(r)), q.(queued := multiset{}, pending := map[p := r]))
  {
    var x, r := Item(h, c), Request(p, map[h := c], time);
    var q' := q.(queued := multiset{}, pending := map[p := r]);
    SpaceLeft(q);
    OneItem(h, c);
    OnePick(x, Space(q));
    hide Space, ItemsOf, SendOf, SkipOf, Popped, Picks;
    ReservesOne(q, p, x, time, q');
  }

  lemma ReservesOne(q: State, p: Peer, x: Item<Hash>, time: int, q': State)
    requires q.pending == map[] && SendOf([x], {}) == map[x.value := x.priority] && SkipOf([x], {}) == map[]
    requires Popped(q.queued, [x], multiset{}) && Picks(Space(q), {}, 1, [x], multiset{}) && ItemsOf(map[]) == multiset{}
    requires q' == q.(queued := multiset{}, pending := map[p := Request(p, map[x.value := x.priority], time)])
    ensures Reserves(q, p, {}, 1, time, Some(Request(p, map[x.value := x.priority], time)), q', [x], multiset{})
  {
    hide Space, ItemsOf, SendOf, SkipOf, Popped, Picks;
    var r := Request(p, map[x.value := x.priority], time);
    assert q.pending[p := r] == map[p := r] && x.value in r.hashes;
    assert multiset{} + ItemsOf(map[]) == multiset{};
  }

  lemma InsertFirst(q: State, h: Hash)
    requires h !in q.hashPool
    ensures Next(q, InsertEvent([h], [h]), InsertOne(q, h))
  {
    InsertNothing(InsertOne(q, h));
    assert [h][1..] == [] && [h] + [] == [h];
  }

  /** The request for a lone hash, and the queue with the hash in flight. */
  ghost function Ask(q: State, p: Peer, h: Hash, time: int): Request
  {
    Request(p, map[h := -(q.counter + 1)], time)
  }

  ghost function Asking(q: State, p: Peer, h: Hash, time: int): State
  {
    InsertOne(q, h).(queued := multiset{}, pending := map[p := Ask(q, p, h, time)])
  }

  /** In a queue with nothing queued or in flight, a new hash is scheduled and handed out. */
  lemma Dispatched(q: State, p: Peer, h: Hash, time: int)
    requires q.queued == multiset{} && q.pending == map[] && h !in q.hashPool && |q.cache| > |q.blockPool|
    ensures Next(q, InsertEvent([h], [h]), InsertOne(q, h))
    ensures Next(InsertOne(q, h), ReserveEvent(p, {}, 1, time, Some(Ask(q, p, h, time))), Asking(q, p, h, time))
  {
    InsertFirst(q, h);
    var q1, c := InsertOne(q, h), -(q.counter + 1);
    assert q1.queued == multiset{Item(h, c)};
    hide Next;
    ReserveOne(q1, p, h, c, time);
  }

  /** The queue after the block for the lone hash has arrived. */
  ghost function Arrived(q: State, o: Peer, b: Block): State
    requires b.height < |q.cache|
  {
    q.(pending := map[], hashPool := q.hashPool - {b.hash}, blockPool := q.blockPool[b.hash := b.height],
       cache := q.cache[b.height := Some(QueueBlock(b, o))])
  }

  lemma DeliverOne(q: State, o: Peer, c: int, time: int, b: Block)
    requires q.pending == map[o := Request(o, map[b.hash := c], time)] && q.queued == multiset{}
    requires q.offset == 0 && b.height < |q.cache| && b.height < 0x8000_0000_0000_0000
    ensures Next(q, DeliverEvent(o, [b], Delivered(0)), Arrived(q, o, b))
  {
    var d := Accept(StartDelivery(q, o), b, q.offset, o);
    assert Signed(b.height) == b.height;
    assert d.owed == map[];
    hide Signed;
    assert [b][1..] == [] && AcceptAll(d, [], q.offset, o) == d;
    OneItem(b.hash, c);
    assert q.pending - {o} == map[];
    assert q.queued + ItemsOf(d.owed) == multiset{};
  }

  lemma DeliverOutside(q: State, o: Peer, c: int, time: int, b: Block)
    requires q.pending == map[o := Request(o, map[b.hash := c], time)] && !InWindow(b.height, q.offset, |q.cache|)
    ensures Next(q, DeliverEvent(o, [b], InvalidChain), q.(pending := map[]))
  {
    WindowIndex(b.height, q.offset, |q.cache|);
    var d := Accept(StartDelivery(q, o), b, q.offset, o);
    assert d == StartDelivery(q, o).(invalid := true);
    assert [b][1..] == [] && AcceptAll(d, [], q.offset, o) == d;
    assert q.pending - {o} == map[];
  }

  /** One hash scheduled and handed out, from an empty queue. */
  lemma FirstDispatch(q0: State, p: Peer, h: Hash, time: int)
    requires |q0.cache| > 0
    ensures var q1 := Reset(q0);
            && Next(q0, ResetEvent, q1) && Next(q1, InsertEvent([h], [h]), InsertOne(q1, h))
            && Next(InsertOne(q1, h), ReserveEvent(p, {}, 1, time, Some(Ask(q1, p, h, time))), Asking(q1, p, h, time))
            && Safe(InsertOne(q1, h)) && Conserved(InsertOne(q1, h))
            && Safe(Asking(q1, p, h, time)) && Conserved(Asking(q1, p, h, time)) && Asking(q1, p, h, time).hashPool == map[h := 1]
  {
    var q1 := Reset(q0);
    ResetKeeps(q0);
    Dispatched(q1, p, h, time);
    assert Next(q0, ResetEvent, q1) && Asking(q1, p, h, time).hashPool == map[][h := 1] == map[h := 1];
    var q2, q3, r := InsertOne(q1, h), Asking(q1, p, h, time), Ask(q1, p, h, time);
    hide *;
    StepOf(q1, InsertEvent([h], [h]), q2);
    StepOf(q2, ReserveEvent(p, {}, 1, time, Some(r)), q3);
  }

  /** A step that neither cancels nor fails keeps everything. */
  lemma StepOf(q: State, e: Event, q': State)
    requires Safe(q) && Conserved(q) && Next(q, e, q') && !e.CancelEvent? && !Loses(e)
    ensures Safe(q') && Conserved(q')
  {
    assert Legal(q, e);
    hide Safe, Conserved, Next, Loses;
    StepKeeps(q, e, q');
  }

  /** A block outside the window: its hash stays in the schedule, neither queued nor in flight, and is
      passed over when it is inserted again. */
  lemma LostHash(q0: State, p: Peer, h: Hash, height: Height, time: int)
    returns (q1: State, q2: State, q3: State, q4: State)
    requires |q0.cache| > 0 && !InWindow(height, 0, |q0.cache|)
    ensures && Next(q0, ResetEvent, q1) && Next(q1, InsertEvent([h], [h]), q2)
            && Next(q2, ReserveEvent(p, {}, 1, time, Some(Ask(q1, p, h, time))), q3)
            && Next(q3, DeliverEvent(p, [Block(h, height)], InvalidChain), q4)
    ensures Safe(q3) && Conserved(q3) && !Conserved(q4)
    ensures q4.queued == multiset{} && q4.pending == map[] && h in q4.hashPool && Next(q4, InsertEvent([h], []), q4)
  {
    q1 := Reset(q0);
    q2, q3 := InsertOne(q1, h), Asking(q1, p, h, time);
    q4 := q3.(pending := map[]);
    FirstDispatch(q0, p, h, time);
    DeliverOutside(q3, p, -1, time, Block(h, height));
    InsertNothing(q4);
    assert [h][1..] == [];
    hide Safe, Conserved, InWindow, Reserve, Deliver, InsertOne;
    assert Loses(DeliverEvent(p, [Block(h, height)], InvalidChain));
    StepKeeps(q3, DeliverEvent(p, [Block(h, height)], InvalidChain), q4);
  }

  /** Raising the offset over a cached block leaves it in a slot that is for another height. */
  lemma ShiftedCache(q0: State, p: Peer, h: Hash, time: int)
    returns (q1: State, q2: State, q3: State, q4: State, q5: State)
    requires |q0.cache| > 0
    ensures && Next(q0, ResetEvent, q1) && Next(q1, InsertEvent([h], [h]), q2)
            && Next(q2, ReserveEvent(p, {}, 1, time, Some(Ask(q1, p, h, time))), q3)
            && Next(q3, DeliverEvent(p, [Block(h, 0)], Delivered(0)), q4) && Next(q4, PrepareEvent(1), q5)
    ensures Placed(q4) && !Placed(q5)
  {
    q1 := Reset(q0);
    q2, q3 := InsertOne(q1, h), Asking(q1, p, h, time);
    q4 := Arrived(q3, p, Block(h, 0));
    q5 := Prepare(q4, 1);
    assert Next(q4, PrepareEvent(1), q5);
    hide Next, Placed;
    FirstDispatch(q0, p, h, time);
    DeliverOne(q3, p, -1, time, Block(h, 0));
    FirstPlaced(q4);
    PrepareKeeps(q4, 1);
  }

  lemma FirstPlaced(q: State)
    requires |q.cache| > 0 && q.offset == 0 && q.cache[0].Some? && q.cache[0].value.rawBlock.height == 0
    requires forall i :: 0 < i < |q.cache| ==> q.cache[i].None?
    ensures Placed(q)
  {}

  lemma ExpireOne(q: State, p: Peer, r: Request)
    requires q.pending == map[] && q.queued == ItemsOf(r.hashes) && r.time == 0
    ensures Next(q.(queued := multiset{}, pending := map[p := r]), ExpireEvent(2, 1), q)
  {
    var q' := q.(queued := multiset{}, pending := map[p := r]);
    var gone := Expired(q', 2, 1);
    assert gone == map[p := r];
    InFlightWith(map[], p, r);
    assert map[][p := r] == gone;
    NoneInFlight();
    assert q'.pending - gone.Keys == map[];
  }

  /** Cancelling a request that expired, once another peer has delivered its hash, queues a hash that is no longer
      scheduled: the books do not survive a Cancel of a request that is not pending. */
  lemma StaleCancel(q0: State, h: Hash, p: Peer, o: Peer)
    returns (q1: State, q2: State, q3: State, q5: State, q6: State, q7: State)
    requires |q0.cache| > 0
    ensures var r1, r2 := Ask(q1, p, h, 0), Ask(q1, o, h, 2);
            && Next(q0, ResetEvent, q1) && Next(q1, InsertEvent([h], [h]), q2)
            && Next(q2, ReserveEvent(p, {}, 1, 0, Some(r1)), q3) && Next(q3, ExpireEvent(2, 1), q2)
            && Next(q2, ReserveEvent(o, {}, 1, 2, Some(r2)), q5)
            && Next(q5, DeliverEvent(o, [Block(h, 0)], Delivered(0)), q6)
            && Next(q6, CancelEvent(r1), q7)
    ensures Safe(q6) && Conserved(q6) && !Booked(q7)
  {
    hide Next, Safe, Conserved, Booked, Cancel;
    q1 := Reset(q0);
    q2, q3, q5 := InsertOne(q1, h), Asking(q1, p, h, 0), Asking(q1, o, h, 2);
    q6 := Arrived(q5, o, Block(h, 0));
    var r1 := Ask(q1, p, h, 0);
    q7 := Cancel(q6, r1);
    FirstDispatch(q0, p, h, 0);
    FirstDispatch(q0, o, h, 2);
    SecondPeer(q1, p, o, h);
    hide Reset, InsertOne, Asking, Arrived;
    StepOf(q5, DeliverEvent(o, [Block(h, 0)], Delivered(0)), q6);
  }

  lemma SecondPeer(q1: State, p: Peer, o: Peer, h: Hash)
    requires q1.queued == multiset{} && q1.pending == map[] && q1.hashPool == map[] && q1.counter == 0
    requires q1.offset == 0 && |q1.cache| > 0
    ensures var q5, r1 := Asking(q1, o, h, 2), Ask(q1, p, h, 0);
            var q6 := Arrived(q5, o, Block(h, 0));
            && Next(Asking(q1, p, h, 0), ExpireEvent(2, 1), InsertOne(q1, h))
            && Next(q5, DeliverEvent(o, [Block(h, 0)], Delivered(0)), q6)
            && Next(q6, CancelEvent(r1), Cancel(q6, r1)) && !Booked(Cancel(q6, r1))
  {
    var q2, q5, r1 := InsertOne(q1, h), Asking(q1, o, h, 2), Ask(q1, p, h, 0);
    var q6 := Arrived(q5, o, Block(h, 0));
    OneItem(h, -1);
    assert q6.hashPool == map[] && q2.queued == multiset{Item(h, -1)} && Next(q6, CancelEvent(r1), Cancel(q6, r1));
    hide ItemsOf, Booked, Cancel, Next;
    ExpireOne(q2, p, r1);
    DeliverOne(q5, o, -1, 2, Block(h, 0));
    LateCancel(q6, r1, h);
  }

  /** The same when the queue is reset between Reserve and Cancel. */
  lemma CancelAfterReset(q0: State, h: Hash, p: Peer, time: int)
    returns (q1: State, q2: State, q3: State, q5: State)
    requires |q0.cache| > 0
    ensures && Next(q0, ResetEvent, q1) && Next(q1, InsertEvent([h], [h]), q2)
            && Next(q2, ReserveEvent(p, {}, 1, time, Some(Ask(q1, p, h, time))), q3)
            && Next(q3, ResetEvent, q1) && Next(q1, CancelEvent(Ask(q1, p, h, time)), q5)
    ensures Safe(q3) && !Booked(q5)
  {
    q1 := Reset(q0);
    q2, q3, q5 := InsertOne(q1, h), Asking(q1, p, h, time), Cancel(q1, Ask(q1, p, h, time));
    assert Next(q3, ResetEvent, q1) && Next(q1, CancelEvent(Ask(q1, p, h, time)), q5);
    FirstDispatch(q0, p, h, time);
    LateCancel(q1, Ask(q1, p, h, time), h);
  }

  lemma LateCancel(q: State, r: Request, h: Hash)
    requires q.hashPool == map[] && h in r.hashes
    ensures !Booked(Cancel(q, r))
  {
    ItemsItem(r.hashes, h);
    assert Scheduled(map[]) == multiset{};
    assert Item(h, r.hashes[h]) in Cancel(q, r).queued;
  }
}
