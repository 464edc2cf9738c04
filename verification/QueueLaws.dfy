/** What each step of the download queue (backend/queue.go) does to hashes, requests and blocks. */
module QueueLaws {
  import opened Options
  import opened Collections
  import opened Priqueue
  import opened DownloadQueue

  // ---- Insert ----

  /** Where a hash first occurs in a list. */
  ghost function FirstAt(hashes: seq<Hash>, h: Hash): (i: nat)
    requires h in hashes
    ensures i < |hashes| && hashes[i] == h
  {
    if hashes[0] == h then 0 else 1 + FirstAt(hashes[1..], h)
  }

  /** The hashes of a list that are not in the pool, in order of first occurrence and without repeats. */
  ghost predicate NewInOrder(pool: map<Hash, int>, hashes: seq<Hash>, inserts: seq<Hash>)
  {
    && Distinct(inserts) && (forall h :: h in inserts <==> h in hashes && h !in pool)
    && forall i, j :: 0 <= i < j < |inserts| ==> FirstAt(hashes, inserts[i]) < FirstAt(hashes, inserts[j])
  }

  ghost predicate NumberedFrom(pool: map<Hash, int>, inserts: seq<Hash>, counter: nat)
  {
    forall i :: 0 <= i < |inserts| ==> inserts[i] in pool && pool[inserts[i]] == counter + i + 1
  }

  /** The pool with these hashes added, and nothing else changed. */
  ghost predicate Scheduling(pool: map<Hash, int>, hashes: seq<Hash>, pool': map<Hash, int>)
  {
    && (forall h :: h in pool' <==> h in pool || h in hashes)
    && forall h :: h in pool ==> h in pool' && pool'[h] == pool[h]
  }

  /** The new hashes as queue items. */
  ghost function NewItems(inserts: seq<Hash>, counter: nat): seq<Item<Hash>>
  {
    seq(|inserts|, i requires 0 <= i < |inserts| => Item(inserts[i], -(counter + i + 1)))
  }

  ghost predicate Inserted(q: State, hashes: seq<Hash>, q': State, inserts: seq<Hash>)
  {
    && Scheduling(q.hashPool, hashes, q'.hashPool) && NewInOrder(q.hashPool, hashes, inserts)
    && NumberedFrom(q'.hashPool, inserts, q.counter)
    && q'.counter == q.counter + |inserts| && q'.queued == q.queued + multiset(NewItems(inserts, q.counter))
    && q' == q.(counter := q'.counter, hashPool := q'.hashPool, queued := q'.queued)
  }

  /** Every hash of the list is scheduled. The new ones are returned in order of first occurrence, and take the next
      numbers in that order; earlier numbers stay, and each new hash is queued at its number, negated. */
  lemma {:induction false} InsertSchedules(q: State, hashes: seq<Hash>)
    ensures Inserted(q, hashes, Insert(q, hashes).0, Insert(q, hashes).1)
    decreases hashes
  {
    if hashes == [] {
      assert NewItems([], q.counter) == [];
    } else {
      var h, rest := hashes[0], hashes[1..];
      assert hashes == [h] + rest;
      if h in q.hashPool {
        InsertSchedules(q, rest);
        var (q', inserts) := Insert(q, rest);
        assert Insert(q, hashes) == (q', inserts);
        hide Insert, Inserted;
        SkipOld(q, h, rest, q', inserts);
      } else {
        var q1 := InsertOne(q, h);
        InsertSchedules(q1, rest);
        var (q', inserts) := Insert(q1, rest);
        assert Insert(q, hashes) == (q', [h] + inserts);
        hide Insert, Inserted, InsertOne;
        AddNew(q, h, rest, q', inserts);
      }
    }
  }

  /** Among other hashes, one more at the front changes no order. */
  lemma FirstAfter(h: Hash, rest: seq<Hash>, inserts: seq<Hash>)
    requires h !in inserts && forall x :: x in inserts ==> x in rest
    ensures forall i :: 0 <= i < |inserts| ==> FirstAt([h] + rest, inserts[i]) == 1 + FirstAt(rest, inserts[i])
  {
    assert ([h] + rest)[1..] == rest;
  }

  lemma SkipOld(q: State, h: Hash, rest: seq<Hash>, q': State, inserts: seq<Hash>)
    requires h in q.hashPool && Inserted(q, rest, q', inserts)
    ensures Inserted(q, [h] + rest, q', inserts)
  {
    FirstAfter(h, rest, inserts);
    hide NewItems, FirstAt;
  }

  lemma AddNew(q: State, h: Hash, rest: seq<Hash>, q': State, inserts: seq<Hash>)
    requires h !in q.hashPool && Inserted(InsertOne(q, h), rest, q', inserts)
    ensures Inserted(q, [h] + rest, q', [h] + inserts)
  {
    hide NewInOrder, Scheduling, NumberedFrom, NewItems;
    var pool := q.hashPool[h := q.counter + 1];
    assert InsertOne(q, h).hashPool == pool && InsertOne(q, h).counter == q.counter + 1;
    NewFirst(q.hashPool, h, q.counter + 1, rest, inserts);
    AddFirst(q.hashPool, h, q.counter + 1, rest, q'.hashPool);
    NumberFirst(pool, rest, q'.hashPool, h, inserts, q.counter);
    ItemsFirst(h, inserts, q.counter);
    Regroup(q.queued, multiset{Item(h, -(q.counter + 1))}, multiset(NewItems(inserts, q.counter + 1)));
  }

  lemma NewFirst(pool: map<Hash, int>, h: Hash, c: int, rest: seq<Hash>, inserts: seq<Hash>)
    requires h !in pool && NewInOrder(pool[h := c], rest, inserts)
    ensures NewInOrder(pool, [h] + rest, [h] + inserts)
  {
    FirstAfter(h, rest, inserts);
    var all := [h] + inserts;
    assert all[0] == h && forall i :: 0 < i < |all| ==> all[i] == inserts[i - 1];
    assert FirstAt([h] + rest, h) == 0;
    hide FirstAt;
    forall x ensures x in all <==> x in [h] + rest && x !in pool {
      assert x in all <==> x == h || x in inserts;
    }
    forall i, j | 0 <= i < j < |all| ensures FirstAt([h] + rest, all[i]) < FirstAt([h] + rest, all[j]) {
      if i > 0 { assert FirstAt(rest, inserts[i - 1]) < FirstAt(rest, inserts[j - 1]); }
    }
  }

  lemma AddFirst(pool: map<Hash, int>, h: Hash, c: int, rest: seq<Hash>, pool': map<Hash, int>)
    requires h !in pool && Scheduling(pool[h := c], rest, pool')
    ensures Scheduling(pool, [h] + rest, pool')
  {}

  lemma NumberFirst(pool: map<Hash, int>, rest: seq<Hash>, pool': map<Hash, int>, h: Hash, inserts: seq<Hash>, counter: nat)
    requires h in pool && pool[h] == counter + 1 && Scheduling(pool, rest, pool') && NumberedFrom(pool', inserts, counter + 1)
    ensures NumberedFrom(pool', [h] + inserts, counter)
  {
    var all := [h] + inserts;
    forall i | 0 <= i < |all| ensures all[i] in pool' && pool'[all[i]] == counter + i + 1 {
      if i > 0 { assert all[i] == inserts[i - 1]; }
    }
  }

  lemma ItemsFirst(h: Hash, inserts: seq<Hash>, counter: nat)
    ensures multiset(NewItems([h] + inserts, counter))
            == multiset{Item(h, -(counter + 1))} + multiset(NewItems(inserts, counter + 1))
  {
    assert NewItems([h] + inserts, counter) == [Item(h, -(counter + 1))] + NewItems(inserts, counter + 1);
  }

  /** A hash keeps its number for as long as it is scheduled. */
  lemma NumberStays(q: State, e: Event, q': State, h: Hash)
    requires Next(q, e, q') && !e.ResetEvent? && h in q.hashPool && h in q'.hashPool
    ensures q'.hashPool[h] == q.hashPool[h]
  {
    hide Insert, Deliver, InFlight, TakeBlocks, ReadyBlocks;
    match e
    case InsertEvent(hashes, _) => InsertSchedules(q, hashes);
    case DeliverEvent(p, blocks, _) => DeliverNumbers(q, p, blocks);
    case TakeEvent(_) => TakePool(q);
    case _ =>
  }

  lemma TakePool(q: State)
    ensures TakeBlocks(q).0.hashPool == q.hashPool
  {}

  lemma DeliverNumbers(q: State, p: Peer, blocks: seq<Block>)
    ensures forall h :: h in Deliver(q, p, blocks).0.hashPool ==>
                        h in q.hashPool && Deliver(q, p, blocks).0.hashPool[h] == q.hashPool[h]
  {
    if p in q.pending { AcceptNumbers(StartDelivery(q, p), blocks, q.offset, p); }
  }

  lemma {:induction false} AcceptNumbers(d: Delivery, blocks: seq<Block>, offset: Height, p: Peer)
    ensures forall h :: h in AcceptAll(d, blocks, offset, p).hashPool ==>
                        h in d.hashPool && AcceptAll(d, blocks, offset, p).hashPool[h] == d.hashPool[h]
    decreases blocks
  {
    if !d.invalid && blocks != [] {
      hide Signed;
      AcceptNumbers(Accept(d, blocks[0], offset, p), blocks[1..], offset, p);
    }
  }

  /** h is scheduled in every state of the run up to n, which is not reset. */
  ghost predicate ScheduledThrough(qs: seq<State>, es: seq<Event>, n: nat, h: Hash)
    requires n <= |es| < |qs|
  {
    (forall i :: 0 <= i <= n ==> h in qs[i].hashPool) && forall i :: 0 <= i < n ==> !es[i].ResetEvent?
  }

  lemma {:induction false} NumberStaysThrough(qs: seq<State>, es: seq<Event>, n: nat, h: Hash)
    requires IsRun(qs, es) && n <= |es| && ScheduledThrough(qs, es, n, h)
    ensures h in qs[0].hashPool && h in qs[n].hashPool && qs[n].hashPool[h] == qs[0].hashPool[h]
  {
    if n > 0 {
      NumberStaysThrough(qs, es, n - 1, h);
      RunAt(qs, es, n - 1);
      hide Next, Legal;
      NumberStays(qs[n - 1], es[n - 1], qs[n], h);
    }
  }

  /** Of two new hashes of one list the earlier goes out first: however long after, a peer that is handed the later
      one and does not lack the earlier one leaves the earlier one no longer queued. */
  lemma EarlierFirst(q: State, hashes: seq<Hash>, h: Hash, k: Hash, qs: seq<State>, es: seq<Event>, n: nat,
                     p: Peer, lacks: set<Hash>, count: int, time: int, r: Request)
    requires Safe(q) && h in Insert(q, hashes).1 && k in Insert(q, hashes).1 && h in hashes && k in hashes
    requires FirstAt(hashes, h) < FirstAt(hashes, k)
    requires IsRun(qs, es) && n < |es| && qs[0] == Insert(q, hashes).0
    requires Conserved(q) && ScheduledThrough(qs, es, n, h) && ScheduledThrough(qs, es, n, k)
    requires es[n] == ReserveEvent(p, lacks, count, time, Some(r)) && k in r.hashes && h !in lacks
    ensures forall x :: x in qs[n + 1].queued ==> x.value != h
  {
    InsertOrder(q, hashes, h, k);
    InsertKeeps(q, hashes);
    hide Safe, Conserved, Insert;
    NumberStaysThrough(qs, es, n, h);
    NumberStaysThrough(qs, es, n, k);
    RunSafe(qs, es, n);
    RunAt(qs, es, n);
    hide IsRun, ScheduledThrough, Reserve;
    if x :| x in qs[n + 1].queued && x.value == h {
      ReserveInOrder(qs[n], p, lacks, count, time, Some(r), qs[n + 1], k, h);
    }
  }

  /** Numbers follow the list. */
  lemma InsertOrder(q: State, hashes: seq<Hash>, h: Hash, k: Hash)
    requires h in Insert(q, hashes).1 && k in Insert(q, hashes).1 && h in hashes && k in hashes
    requires FirstAt(hashes, h) < FirstAt(hashes, k)
    ensures var pool := Insert(q, hashes).0.hashPool; h in pool && k in pool && pool[h] < pool[k]
  {
    InsertSchedules(q, hashes);
    var (q', inserts) := Insert(q, hashes);
    hide Insert, FirstAt;
    var i :| 0 <= i < |inserts| && inserts[i] == h;
    var j :| 0 <= j < |inserts| && inserts[j] == k;
  }

  // ---- Reserve ----

  ghost function Sent(r: Option<Request>): map<Hash, int>
  {
    if r.Some? then r.value.hashes else map[]
  }

  /** The free slots of the cache that no request is waiting for. */
  ghost function Free(q: State): int
  {
    |q.cache| - |q.blockPool| - |InFlight(q.pending)|
  }

  ghost predicate ReservesLawfully(q: State, p: Peer, lacks: set<Hash>, count: int, time: int, r: Option<Request>, q': State)
  {
    && q'.pending == (if r.Some? then q.pending[p := r.value] else q.pending) && q' == q.(queued := q'.queued, pending := q'.pending)
    && (r.Some? ==> p !in q.pending && r.value.peer == p && r.value.time == time && Sent(r) != map[])
    && ItemsOf(Sent(r)) + q'.queued == q.queued && forall h :: h in Sent(r) ==> h !in lacks
  }

  /** `skip` are hashes passed over: the peer lacks them and they stay queued. */
  ghost predicate Passed(q': State, lacks: set<Hash>, skip: Items)
  {
    skip <= q'.queued && forall x :: x in skip ==> x.value in lacks
  }

  /** Unless the peer has a request pending, queued hashes that it does not lack become its request, as many as asked
      for, unless the free slots are used up by them and the ones passed over, or nothing else is queued. */
  lemma ReserveHandsOut(q: State, p: Peer, lacks: set<Hash>, count: int, time: int, r: Option<Request>, q': State)
    returns (skip: Items)
    requires Safe(q) && Reserve(q, p, lacks, count, time, r, q')
    ensures ReservesLawfully(q, p, lacks, count, time, r, q') && Passed(q', lacks, skip)
    ensures p in q.pending ==> r.None?
    ensures Sent(r) == map[] || (|Sent(r)| <= count && |Sent(r)| + |skip| <= Free(q))
    ensures p in q.pending || |Sent(r)| >= count || |Sent(r)| + |skip| >= Free(q) || forall x :: x in q'.queued ==> x.value in lacks
  {
    skip := multiset{};
    if q.queued == multiset{} || p in q.pending {
      NoneSent(q, p, lacks, count, time, r, q');
      hide *;
    } else {
      var picks, rest :| Reserves(q, p, lacks, count, time, r, q', picks, rest);
      skip := ItemsOf(SkipOf(picks, lacks));
      hide *;
      PickedLawfully(q, p, lacks, count, time, r, q', picks, rest);
    }
  }

  lemma NoneSent(q: State, p: Peer, lacks: set<Hash>, count: int, time: int, r: Option<Request>, q': State)
    requires (q.queued == multiset{} || p in q.pending) && Reserve(q, p, lacks, count, time, r, q')
    ensures ReservesLawfully(q, p, lacks, count, time, r, q') && Passed(q', lacks, multiset{}) && r.None? && Sent(r) == map[]
    ensures p in q.pending || forall x :: x in q'.queued ==> x.value in lacks
  {
    ItemsSize(map[]);
  }

  lemma PickedLawfully(q: State, p: Peer, lacks: set<Hash>, count: int, time: int, r: Option<Request>, q': State,
                       picks: seq<Item<Hash>>, rest: Items)
    requires Safe(q) && p !in q.pending && Reserves(q, p, lacks, count, time, r, q', picks, rest)
    ensures var skip := ItemsOf(SkipOf(picks, lacks));
            && ReservesLawfully(q, p, lacks, count, time, r, q') && Passed(q', lacks, skip)
            && (Sent(r) == map[] || (|Sent(r)| <= count && |Sent(r)| + |skip| <= Free(q)))
            && (|Sent(r)| >= count || |Sent(r)| + |skip| >= Free(q) || forall x :: x in q'.queued ==> x.value in lacks)
  {
    hide ItemsOf, InFlight, SendOf, SkipOf, Popped, Picks, Booked, Bounded, HandsOut, Free;
    HandedOut(q, p, lacks, count, time, r, q', picks, rest);
    var send, skip := SendOf(picks, lacks), ItemsOf(SkipOf(picks, lacks));
    assert Sent(r) == send;
    HandsOutLaw(q, lacks, count, send, q'.queued, skip);
  }

  lemma HandsOutLaw(q: State, lacks: set<Hash>, count: int, send: map<Hash, int>, rest: Items, skip: Items)
    requires HandsOut(q, lacks, count, send, rest, skip)
    ensures ItemsOf(send) + rest == q.queued && skip <= rest
    ensures (forall h :: h in send ==> h !in lacks) && (forall x :: x in skip ==> x.value in lacks)
    ensures send == map[] || (|send| <= count && |send| + |skip| <= Free(q))
    ensures |send| >= count || |send| + |skip| >= Free(q) || forall x :: x in rest ==> x.value in lacks
  {
    hide ItemsOf, InFlight, PickedFirst;
  }

  /** A peer that lacks nothing queued gets as many hashes as it asks for, as are queued, or as there are slots free. */
  lemma ReserveFills(q: State, p: Peer, lacks: set<Hash>, count: nat, time: int, r: Option<Request>, q': State)
    requires Safe(q) && Reserve(q, p, lacks, count, time, r, q') && p !in q.pending
    requires forall x :: x in q.queued ==> x.value !in lacks
    ensures Free(q) >= 0 && |Sent(r)| == Least(count, |q.queued|, Free(q))
  {
    hide ItemsOf, InFlight, Reserve, Booked, ReservesLawfully, Passed;
    var skip := ReserveHandsOut(q, p, lacks, count, time, r, q');
    NothingPassed(q, p, lacks, count, time, r, q', skip);
    ItemsSize(Sent(r));
  }

  lemma NothingPassed(q: State, p: Peer, lacks: set<Hash>, count: int, time: int, r: Option<Request>, q': State, skip: Items)
    requires ReservesLawfully(q, p, lacks, count, time, r, q') && Passed(q', lacks, skip)
    requires forall x :: x in q.queued ==> x.value !in lacks
    ensures |skip| == 0 && |q.queued| == |ItemsOf(Sent(r))| + |q'.queued|
    ensures (forall x :: x in q'.queued ==> x.value in lacks) ==> |q'.queued| == 0
  {
    hide ItemsOf;
    assert forall x :: x in q'.queued ==> x in ItemsOf(Sent(r)) + q'.queued;
    assert skip == multiset{};
    assert (forall x :: x in q'.queued ==> x.value in lacks) ==> q'.queued == multiset{};
  }

  ghost function Least(a: int, b: int, c: int): int
  {
    if a <= b && a <= c then a else if b <= c then b else c
  }

  // ---- Expire, TakeBlocks, Reset, Prepare ----

  /** Exactly the requests older than the timeout are dropped, and exactly their hashes go back into the queue. */
  lemma ExpireDrops(q: State, now: int, timeout: int)
    ensures var q' := Expire(q, now, timeout);
            && (forall p :: p in q'.pending <==> p in q.pending && now - q.pending[p].time <= timeout)
            && (forall p :: p in q'.pending ==> q'.pending[p] == q.pending[p])
            && (forall x :: x in q'.queued <==> x in q.queued || exists p :: ExpiredWith(q, now, timeout, p, x))
            && q' == q.(queued := q'.queued, pending := q'.pending)
  {
    var gone, q' := Expired(q, now, timeout), Expire(q, now, timeout);
    forall x ensures x in InFlight(gone) <==> exists p :: ExpiredWith(q, now, timeout, p, x) {
      hide InFlight;
      AskedFor(gone, x);
      if p :| ExpiredWith(q, now, timeout, p, x) { assert Holds(gone, p, x); }
      if p :| Holds(gone, p, x) { assert ExpiredWith(q, now, timeout, p, x); }
    }
    hide InFlight;
  }

  ghost predicate ExpiredWith(q: State, now: int, timeout: int, p: Peer, x: Item<Hash>)
  {
    p in q.pending && now - q.pending[p].time > timeout && Holds(q.pending, p, x)
  }

  /** The request of p has this hash at this priority. */
  ghost predicate Holds(pending: Pending, p: Peer, x: Item<Hash>)
  {
    p in pending && x.value in pending[p].hashes && pending[p].hashes[x.value] == x.priority
  }

  /** What is in flight is what some request holds. */
  lemma {:induction false} AskedFor(pending: Pending, x: Item<Hash>)
    ensures x in InFlight(pending) <==> exists p :: Holds(pending, p, x)
    decreases |pending|
  {
    if pending != map[] {
      var p :| p in pending;
      FewerSize(pending, p);
      InFlightWithout(pending, p);
      hide InFlight;
      AskedFor(pending - {p}, x);
      assert x in ItemsOf(pending[p].hashes) <==> Holds(pending, p, x) by { ItemIn(pending[p].hashes, x); }
      if o :| Holds(pending, o, x) {
        if o != p { assert Holds(pending - {p}, o, x); }
      }
      if o :| Holds(pending - {p}, o, x) { assert Holds(pending, o, x); }
    }
  }

  lemma ItemIn(m: map<Hash, int>, x: Item<Hash>)
    ensures x in ItemsOf(m) <==> x.value in m && m[x.value] == x.priority
  {
    if x.value in m && m[x.value] == x.priority { ItemsItem(m, x.value); }
  }

  /** All blocks up to the first gap come out, the others move up, and the window starts at the gap. */
  lemma TakesAll(q: State)
    ensures var (q', taken) := TakeBlocks(q);
            && |taken| <= |q.cache| == |q'.cache|
            && (forall i :: 0 <= i < |taken| ==> q.cache[i] == Some(taken[i])) && (|taken| < |q.cache| ==> q.cache[|taken|].None?)
            && (forall i :: 0 <= i < |q.cache| ==> q'.cache[i] == if i + |taken| < |q.cache| then q.cache[i + |taken|] else None)
            && (forall h :: h in q'.blockPool <==> h in q.blockPool && forall i :: 0 <= i < |taken| ==> taken[i].rawBlock.hash != h)
            && q' == q.(blockPool := q'.blockPool, cache := q'.cache, offset := HeightAt(q.offset, |taken|))
  {}

  /** Whatever was before, Reset and Prepare leave an empty queue whose window starts at the height given. */
  lemma FreshStart(q: State, from: Height)
    ensures var q' := Prepare(Reset(q), from);
            && q'.hashPool == map[] && q'.blockPool == map[] && q'.pending == map[] && q'.queued == multiset{} && q'.counter == 0
            && q'.offset == from && |q'.cache| == |q.cache| && (forall i :: 0 <= i < |q'.cache| ==> q'.cache[i].None?)
            && Safe(q') && Conserved(q') && Placed(q')
  {
    ResetKeeps(q);
    PrepareSafe(Reset(q), from);
    PrepareKeeps(Reset(q), from);
  }

  /** Over a whole synchronisation, whatever order peers deliver in, the blocks taken are those of the heights from the
      one asked for on, one of each. */
  lemma SyncFrom(q: State, from: Height, qs: seq<State>, es: seq<Event>, n: nat)
    requires IsRun(qs, es) && n < |qs| && qs[0] == Prepare(Reset(q), from)
    requires forall i :: 0 <= i < |es| ==> Steady(qs[i], es[i])
    ensures forall i :: 0 <= i < |Taken(es, n)| ==> Taken(es, n)[i].rawBlock.height == HeightAt(from, i)
  {
    FreshStart(q, from);
    hide IsRun, Steady, Safe, Conserved, Placed, Prepare, Reset;
    assert SteadyRun(qs, es);
    TakenConsecutive(qs, es, n);
  }

  // ---- Deliver ----

  ghost function HashesIn(bs: seq<Block>): set<Hash>
  {
    set i | 0 <= i < |bs| :: bs[i].hash
  }

  /** The hashes among `bs` that were asked for. */
  ghost function Got(owed: map<Hash, int>, bs: seq<Block>): set<Hash>
  {
    owed.Keys * HashesIn(bs)
  }

  /** The slot holds a block of `bs` that was asked for, of the height the slot is for, as sent by p. */
  ghost predicate Filed(owed: map<Hash, int>, bs: seq<Block>, offset: Height, p: Peer, slot: Option<QueueBlock>, i: int)
  {
    exists k :: 0 <= k < |bs| && bs[k].hash in owed && bs[k].height == HeightAt(offset, i) && slot == Some(QueueBlock(bs[k], p))
  }

  /** What taking in `bs` does, none of them being outside the window. */
  ghost predicate TookIn(d: Delivery, bs: seq<Block>, offset: Height, p: Peer, d': Delivery)
  {
    && d'.owed == d.owed - HashesIn(bs) && d'.hashPool == d.hashPool - Got(d.owed, bs) && !d'.invalid
    && d'.errs == d.errs + |bs| - |Got(d.owed, bs)|
    && PoolTook(d, bs, d'.blockPool)
    && |d'.cache| == |d.cache| && AllFiled(d.owed, bs, offset, p, d'.cache)
    && forall i :: 0 <= i < |d.cache| ==> d'.cache[i] == d.cache[i] || Filed(d.owed, bs, offset, p, d'.cache[i], i)
  }

  /** The hashes got are in the pool of downloaded blocks with their heights, and the others as before. */
  ghost predicate PoolTook(d: Delivery, bs: seq<Block>, pool: map<Hash, int>)
  {
    && pool.Keys == d.blockPool.Keys + Got(d.owed, bs)
    && (forall h :: h in d.blockPool && h !in Got(d.owed, bs) ==> pool[h] == d.blockPool[h])
    && forall h :: h in Got(d.owed, bs) ==> HeightFrom(bs, h, pool[h])
  }

  ghost predicate HeightFrom(bs: seq<Block>, h: Hash, v: int)
  {
    exists k :: 0 <= k < |bs| && bs[k].hash == h && v == Signed(bs[k].height)
  }

  /** Every block that was asked for, when it first comes, has its slot filled by this delivery. */
  ghost predicate AllFiled(owed: map<Hash, int>, bs: seq<Block>, offset: Height, p: Peer, cache: Cache)
  {
    forall k :: 0 <= k < |bs| && bs[k].hash in owed && bs[k].hash !in HashesIn(bs[..k]) ==>
      var i := Signed(bs[k].height - offset); 0 <= i < |cache| && Filed(owed, bs, offset, p, cache[i], i)
  }

  lemma {:induction false} AcceptMore(d: Delivery, bs: seq<Block>, b: Block, offset: Height, p: Peer)
    ensures AcceptAll(d, bs + [b], offset, p) ==
            var e := AcceptAll(d, bs, offset, p); if e.invalid then e else Accept(e, b, offset, p)
    decreases bs
  {
    hide Signed;
    if !d.invalid {
      if bs == [] {
        assert ([] + [b])[1..] == [];
        var e := Accept(d, b, offset, p);
        assert AcceptAll(e, [], offset, p) == e;
      } else {
        assert (bs + [b])[1..] == bs[1..] + [b] && (bs + [b])[0] == bs[0];
        AcceptMore(Accept(d, bs[0], offset, p), bs[1..], b, offset, p);
      }
    }
  }

  lemma HashesMore(owed: map<Hash, int>, bs: seq<Block>, b: Block)
    ensures HashesIn(bs + [b]) == HashesIn(bs) + {b.hash}
    ensures Got(owed, bs + [b]) == Got(owed, bs) + if b.hash in owed then {b.hash} else {}
  {
    var cs := bs + [b];
    assert cs[|bs|] == b && forall i :: 0 <= i < |bs| ==> cs[i] == bs[i];
  }

  /** One more block. */
  lemma TookMore(d: Delivery, bs: seq<Block>, b: Block, offset: Height, p: Peer, e: Delivery)
    requires TookIn(d, bs, offset, p, e) && !Accept(e, b, offset, p).invalid
    ensures TookIn(d, bs + [b], offset, p, Accept(e, b, offset, p))
  {
    hide Filed, AllFiled, PoolTook, HashesIn, Got, Signed;
    OwedMore(d, bs, b, offset, p, e);
    PoolMore(d, bs, b, offset, p, e);
    CacheMore(d, bs, b, offset, p, e);
    FiledMore(d, bs, b, offset, p, e);
  }

  lemma OwedAfter(owed: map<Hash, int>, bs: seq<Block>, h: Hash)
    ensures h in owed - HashesIn(bs) <==> h in owed && h !in Got(owed, bs)
  {}

  lemma OwedMore(d: Delivery, bs: seq<Block>, b: Block, offset: Height, p: Peer, e: Delivery)
    requires e.owed == d.owed - HashesIn(bs) && e.hashPool == d.hashPool - Got(d.owed, bs)
    requires e.errs == d.errs + |bs| - |Got(d.owed, bs)| && !Accept(e, b, offset, p).invalid
    ensures var e' := Accept(e, b, offset, p);
            && e'.owed == d.owed - HashesIn(bs + [b]) && e'.hashPool == d.hashPool - Got(d.owed, bs + [b])
            && e'.errs == d.errs + |bs + [b]| - |Got(d.owed, bs + [b])|
  {
    HashesMore(d.owed, bs, b);
    OwedAfter(d.owed, bs, b.hash);
    hide HashesIn, Got, Signed;
    var e' := Accept(e, b, offset, p);
    if b.hash in e.owed {
      assert e'.owed == d.owed - (HashesIn(bs) + {b.hash});
      assert e'.hashPool == d.hashPool - (Got(d.owed, bs) + {b.hash});
    } else {
      assert e.owed == d.owed - (HashesIn(bs) + {b.hash});
      if b.hash in d.owed { assert Got(d.owed, bs) + {b.hash} == Got(d.owed, bs); }
    }
  }

  lemma PoolMore(d: Delivery, bs: seq<Block>, b: Block, offset: Height, p: Peer, e: Delivery)
    requires PoolTook(d, bs, e.blockPool) && e.owed == d.owed - HashesIn(bs)
    requires !Accept(e, b, offset, p).invalid
    ensures PoolTook(d, bs + [b], Accept(e, b, offset, p).blockPool)
  {
    var cs, pool := bs + [b], Accept(e, b, offset, p).blockPool;
    HashesMore(d.owed, bs, b);
    OwedAfter(d.owed, bs, b.hash);
    hide HashesIn, Got, Signed, HeightFrom;
    forall h | h in Got(d.owed, cs) ensures h in pool && HeightFrom(cs, h, pool[h]) {
      if h in Got(d.owed, bs) {
        HeightKept(bs, b, h, e.blockPool[h]);
      } else {
        HeightNew(bs, b);
      }
    }
  }

  lemma HeightKept(bs: seq<Block>, b: Block, h: Hash, v: int)
    requires HeightFrom(bs, h, v)
    ensures HeightFrom(bs + [b], h, v)
  {
    hide Signed;
    var k :| 0 <= k < |bs| && bs[k].hash == h && v == Signed(bs[k].height);
    assert (bs + [b])[k] == bs[k];
  }

  lemma HeightNew(bs: seq<Block>, b: Block)
    ensures HeightFrom(bs + [b], b.hash, Signed(b.height))
  {
    hide Signed;
    assert (bs + [b])[|bs|] == b;
  }

  lemma FiledKept(owed: map<Hash, int>, bs: seq<Block>, b: Block, offset: Height, p: Peer, slot: Option<QueueBlock>, i: int)
    requires Filed(owed, bs, offset, p, slot, i)
    ensures Filed(owed, bs + [b], offset, p, slot, i)
  {
    hide HeightAt;
    var k :| 0 <= k < |bs| && bs[k].hash in owed && bs[k].height == HeightAt(offset, i) && slot == Some(QueueBlock(bs[k], p));
    assert (bs + [b])[k] == bs[k];
  }

  lemma FiledNew(owed: map<Hash, int>, bs: seq<Block>, b: Block, offset: Height, p: Peer)
    requires b.hash in owed
    ensures Filed(owed, bs + [b], offset, p, Some(QueueBlock(b, p)), Signed(b.height - offset))
  {
    SlotHeight(b.height, offset);
    assert (bs + [b])[|bs|] == b;
    hide Signed, Wrap;
  }

  lemma CacheMore(d: Delivery, bs: seq<Block>, b: Block, offset: Height, p: Peer, e: Delivery)
    requires |e.cache| == |d.cache| && e.owed == d.owed - HashesIn(bs) && !Accept(e, b, offset, p).invalid
    requires forall i :: 0 <= i < |d.cache| ==> e.cache[i] == d.cache[i] || Filed(d.owed, bs, offset, p, e.cache[i], i)
    ensures var e' := Accept(e, b, offset, p);
            && |e'.cache| == |d.cache|
            && forall i :: 0 <= i < |d.cache| ==> e'.cache[i] == d.cache[i] || Filed(d.owed, bs + [b], offset, p, e'.cache[i], i)
  {
    hide Signed, Filed, HashesIn;
    var e' := Accept(e, b, offset, p);
    forall i | 0 <= i < |d.cache| ensures e'.cache[i] == d.cache[i] || Filed(d.owed, bs + [b], offset, p, e'.cache[i], i) {
      if e'.cache[i] == e.cache[i] {
        if e.cache[i] != d.cache[i] { FiledKept(d.owed, bs, b, offset, p, e.cache[i], i); }
      } else {
        FiledNew(d.owed, bs, b, offset, p);
      }
    }
  }

  lemma FiledMore(d: Delivery, bs: seq<Block>, b: Block, offset: Height, p: Peer, e: Delivery)
    requires AllFiled(d.owed, bs, offset, p, e.cache) && e.owed == d.owed - HashesIn(bs) && !Accept(e, b, offset, p).invalid
    ensures AllFiled(d.owed, bs + [b], offset, p, Accept(e, b, offset, p).cache)
  {
    hide Signed, Filed, HashesIn;
    var cs, cache := bs + [b], Accept(e, b, offset, p).cache;
    forall k | 0 <= k < |cs| && cs[k].hash in d.owed && cs[k].hash !in HashesIn(cs[..k])
      ensures var i := Signed(cs[k].height - offset); 0 <= i < |cache| && Filed(d.owed, cs, offset, p, cache[i], i)
    {
      var i := Signed(cs[k].height - offset);
      if k < |bs| {
        assert cs[k] == bs[k] && cs[..k] == bs[..k];
        FiledKept(d.owed, bs, b, offset, p, e.cache[i], i);
      } else {
        assert cs[..k] == bs;
      }
      if b.hash in e.owed { FiledNew(d.owed, bs, b, offset, p); }
    }
  }

  /** Block k was asked for, has not come before, and lies outside the window. */
  ghost predicate Outside(owed: map<Hash, int>, blocks: seq<Block>, k: nat, offset: Height, size: nat)
    requires k < |blocks|
  {
    blocks[k].hash in owed && blocks[k].hash !in HashesIn(blocks[..k]) && !InWindow(blocks[k].height, offset, size)
  }

  /** d' is what taking in the first k blocks leaves, where the delivery stops. */
  ghost predicate UpTo(d: Delivery, blocks: seq<Block>, offset: Height, p: Peer, k: nat, d': Delivery)
  {
    && k <= |blocks| && TookIn(d, blocks[..k], offset, p, d'.(invalid := false)) && (d'.invalid <==> k < |blocks|)
    && (k < |blocks| ==> Outside(d.owed, blocks, k, offset, |d.cache|))
  }

  /** The blocks are taken in one after the other, up to the first that was asked for and lies outside the window. */
  lemma {:induction false} AcceptsUpTo(d: Delivery, blocks: seq<Block>, offset: Height, p: Peer) returns (k: nat)
    requires !d.invalid
    ensures UpTo(d, blocks, offset, p, k, AcceptAll(d, blocks, offset, p))
    decreases |blocks|
  {
    hide *;
    k := 0;
    if blocks == [] {
      TookNothing(d, offset, p);
    } else {
      var n := |blocks| - 1;
      var init, b := blocks[..n], blocks[n];
      assert blocks == init + [b];
      k := AcceptsUpTo(d, init, offset, p);
      AcceptMore(d, init, b, offset, p);
      var e := AcceptAll(d, init, offset, p);
      if e.invalid {
        UpToMore(d, init, b, offset, p, k, e);
      } else if Accept(e, b, offset, p).invalid {
        UpToHere(d, init, b, offset, p, k, e);
      } else {
        UpToNext(d, init, b, offset, p, k, e);
        k := k + 1;
      }
    }
  }

  lemma UpToMore(d: Delivery, bs: seq<Block>, b: Block, offset: Height, p: Peer, k: nat, e: Delivery)
    requires UpTo(d, bs, offset, p, k, e) && e.invalid
    ensures UpTo(d, bs + [b], offset, p, k, e)
  {
    hide TookIn, InWindow, HashesIn;
    assert (bs + [b])[..k] == bs[..k];
  }

  lemma UpToHere(d: Delivery, bs: seq<Block>, b: Block, offset: Height, p: Peer, k: nat, e: Delivery)
    requires UpTo(d, bs, offset, p, k, e) && !e.invalid && Accept(e, b, offset, p).invalid
    ensures UpTo(d, bs + [b], offset, p, k, Accept(e, b, offset, p))
  {
    hide InWindow, HashesIn, Got, Filed, AllFiled, PoolTook, Signed;
    assert (bs + [b])[..k] == bs == bs[..k];
    WindowIndex(b.height, offset, |d.cache|);
  }

  lemma UpToNext(d: Delivery, bs: seq<Block>, b: Block, offset: Height, p: Peer, k: nat, e: Delivery)
    requires UpTo(d, bs, offset, p, k, e) && !e.invalid && !Accept(e, b, offset, p).invalid
    ensures UpTo(d, bs + [b], offset, p, k + 1, Accept(e, b, offset, p))
  {
    hide TookIn, Accept, Outside;
    assert (bs + [b])[..k + 1] == bs + [b] && bs[..k] == bs;
    assert e.(invalid := false) == e && Accept(e, b, offset, p).(invalid := false) == Accept(e, b, offset, p);
    TookMore(d, bs, b, offset, p, e);
  }

  lemma TookNothing(d: Delivery, offset: Height, p: Peer)
    requires !d.invalid
    ensures UpTo(d, [], offset, p, 0, AcceptAll(d, [], offset, p))
  {
    var none: seq<Block> := [];
    assert none[..0] == none;
    assert HashesIn([]) == {};
    assert Got(d.owed, []) == {};
    assert AcceptAll(d, [], offset, p) == d == d.(invalid := false);
    hide HashesIn, Got;
  }

  /** Deliver, for a peer with a request pending: the request is dropped. Of the blocks up to the first that was asked
      for and lies outside the window, those asked for go into the cache, each in the slot for its height and under
      the name of the peer; their hashes leave the schedule for the pool, with their heights. Any other block counts
      as not asked for. What has not come goes back into the queue, unless the chain was invalid. */
  lemma DeliverTakesIn(q: State, p: Peer, blocks: seq<Block>) returns (k: nat)
    requires p in q.pending
    ensures k <= |blocks| && DeliveredUpTo(q, p, blocks, k, Deliver(q, p, blocks).0, Deliver(q, p, blocks).1)
  {
    k := AcceptsUpTo(StartDelivery(q, p), blocks, q.offset, p);
    hide AcceptAll, PoolTook, Filed, AllFiled, InWindow, HashesIn, Got, ItemsOf, Outside;
  }

  ghost predicate DeliveredUpTo(q: State, p: Peer, blocks: seq<Block>, k: nat, q': State, outcome: Outcome)
    requires p in q.pending && k <= |blocks|
  {
    var owed, bs := q.pending[p].hashes, blocks[..k];
    && (if k < |blocks| then outcome == InvalidChain else outcome.Delivered? && outcome.errs == |blocks| - |Got(owed, bs)|)
    && (k < |blocks| ==> Outside(owed, blocks, k, q.offset, |q.cache|))
    && q'.queued == (if k < |blocks| then q.queued else q.queued + ItemsOf(owed - HashesIn(bs)))
    && q'.pending == q.pending - {p} && q'.hashPool == q.hashPool - Got(owed, bs)
    && PoolTook(StartDelivery(q, p), bs, q'.blockPool)
    && |q'.cache| == |q.cache| && AllFiled(owed, bs, q.offset, p, q'.cache)
    && (forall i :: 0 <= i < |q.cache| ==> q'.cache[i] == q.cache[i] || Filed(owed, bs, q.offset, p, q'.cache[i], i))
    && q'.counter == q.counter && q'.offset == q.offset
  }
}
