/** The priority queue of common/priqueue/priqueue.go: a heap stored in fixed-size blocks. */
module Priqueue {
  import opened Arithmetic
  import opened Options
  import Heap

  datatype Item<T> = Item(value: T, priority: int)

  function Rank<T>(x: Item<T>): (r: int) { x.priority }

  /** Element k lives in block k / blocksize at position k % blocksize. */
  function BlockOf(k: nat, bs: nat): (b: nat)
    requires bs > 0
  {
    k / bs
  }

  function OffsetOf(k: nat, bs: nat): (o: nat)
    requires bs > 0
    ensures o < bs
  {
    k % bs
  }

  lemma PlaceOf(k: nat, bs: nat, b: nat, o: nat)
    requires o < bs && k == b * bs + o
    ensures BlockOf(k, bs) == b && OffsetOf(k, bs) == o
  {
    DivModUnique(k, bs, b, o);
  }

  lemma PlaceInjective(i: nat, j: nat, bs: nat)
    requires bs > 0 && BlockOf(i, bs) == BlockOf(j, bs) && OffsetOf(i, bs) == OffsetOf(j, bs)
    ensures i == j
  {}

  /** Block `b` is in use up to `o` when there are `size` elements. */
  predicate Position(size: nat, bs: nat, b: nat, o: nat)
  {
    size == b * bs + o && o <= bs
  }

  lemma PositionOf(size: nat, bs: nat, b: nat, o: nat)
    requires Position(size, bs, b, o) && o < bs
    ensures BlockOf(size, bs) == b && OffsetOf(size, bs) == o && Position(size + 1, bs, b, o + 1)
  {
    PlaceOf(size, bs, b, o);
  }

  lemma PositionFull(size: nat, bs: nat, b: nat)
    requires bs > 0 && Position(size, bs, b, bs)
    ensures BlockOf(size, bs) == b + 1 && OffsetOf(size, bs) == 0 && Position(size, bs, b + 1, 0)
  {
    assert (b + 1) * bs == b * bs + bs;
    PlaceOf(size, bs, b + 1, 0);
  }

  lemma PositionBack(size: nat, bs: nat, b: nat, o: nat)
    requires bs > 0 && size > 0 && Position(size, bs, b, o)
    ensures o > 0 ==> Position(size - 1, bs, b, o - 1) && BlockOf(size - 1, bs) == b && OffsetOf(size - 1, bs) == o - 1
    ensures o == 0 ==> b > 0 && Position(size - 1, bs, b - 1, bs - 1) && BlockOf(size - 1, bs) == b - 1
                       && OffsetOf(size - 1, bs) == bs - 1
  {
    if o > 0 {
      PlaceOf(size - 1, bs, b, o - 1);
    } else {
      assert b > 0;
      assert (b - 1) * bs + (bs - 1) == size - 1;
      PlaceOf(size - 1, bs, b - 1, bs - 1);
    }
  }

  lemma LastBlock(size: nat, bs: nat, b: nat, o: nat, n: nat)
    requires bs > 0 && Position(size, bs, b, o) && b < n
    ensures o <= bs && size <= n * bs
    ensures size == n * bs ==> b == n - 1 && o == bs
    ensures o == bs && size < n * bs ==> b + 1 < n
  {
    MulMono(b + 1, n, bs);
    if b < n - 1 { MulMono(b + 2, n, bs); }
  }

  type Blocks<T> = seq<array<Option<Item<T>>>>

  class SStack<T> {
    const blocksize: nat
    var size: nat
    var capacity: nat
    var offset: nat
    var blocks: Blocks<T>
    var active: array<Option<Item<T>>>
    ghost var current: nat

    ghost function Arrays(): set<array<Option<Item<T>>>>
      reads this
    {
      set b | b in blocks
    }

    ghost predicate Shape()
      reads this, Arrays()
    {
      && blocksize > 0 && capacity == |blocks| * blocksize
      && (forall b :: 0 <= b < |blocks| ==> blocks[b].Length == blocksize)
      && (forall b, c :: 0 <= b < |blocks| && 0 <= c < |blocks| && b != c ==> blocks[b] != blocks[c])
      && current < |blocks| && active == blocks[current] && Position(size, blocksize, current, offset)
    }

    ghost predicate Slot(k: nat)
      reads this, Arrays()
      requires blocksize > 0
    {
      var b, o := BlockOf(k, blocksize), OffsetOf(k, blocksize);
      b < |blocks| && o < blocks[b].Length && blocks[b][o].Some?
    }

    ghost predicate Valid()
      reads this, Arrays()
    {
      Shape() && forall k :: 0 <= k < size ==> Slot(k)
    }

    ghost function At(k: nat): Item<T>
      requires blocksize > 0 && Slot(k)
      reads this, Arrays()
    {
      blocks[BlockOf(k, blocksize)][OffsetOf(k, blocksize)].value
    }

    /** The elements in heap order. */
    ghost function Contents(): (s: seq<Item<T>>)
      requires Valid()
      reads this, Arrays()
      ensures |s| == size
    {
      seq(size, k requires 0 <= k < size && Valid() reads this, Arrays() => At(k))
    }

    lemma InContents(k: nat)
      requires Valid() && k < size
      ensures Slot(k) && Contents()[k] == At(k)
    {
      hide BlockOf, OffsetOf, Position;
    }

    constructor (n: nat)
      requires n > 0
      ensures Valid() && Contents() == [] && blocksize == n && fresh(Arrays())
    {
      blocksize, size, capacity, offset, current := n, 0, n, 0, 0;
      var a := new Option<Item<T>>[n](_ => None);
      active, blocks := a, [a];
    }

    /** The block that receives the next element: a new one when all are full. */
    method MakeRoom()
      requires Valid()
      modifies this`active, this`blocks, this`capacity, this`offset, this`current
      ensures Valid() && Contents() == old(Contents()) && offset < blocksize
      ensures fresh(Arrays() - old(Arrays()))
    {
      hide BlockOf, OffsetOf, Position;
      LastBlock(size, blocksize, current, offset, |blocks|);
      if size == capacity {
        PositionFull(size, blocksize, current);
        active := new Option<Item<T>>[blocksize](_ => None);
        assert (|blocks| + 1) * blocksize == capacity + blocksize;
        blocks := blocks + [active];
        capacity := capacity + blocksize;
        offset, current := 0, current + 1;
        forall k | 0 <= k < size ensures Slot(k) && At(k) == old(At(k)) {
          assert old(Slot(k));
        }
      } else if offset == blocksize {
        PositionFull(size, blocksize, current);
        active := blocks[BlockOf(size, blocksize)];
        offset, current := 0, current + 1;
        forall k | 0 <= k < size ensures Slot(k) && At(k) == old(At(k)) {
          assert old(Slot(k));
        }
      }
    }

    method Push(x: Item<T>)
      requires Valid()
      modifies this, Arrays()
      ensures Valid() && Contents() == old(Contents()) + [x]
      ensures fresh(Arrays() - old(Arrays()))
    {
      hide BlockOf, OffsetOf, Position;
      MakeRoom();
      label L:
      PositionOf(size, blocksize, current, offset);
      assert active in blocks;
      active[offset] := Some(x);
      offset := offset + 1;
      size := size + 1;
      forall k | 0 <= k < size - 1 ensures Slot(k) && At(k) == old@L(At(k)) {
        assert old@L(Slot(k));
        if BlockOf(k, blocksize) == current && OffsetOf(k, blocksize) == offset - 1 {
          PlaceInjective(k, size - 1, blocksize);
        }
      }
      assert Slot(size - 1) && At(size - 1) == x;
    }

    method Pop() returns (x: Item<T>)
      requires Valid() && size > 0
      modifies this`size, this`offset, this`active, this`current, Arrays()
      ensures Valid() && old(Contents()) == Contents() + [x] && Arrays() == old(Arrays())
    {
      hide BlockOf, OffsetOf, Position;
      PositionBack(size, blocksize, current, offset);
      assert Slot(size - 1);
      size := size - 1;
      if offset == 0 {
        offset := blocksize - 1;
        active := blocks[BlockOf(size, blocksize)];
        current := current - 1;
      } else {
        offset := offset - 1;
      }
      x := active[offset].value;
      assert active in blocks;
      active[offset] := None;
      forall k | 0 <= k < size ensures Slot(k) && At(k) == old(At(k)) {
        assert old(Slot(k));
        if BlockOf(k, blocksize) == current && OffsetOf(k, blocksize) == offset {
          PlaceInjective(k, size, blocksize);
        }
      }
    }

    predicate Less(i: nat, j: nat)
      requires Valid() && i < size && j < size
      reads this, Arrays()
      ensures Less(i, j) == (Rank(Contents()[i]) > Rank(Contents()[j]))
    {
      InContents(i);
      InContents(j);
      blocks[BlockOf(i, blocksize)][OffsetOf(i, blocksize)].value.priority
      > blocks[BlockOf(j, blocksize)][OffsetOf(j, blocksize)].value.priority
    }

    method Swap(i: nat, j: nat)
      requires Valid() && i < size && j < size
      modifies Arrays()
      ensures Valid() && Contents() == Heap.Swapped(old(Contents()), i, j)
    {
      hide BlockOf, OffsetOf, Position;
      assert Slot(i) && Slot(j);
      var ib, io, jb, jo := BlockOf(i, blocksize), OffsetOf(i, blocksize), BlockOf(j, blocksize), OffsetOf(j, blocksize);
      var x, y := blocks[ib][io], blocks[jb][jo];
      blocks[ib][io] := y;
      blocks[jb][jo] := x;
      ghost var t := Heap.Swapped(old(Contents()), i, j);
      forall k | 0 <= k < size ensures Slot(k) && At(k) == t[k] {
        assert old(Slot(k));
        if BlockOf(k, blocksize) == ib && OffsetOf(k, blocksize) == io { PlaceInjective(k, i, blocksize); }
        if BlockOf(k, blocksize) == jb && OffsetOf(k, blocksize) == jo { PlaceInjective(k, j, blocksize); }
      }
    }

    /** container/heap up. */
    method Up(j0: nat)
      requires Valid() && j0 < size
      modifies Arrays()
      ensures Valid() && Contents() == Heap.Up(Rank, old(Contents()), j0)
    {
      hide Valid, Contents;
      var j: nat := j0;
      while j > 0
        invariant Valid() && j < size
        invariant Heap.Up(Rank, Contents(), j) == Heap.Up(Rank, old(Contents()), j0)
      {
        var i := Heap.Parent(j);
        if !Less(j, i) { break; }
        Swap(i, j);
        j := i;
      }
    }

    method LargerChild(i: nat, n: nat) returns (j: nat)
      requires Valid() && 2 * i + 1 < n <= size
      ensures Valid() && j == Heap.Child(Rank, Contents(), i, n)
    {
      hide Valid, Contents;
      j := 2 * i + 1;
      if j + 1 < n {
        if Less(j + 1, j) { j := j + 1; }
      }
    }

    /** container/heap down. */
    method Down(i0: nat, n: nat)
      requires Valid() && i0 < size && n <= size
      modifies Arrays()
      ensures Valid() && Contents() == Heap.Down(Rank, old(Contents()), i0, n)
    {
      hide Valid, Contents, Heap.Child, Heap.Down, Heap.Swapped;
      var i: nat := i0;
      while 2 * i + 1 < n
        invariant Valid() && i < size
        invariant Heap.Down(Rank, Contents(), i, n) == Heap.Down(Rank, old(Contents()), i0, n)
        decreases n - i
      {
        Heap.DownUnfold(Rank, Contents(), i, n);
        var j := LargerChild(i, n);
        if !Less(j, i) { return; }
        Swap(i, j);
        i := j;
      }
      Heap.DownUnfold(Rank, Contents(), i, n);
    }

    /** container/heap Pop. */
    method HeapPop() returns (x: Item<T>)
      requires Valid() && size > 0
      modifies this`size, this`offset, this`active, this`current, Arrays()
      ensures Valid() && Arrays() == old(Arrays())
      ensures Contents() + [x] == Heap.Down(Rank, Heap.Swapped(old(Contents()), 0, old(size) - 1), 0, old(size) - 1)
    {
      hide Valid, Contents, Heap.Down, Heap.Swapped;
      var n := size - 1;
      Swap(0, n);
      Down(0, n);
      x := Pop();
    }
  }

  class Queue<T> {
    const blocksize: nat
    var cont: SStack<T>

    ghost predicate Valid()
      reads this, cont, cont.Arrays()
    {
      blocksize > 0 && cont.Valid() && Heap.IsHeap(Rank, cont.Contents())
    }

    /** What is queued. */
    ghost function Items(): multiset<Item<T>>
      requires Valid()
      reads this, cont, cont.Arrays()
    {
      multiset(cont.Contents())
    }

    constructor (n: nat)
      requires n > 0
      ensures Valid() && Items() == multiset{} && fresh(cont) && fresh(cont.Arrays())
    {
      blocksize := n;
      cont := new SStack(n);
    }

    method Push(data: T, priority: int)
      requires Valid()
      modifies cont, cont.Arrays()
      ensures Valid() && Items() == old(Items()) + multiset{Item(data, priority)}
      ensures cont == old(cont) && fresh(cont.Arrays() - old(cont.Arrays()))
    {
      hide SStack.Valid, SStack.Contents, Heap.IsHeap, Heap.Up;
      Heap.PushHeap(Rank, cont.Contents(), Item(data, priority));
      cont.Push(Item(data, priority));
      cont.Up(cont.size - 1);
    }

    /** An item of the highest priority, with everything else left queued. */
    method Pop() returns (data: T, priority: int)
      requires Valid() && Items() != multiset{}
      modifies cont, cont.Arrays()
      ensures Valid() && old(Items()) == Items() + multiset{Item(data, priority)}
      ensures forall y :: y in old(Items()) ==> y.priority <= priority
      ensures cont == old(cont) && cont.Arrays() == old(cont.Arrays())
    {
      hide SStack.Valid, SStack.Contents, Heap.IsHeap, Heap.Down, Heap.Swapped;
      var x := cont.HeapPop();
      Heap.PopSteps(Rank, old(cont.Contents()), cont.Contents(), x);
      data, priority := x.value, x.priority;
    }

    predicate Empty()
      requires Valid()
      reads this, cont, cont.Arrays()
      ensures Empty() == (Items() == multiset{})
    {
      assert |Items()| == cont.size;
      cont.size == 0
    }

    method Reset()
      requires Valid()
      modifies this
      ensures Valid() && Items() == multiset{} && fresh(cont) && fresh(cont.Arrays())
    {
      cont := new SStack(blocksize);
    }
  }
}
