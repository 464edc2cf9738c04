/** Least-recently-used cache (lru/lrucache.go). */
module Lru {
  import opened Options
  import opened Collections

  /** s without k. */
  function Without<K(==, !new)>(s: seq<K>, k: K): (r: seq<K>)
    ensures k !in r
    ensures forall x :: x in r <==> x in s && x != k
    ensures |r| <= |s|
  {
    if s == [] then []
    else if s[0] == k then Without(s[1..], k)
    else [s[0]] + Without(s[1..], k)
  }

  lemma {:induction false} WithoutDistinct<K(!new)>(s: seq<K>, k: K)
    requires Distinct(s)
    ensures Distinct(Without(s, k))
    ensures |Without(s, k)| == |s| - (if k in s then 1 else 0)
  {
    if s != [] {
      assert Distinct(s[1..]) by {
        forall i, j | 0 <= i < j < |s[1..]| ensures s[1..][i] != s[1..][j] { assert s[i + 1] != s[j + 1]; }
      }
      WithoutDistinct(s[1..], k);
      assert s[0] !in s[1..];
      assert s == [s[0]] + s[1..];
    }
  }

  /** Taking a key out leaves the others in their order. */
  lemma {:induction false} WithoutSplice<K(!new)>(a: seq<K>, k: K, b: seq<K>)
    requires k !in a && k !in b
    ensures Without(a + [k] + b, k) == a + b
    decreases a
  {
    if a == [] {
      assert ([k] + b)[1..] == b && [] + [k] + b == [k] + b;
      AbsentKey(b, k);
    } else {
      assert (a + [k] + b)[1..] == a[1..] + [k] + b;
      WithoutSplice(a[1..], k, b);
    }
  }

  /** A list of distinct keys is as long as the set of them. */
  lemma {:induction false} DistinctSize<K(!new)>(s: seq<K>, keys: set<K>)
    requires Distinct(s) && forall x :: x in keys <==> x in s
    ensures |keys| == |s|
  {
    if s == [] {
      assert keys == {};
    } else {
      var t, k := s[1..], s[0];
      assert Distinct(t) by {
        forall i, j | 0 <= i < j < |t| ensures t[i] != t[j] { assert s[i + 1] != s[j + 1]; }
      }
      assert k !in t;
      assert s == [k] + t;
      DistinctSize(t, keys - {k});
    }
  }

  /** The first n elements, or all if there are fewer. */
  function Front<K>(s: seq<K>, n: nat): (r: seq<K>)
    ensures r <= s && |r| == if |s| <= n then |s| else n
  {
    if |s| <= n then s else s[..n]
  }

  function KeepOnly<K(==), V>(m: map<K, V>, keys: seq<K>): (r: map<K, V>)
  {
    map k | k in keys && k in m :: m[k]
  }

  /** Some keys have been dropped from the back of `all`, and nothing else. */
  ghost predicate Kept<K(!new), V>(full: map<K, V>, all: seq<K>, items: map<K, V>, access: seq<K>)
  {
    && |access| <= |all| && access == all[..|access|] && Distinct(access)
    && (forall k :: k in items <==> k in access)
    && (forall k :: k in full <==> k in all)
    && items == KeepOnly(full, access)
  }

  lemma StartKept<K(!new), V>(full: map<K, V>, all: seq<K>)
    requires Distinct(all) && forall k :: k in full <==> k in all
    ensures Kept(full, all, full, all)
  {}

  lemma EvictBack<K(!new), V>(full: map<K, V>, all: seq<K>, items: map<K, V>, access: seq<K>)
    requires Kept(full, all, items, access) && |access| > 0
    ensures var n := |access| - 1;
            && Kept(full, all, items - {access[n]}, access[..n])
            && |items - {access[n]}| == n
  {
    var n := |access| - 1;
    var back, rest, items' := access[n], access[..n], items - {access[n]};
    assert access == rest + [back];
    assert back !in rest;
    assert rest == all[..n];
    DistinctSize(rest, items'.Keys);
  }

  class Cache<K(==, !new), V> {
    const size: nat
    /** Values by key, and the keys from the most to the least recently used. */
    var items: map<K, V>
    var access: seq<K>

    ghost predicate Valid()
      reads this
    {
      && Distinct(access) && (forall k :: k in items <==> k in access)
      && |access| <= size
    }

    constructor (size: nat)
      ensures Valid() && this.size == size && items == map[] && access == []
    {
      this.size := size;
      items, access := map[], [];
    }

    method Get(key: K) returns (val: Option<V>)
      requires Valid()
      modifies this`access
      ensures Valid() && items == old(items)
      ensures key in items ==> val == Some(items[key]) && access == [key] + Without(old(access), key)
      ensures key !in items ==> val == None && access == old(access)
    {
      if key !in items {
        return None;
      }
      MoveToFront(key);
      val := Some(items[key]);
    }

    method MoveToFront(key: K)
      requires Valid() && key in items
      modifies this`access
      ensures Valid() && access == [key] + Without(old(access), key)
    {
      WithoutDistinct(access, key);
      access := [key] + Without(access, key);
    }

    /** PushFront of a new key, then eviction from the back while there are too many. */
    method PushFront(key: K, val: V)
      requires Valid() && key !in items
      modifies this
      ensures Valid()
      ensures access == Front([key] + old(access), size)
      ensures items == KeepOnly(old(items)[key := val], access)
    {
      items := items[key := val];
      access := [key] + access;
      ghost var all, full := access, items;
      DistinctSize(access, items.Keys);
      StartKept(full, all);
      while |items| > size
        invariant Kept(full, all, items, access) && |items| == |access|
        invariant |access| >= |Front(all, size)|
      {
        ghost var items0, access0 := items, access;
        var back := access[|access| - 1];
        items := items - {back};
        access := access[..|access| - 1];
        EvictBack(full, all, items0, access0);
      }
    }

    method GetOrPut(key: K, val: V) returns (r: V, ok: bool)
      requires Valid()
      modifies this
      ensures Valid() && ok == (key in old(items))
      ensures ok ==> r == old(items)[key] && items == old(items) && access == [key] + Without(old(access), key)
      ensures !ok ==> r == val && access == Front([key] + old(access), size)
      ensures !ok ==> items == KeepOnly(old(items)[key := val], access)
    {
      ok := key in items;
      if ok {
        r := items[key];
        MoveToFront(key);
      } else {
        PushFront(key, val);
        r := val;
      }
    }

    method Put(key: K, val: V)
      requires Valid()
      modifies this
      ensures Valid()
      ensures key in old(items) ==> items == old(items)[key := val] && access == [key] + Without(old(access), key)
      ensures key !in old(items) ==>
                && access == Front([key] + old(access), size)
                && items == KeepOnly(old(items)[key := val], access)
    {
      if key in items {
        items := items[key := val];
        MoveToFront(key);
      } else {
        PushFront(key, val);
      }
    }

    method Remove(key: K)
      requires Valid()
      modifies this
      ensures Valid() && items == old(items) - {key} && access == Without(old(access), key)
    {
      WithoutDistinct(access, key);
      if key in items {
        items := items - {key};
        access := Without(access, key);
      } else {
        AbsentKey(access, key);
      }
    }
  }

  lemma {:induction false} AbsentKey<K(!new)>(s: seq<K>, k: K)
    requires k !in s
    ensures Without(s, k) == s
  {
    if s != [] { AbsentKey(s[1..], k); }
  }
}
