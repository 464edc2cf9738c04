/** Byte-string keys in the order of bytes.Compare. */
module Keys {
  import opened Bytes

  type Key = seq<byte>

  predicate Less(a: Key, b: Key)
  {
    if b == [] then false
    else if a == [] then true
    else a[0] < b[0] || (a[0] == b[0] && Less(a[1..], b[1..]))
  }

  predicate AtMost(a: Key, b: Key)
  {
    a == b || Less(a, b)
  }

  /** a and b agree on their first n bytes, and there a ends or has the smaller byte. */
  ghost predicate DiffersAt(a: Key, b: Key, n: nat)
  {
    n <= |a| && n < |b| && a[..n] == b[..n] && (n == |a| || a[n] < b[n])
  }

  lemma SameFirst(a: Key, b: Key, n: nat)
    requires DiffersAt(a, b, n)
    ensures n > 0 ==> a != [] && b != [] && a[0] == b[0]
  {
    if n > 0 { assert a[..n][0] == b[..n][0]; }
  }

  /** The order is lexicographic. */
  lemma {:induction false} LessExactly(a: Key, b: Key)
    ensures Less(a, b) <==> exists n: nat :: DiffersAt(a, b, n)
  {
    if a != [] && b != [] && a[0] == b[0] {
      LessExactly(a[1..], b[1..]);
      if n: nat :| DiffersAt(a[1..], b[1..], n) {
        assert a[..n + 1] == [a[0]] + a[1..][..n] && b[..n + 1] == [b[0]] + b[1..][..n];
        assert DiffersAt(a, b, n + 1);
      }
      if n: nat :| DiffersAt(a, b, n) {
        assert n > 0 && a[1..][..n - 1] == a[..n][1..] && b[1..][..n - 1] == b[..n][1..];
        assert DiffersAt(a[1..], b[1..], n - 1);
      }
    } else {
      if b != [] && (a == [] || a[0] < b[0]) { assert DiffersAt(a, b, 0); }
      if n: nat :| DiffersAt(a, b, n) { SameFirst(a, b, n); }
    }
  }

  lemma {:induction false} LessTransitive(a: Key, b: Key, c: Key)
    requires Less(a, b) && Less(b, c)
    ensures Less(a, c)
  {
    if a != [] && a[0] == b[0] && b[0] == c[0] {
      LessTransitive(a[1..], b[1..], c[1..]);
    }
  }

  /** Exactly one of less, equal and greater holds. */
  lemma {:induction false} Trichotomy(a: Key, b: Key)
    ensures Less(a, b) || a == b || Less(b, a)
    ensures !(Less(a, b) && Less(b, a)) && !(Less(a, b) && a == b)
  {
    if a != [] && b != [] && a[0] == b[0] {
      Trichotomy(a[1..], b[1..]);
      assert a == [a[0]] + a[1..] && b == [b[0]] + b[1..];
    }
    if a == b && a != [] {
      Trichotomy(a[1..], b[1..]);
    }
  }

  /** Weak and strict comparisons chain to a strict one. */
  lemma LessAround(a: Key, b: Key, c: Key, d: Key)
    requires AtMost(a, b) && Less(b, c) && AtMost(c, d)
    ensures Less(a, d) && a != d
  {
    if Less(a, b) { LessTransitive(a, b, c); }
    if Less(c, d) { LessTransitive(a, c, d); }
    Trichotomy(a, d);
  }
}
