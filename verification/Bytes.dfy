/** Big-endian byte strings. */
module Bytes {
  type byte = x: int | 0 <= x < 256

  function Pow256(k: nat): (r: nat)
    ensures r >= 1
  {
    if k == 0 then 1 else 256 * Pow256(k - 1)
  }

  lemma {:induction false} Pow256Mono(j: nat, k: nat)
    requires j <= k
    ensures Pow256(j) <= Pow256(k)
  {
    if j < k { Pow256Mono(j, k - 1); }
  }

  lemma {:induction false} Pow256Add(j: nat, k: nat)
    ensures Pow256(j + k) == Pow256(j) * Pow256(k)
  {
    if j > 0 {
      Pow256Add(j - 1, k);
      assert 256 * (Pow256(j - 1) * Pow256(k)) == (256 * Pow256(j - 1)) * Pow256(k);
    }
  }

  /** The number a big-endian byte string stands for. */
  function BE(s: seq<byte>): (r: nat)
    ensures r < Pow256(|s|)
  {
    if s == [] then 0 else BE(s[..|s| - 1]) * 256 + s[|s| - 1]
  }

  lemma BEEmpty(s: seq<byte>, i: nat)
    requires i <= |s|
    ensures BE(s[i..i]) == 0
  {}

  /** The last k bytes of v. */
  function ToBytes(v: nat, k: nat): (s: seq<byte>)
    ensures |s| == k
  {
    if k == 0 then [] else ToBytes(v / 256, k - 1) + [v % 256]
  }

  lemma {:induction false} BEToBytes(v: nat, k: nat)
    requires v < Pow256(k)
    ensures BE(ToBytes(v, k)) == v
  {
    if k > 0 {
      BEToBytes(v / 256, k - 1);
      assert ToBytes(v, k)[..k - 1] == ToBytes(v / 256, k - 1);
    }
  }

  lemma {:induction false} BEPrepend(b: byte, s: seq<byte>)
    ensures BE([b] + s) == b * Pow256(|s|) + BE(s)
  {
    var t := [b] + s;
    if s == [] {
      assert t[..0] == [];
    } else {
      var n := |s| - 1;
      BEPrepend(b, s[..n]);
      assert t[..|t| - 1] == [b] + s[..n];
      assert BE(t) == BE([b] + s[..n]) * 256 + s[n];
      ShiftOne(b, Pow256(n), BE(s[..n]), s[n]);
    }
  }

  lemma ShiftOne(b: int, p: int, low: int, x: int)
    ensures (b * p + low) * 256 + x == b * (256 * p) + (low * 256 + x)
  {
    assert b * (256 * p) == (b * p) * 256;
  }

  /** Splitting off the first byte. */
  lemma BEFirst(s: seq<byte>)
    requires |s| > 0
    ensures BE(s) == s[0] * Pow256(|s| - 1) + BE(s[1..])
  {
    hide BE, Pow256;
    assert s == [s[0]] + s[1..];
    BEPrepend(s[0], s[1..]);
  }

  /** Strings of equal length stand for different numbers unless they are equal. */
  lemma {:induction false} BEInjective(s: seq<byte>, t: seq<byte>)
    requires |s| == |t| && BE(s) == BE(t)
    ensures s == t
  {
    if |s| > 0 {
      var n := |s| - 1;
      BEInjective(s[..n], t[..n]);
      assert s == s[..n] + [s[n]] && t == t[..n] + [t[n]];
    }
  }

  /** Leading zero bytes weigh nothing. */
  lemma {:induction false} BESkipZeros(s: seq<byte>, k: nat)
    requires k <= |s| && forall i :: 0 <= i < k ==> s[i] == 0
    ensures BE(s) == BE(s[k..])
  {
    if k > 0 {
      BEFirst(s);
      BESkipZeros(s[1..], k - 1);
      assert s[1..][k - 1..] == s[k..];
    } else {
      assert s[0..] == s;
    }
  }

  /** Reading one more byte extends the number. */
  lemma BEExtend(s: seq<byte>, i: nat, j: nat)
    requires i <= j < |s|
    ensures BE(s[i..j + 1]) == BE(s[i..j]) * 256 + s[j]
  {
    assert s[i..j + 1][..j - i] == s[i..j];
  }
}
