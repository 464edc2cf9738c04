/** DER signatures (libsecp256k1/src/ecdsa_impl.h), after sections 8.1.3 and 8.3 of ITU-T X.690. */
module Der {
  import opened Arithmetic
  import opened Bytes
  import opened Secp256k1

  /** The conversion of a size_t to a 32-bit int, in which the parser returns lengths. */
  function AsInt(v: nat): (r: int)
    ensures v < 0x8000_0000 ==> r == v
    ensures r <= v && -0x8000_0000 <= r < 0x8000_0000
  {
    if v % 0x1_0000_0000 < 0x8000_0000 then v % 0x1_0000_0000 else v % 0x1_0000_0000 - 0x1_0000_0000
  }

  datatype Length = BadLength | Length(len: nat, next: nat)

  /** The length octets at `pos`, and where they end: short form, or the shortest long form
      of at most eight octets whose value stays inside the string. */
  function LengthAt(sig: seq<byte>, pos: nat): (r: Length)
    ensures r.Length? ==> pos < r.next <= |sig|
  {
    if pos >= |sig| || sig[pos] == 0xFF || sig[pos] == 0x80 then BadLength
    else if sig[pos] < 0x80 then Length(sig[pos], pos + 1)
    else
      var n := sig[pos] - 0x80;
      var end := pos + 1 + n;
      if end > |sig| || sig[pos + 1] == 0 || n > 8 then BadLength
      else
        var v := BE(sig[pos + 1..end]);
        if v > |sig| - end || v < 128 || AsInt(v) < 0 then BadLength else Length(AsInt(v), end)
  }

  /** secp256k1_der_read_len; a negative result stands for a malformed length. */
  method DerReadLen(sig: seq<byte>, pos: nat) returns (len: int, next: nat)
    ensures match LengthAt(sig, pos)
            case BadLength => len < 0
            case Length(n, e) => len == n && next == e
  {
    next := pos;
    if pos >= |sig| {
      return -1, next;
    }
    var b1 := sig[next];
    next := next + 1;
    if b1 == 0xFF {
      return -1, next;
    }
    if b1 < 0x80 {
      return b1, next;
    }
    if b1 == 0x80 {
      return -1, next;
    }
    var lenleft := b1 - 0x80;
    if lenleft > |sig| - next {
      return -1, next;
    }
    if sig[next] == 0 {
      return -1, next;
    }
    if lenleft > 8 {
      return -1, next;
    }
    var ok, ret;
    ok, ret := ReadLong(sig, next, lenleft);
    next := next + lenleft;
    if !ok || ret < 128 {
      return -1, next;
    }
    return AsInt(ret), next;
  }

  /** The loop over the octets of a long length, which may not exceed what follows it. */
  method ReadLong(sig: seq<byte>, start: nat, count: nat) returns (ok: bool, ret: nat)
    requires count > 0 && start + count <= |sig|
    ensures ok <==> BE(sig[start..start + count]) <= |sig| - (start + count)
    ensures ok ==> ret == BE(sig[start..start + count])
  {
    hide BE;
    var lenleft, next := count, start;
    ret := 0;
    assert BE(sig[start..start]) == 0 by { BEEmpty(sig, start); }
    while lenleft > 0
      invariant 0 <= lenleft && start <= next && next + lenleft == start + count
      invariant ret == BE(sig[start..next])
      invariant next > start ==> ret <= |sig| - (start + count)
    {
      BEExtend(sig, start, next);
      ret := ret * 256 + sig[next];
      if ret + lenleft > |sig| - next {
        PrefixBelow(sig, start, next + 1, start + count);
        return false, ret;
      }
      next := next + 1;
      lenleft := lenleft - 1;
    }
    ok := true;
  }

  /** A number never drops below a prefix of it. */
  lemma {:induction false} PrefixBelow(s: seq<byte>, i: nat, j: nat, k: nat)
    requires i <= j <= k <= |s|
    ensures BE(s[i..j]) <= BE(s[i..k])
    decreases k
  {
    if j < k {
      PrefixBelow(s, i, j, k - 1);
      BEExtend(s, i, k - 1);
    }
  }

  datatype Integer = BadInteger | Integer(value: nat, next: nat)

  /** Content octets may not repeat the sign of the next octet. */
  predicate Minimal(c: seq<byte>)
  {
    && |c| > 0
    && !(c[0] == 0 && |c| > 1 && c[1] < 0x80)
    && !(c[0] == 0xFF && |c| > 1 && c[1] >= 0x80)
  }

  /** The scalar an integer is read as: negative and too large integers become 0. */
  function ScalarOf(c: seq<byte>): (r: nat)
    requires |c| > 0
    ensures r < N
  {
    if c[0] >= 0x80 || BE(c) >= N then 0 else BE(c)
  }

  /** An INTEGER at `pos`. */
  function IntegerAt(sig: seq<byte>, pos: nat): (r: Integer)
    ensures r.Integer? ==> pos < r.next <= |sig| && r.value < N
  {
    if pos >= |sig| || sig[pos] != 0x02 then BadInteger
    else
      match LengthAt(sig, pos + 1)
      case BadLength => BadInteger
      case Length(len, start) =>
        if len == 0 || start + len > |sig| then BadInteger
        else
          var c := sig[start..start + len];
          if !Minimal(c) then BadInteger else Integer(ScalarOf(c), start + len)
  }

  /** secp256k1_scalar_set_b32 on a padded buffer: the value and whether it reached the order. */
  function SetB32(ra: seq<byte>): (r: (nat, bool))
    requires |ra| == 32
    ensures r.1 <==> BE(ra) >= N
    ensures !r.1 ==> r.0 == BE(ra)
  {
    (BE(ra) % N, BE(ra) >= N)
  }

  /** secp256k1_der_parse_integer. */
  method DerParseInteger(sig: seq<byte>, pos: nat) returns (ok: bool, r: nat, next: nat)
    ensures match IntegerAt(sig, pos)
            case BadInteger => !ok
            case Integer(v, e) => ok && r == v && next == e
  {
    r, next := 0, pos;
    if pos >= |sig| || sig[pos] != 0x02 {
      return false, r, next;
    }
    next := next + 1;
    var rlen;
    rlen, next := DerReadLen(sig, next);
    if rlen <= 0 || next + rlen > |sig| {
      return false, r, next;
    }
    ghost var start, len := next, rlen;
    ghost var c := sig[start..start + len];
    if sig[next] == 0x00 && rlen > 1 && sig[next + 1] < 0x80 {
      return false, r, next;
    }
    if sig[next] == 0xFF && rlen > 1 && sig[next + 1] >= 0x80 {
      return false, r, next;
    }
    r, next := ReadScalar(sig, next, rlen);
    ok := true;
  }

  /** The tail of secp256k1_der_parse_integer: skip leading zeros, then read at most 32 bytes. */
  method ReadScalar(sig: seq<byte>, start: nat, len: nat) returns (r: nat, next: nat)
    requires len > 0 && start + len <= |sig|
    ensures r == ScalarOf(sig[start..start + len]) && next == start + len
  {
    hide BE, ScalarOf, SetB32;
    r, next := 0, start;
    var rlen := len;
    ghost var c := sig[start..start + len];
    var overflow := sig[next] >= 0x80;
    while rlen > 0 && sig[next] == 0
      invariant 0 <= rlen && start <= next && next + rlen == start + len
      invariant forall i :: start <= i < next ==> sig[i] == 0
    {
      rlen := rlen - 1;
      next := next + 1;
    }
    ghost var rest := sig[next..next + rlen];
    Stripped(sig, start, len, next);
    if rlen > 32 {
      overflow := true;
    }
    if !overflow {
      var ra := seq(32 - rlen, _ => 0) + sig[next..next + rlen];
      Padded(ra, rest);
      var v := SetB32(ra);
      r, overflow := v.0, v.1;
    }
    if overflow {
      r := 0;
    }
    next := next + rlen;
    ScalarCases(c);
  }

  /** Skipping leading zeros keeps the value; more than 32 bytes left is past the order. */
  lemma Stripped(sig: seq<byte>, start: nat, len: nat, next: nat)
    requires start <= next <= start + len <= |sig| && forall i :: start <= i < next ==> sig[i] == 0
    requires next < start + len ==> sig[next] != 0
    ensures BE(sig[start..start + len]) == BE(sig[next..start + len])
    ensures start + len - next > 32 ==> BE(sig[start..start + len]) >= N
  {
    hide BE;
    var c := sig[start..start + len];
    BESkipZeros(c, next - start);
    assert c[next - start..] == sig[next..start + len];
    if start + len - next > 32 {
      TooLong(sig[next..start + len], 32);
    }
  }

  lemma Padded(ra: seq<byte>, rest: seq<byte>)
    requires |rest| <= 32 && ra == seq(32 - |rest|, _ => 0) + rest
    ensures BE(ra) == BE(rest)
  {
    hide BE;
    BESkipZeros(ra, 32 - |rest|);
    assert ra[32 - |rest|..] == rest;
  }

  lemma ScalarCases(c: seq<byte>)
    requires |c| > 0
    ensures c[0] >= 0x80 || BE(c) >= N ==> ScalarOf(c) == 0
    ensures c[0] < 0x80 && BE(c) < N ==> ScalarOf(c) == BE(c)
  {}

  /** More than 32 significant bytes exceed the order. */
  lemma TooLong(s: seq<byte>, k: nat)
    requires |s| > k == 32 && s[0] != 0
    ensures BE(s) >= N
  {
    BEFirst(s);
    Pow256Mono(k, |s| - 1);
    Pow256At32(k);
    AtLeastOnce(s[0], Pow256(|s| - 1));
  }

  lemma AtLeastOnce(b: int, p: int)
    requires b >= 1 && p >= 0
    ensures b * p >= p
  {}

  lemma Pow256At32(k: nat)
    requires k == 32
    ensures Pow256(k) == 0x1_0000_0000_0000_0000_0000_0000_0000_0000_0000_0000_0000_0000_0000_0000_0000_0000
  {
    Pow256Double(2, 0x1_0000);
    Pow256Double(4, 0x1_0000_0000);
    Pow256Double(8, 0x1_0000_0000_0000_0000);
    Pow256Double(k / 2, 0x1_0000_0000_0000_0000_0000_0000_0000_0000);
  }

  lemma Pow256Double(k: nat, v: int)
    requires Pow256(k) == v
    ensures Pow256(2 * k) == v * v
  {
    Pow256Add(k, k);
  }

  datatype Signature = Malformed | Signature(r: nat, s: nat)

  /** A SEQUENCE of two INTEGERs filling the string exactly. */
  function Parse(sig: seq<byte>): (res: Signature)
    ensures res.Signature? ==> res.r < N && res.s < N
  {
    if |sig| == 0 || sig[0] != 0x30 then Malformed
    else
      match LengthAt(sig, 1)
      case BadLength => Malformed
      case Length(len, start) =>
        if start + len != |sig| then Malformed
        else
          match IntegerAt(sig, start)
          case BadInteger => Malformed
          case Integer(r, p) =>
            match IntegerAt(sig, p)
            case BadInteger => Malformed
            case Integer(s, q) => if q != |sig| then Malformed else Signature(r, s)
  }

  /** secp256k1_ecdsa_sig_parse. */
  method SigParse(sig: seq<byte>) returns (ok: bool, rr: nat, rs: nat)
    ensures match Parse(sig)
            case Malformed => !ok
            case Signature(r, s) => ok && rr == r && rs == s
  {
    ok, rr, rs := false, 0, 0;
    if |sig| == 0 || sig[0] != 0x30 {
      return;
    }
    var rlen, pos := DerReadLen(sig, 1);
    if rlen < 0 || pos + rlen > |sig| {
      return;
    }
    if pos + rlen != |sig| {
      return;
    }
    var good;
    good, rr, pos := DerParseInteger(sig, pos);
    if !good {
      return;
    }
    good, rs, pos := DerParseInteger(sig, pos);
    if !good {
      return;
    }
    if pos != |sig| {
      return;
    }
    ok := true;
  }

  /** Drop leading zero octets as long as the number stays positive. */
  function Strip(c: seq<byte>): (r: seq<byte>)
    requires |c| > 0
    ensures |r| > 0
  {
    if |c| > 1 && c[0] == 0 && c[1] < 0x80 then Strip(c[1..]) else c
  }

  /** The content octets of a scalar. */
  function Content(v: nat): (c: seq<byte>)
  {
    Strip([0] + ToBytes(v, 32))
  }

  /** An INTEGER with a short length. */
  function Tlv(c: seq<byte>): (r: seq<byte>)
    requires |c| <= 33
  {
    [0x02, |c|] + c
  }

  /** A SEQUENCE of two such INTEGERs. */
  function Frame(cr: seq<byte>, cs: seq<byte>): (sig: seq<byte>)
    requires |cr| <= 33 && |cs| <= 33
  {
    [0x30, 4 + |cr| + |cs|] + Tlv(cr) + Tlv(cs)
  }

  /** A signature as X.690 writes it: tags, short lengths, minimal contents. */
  function Encode(r: nat, s: nat): (sig: seq<byte>)
    requires |Content(r)| <= 33 && |Content(s)| <= 33
  {
    Frame(Content(r), Content(s))
  }

  lemma FrameParts(cr: seq<byte>, cs: seq<byte>)
    requires |cr| <= 33 && |cs| <= 33
    ensures var (sig, p) := (Frame(cr, cs), 4 + |cr|);
            && |sig| == p + 2 + |cs| && sig[0] == 0x30 && sig[1] == |sig| - 2
            && sig[2] == 0x02 && sig[3] == |cr| && sig[4..4 + |cr|] == cr
            && sig[p] == 0x02 && sig[p + 1] == |cs| && sig[p + 2..p + 2 + |cs|] == cs
  {}

  lemma FrameFrom(sig: seq<byte>, cr: seq<byte>, cs: seq<byte>)
    requires |cr| <= 33 && |cs| <= 33 && |sig| == 6 + |cr| + |cs|
    requires sig[0] == 0x30 && sig[1] == |sig| - 2
    requires sig[2..4 + |cr|] == Tlv(cr) && sig[4 + |cr|..] == Tlv(cs)
    ensures sig == Frame(cr, cs)
  {
    assert sig == [sig[0], sig[1]] + sig[2..4 + |cr|] + sig[4 + |cr|..];
  }

  lemma {:induction false} StripKeeps(c: seq<byte>)
    requires |c| > 0 && c[0] < 0x80
    ensures var r := Strip(c);
            && |r| <= |c| && r[0] < 0x80 && BE(r) == BE(c)
            && !(|r| > 1 && r[0] == 0 && r[1] < 0x80)
  {
    if |c| > 1 && c[0] == 0 && c[1] < 0x80 {
      StripKeeps(c[1..]);
      BESkipZeros(c, 1);
    }
  }

  /** A scalar's content octets stand for it, minimally and without a sign bit. */
  lemma ContentOf(v: nat)
    requires v < N
    ensures var c := Content(v);
            1 <= |c| <= 33 && c[0] < 0x80 && BE(c) == v && Minimal(c) && ScalarOf(c) == v
  {
    hide Strip, BE, ToBytes;
    var b := [0] + ToBytes(v, 32);
    FitsIn32(v, 32);
    BESkipZeros(b, 1);
    assert b[1..] == ToBytes(v, 32);
    StripKeeps(b);
  }

  lemma FitsIn32(v: nat, k: nat)
    requires v < N && k == 32
    ensures BE(ToBytes(v, k)) == v
  {
    Pow256At32(k);
    BEToBytes(v, k);
  }

  /** A minimal positive string of more than one octet lies between 128*256^(n-2) and 128*256^(n-1). */
  lemma MinimalRange(c: seq<byte>)
    requires Minimal(c) && c[0] < 0x80
    ensures BE(c) < 128 * Pow256(|c| - 1)
    ensures |c| > 1 ==> BE(c) >= 128 * Pow256(|c| - 2)
  {
    var n := |c|;
    BEFirst(c);
    Below(c[0], 128, Pow256(n - 1));
    if n > 1 {
      assert Pow256(n - 1) == 256 * Pow256(n - 2);
      if c[0] == 0 {
        BEFirst(c[1..]);
        MulMono(128, c[1], Pow256(n - 2));
      } else {
        MulMono(1, c[0], Pow256(n - 1));
      }
    }
  }

  lemma Below(a: int, b: int, p: int)
    requires a < b && p > 0
    ensures a * p + p <= b * p
  {
    AtLeastOnce(b - a, p);
    assert (b - a) * p == b * p - a * p;
  }

  /** There is only one minimal positive string for a number. */
  lemma MinimalUnique(c: seq<byte>, d: seq<byte>)
    requires Minimal(c) && c[0] < 0x80 && Minimal(d) && d[0] < 0x80 && BE(c) == BE(d)
    ensures c == d
  {
    if |c| < |d| {
      LongerIsLarger(c, d);
      assert false;
    }
    if |d| < |c| {
      LongerIsLarger(d, c);
      assert false;
    }
    BEInjective(c, d);
  }

  lemma LongerIsLarger(c: seq<byte>, d: seq<byte>)
    requires Minimal(c) && c[0] < 0x80 && Minimal(d) && d[0] < 0x80 && |c| < |d|
    ensures BE(c) < BE(d)
  {
    MinimalRange(c);
    MinimalRange(d);
    Pow256Mono(|c| - 1, |d| - 2);
  }

  /** A short-form INTEGER placed anywhere in a string is read back. */
  lemma IntegerPlaced(sig: seq<byte>, pos: nat, c: seq<byte>)
    requires 1 <= |c| < 128 && Minimal(c) && pos + 2 + |c| <= |sig|
    requires sig[pos] == 0x02 && sig[pos + 1] == |c| && sig[pos + 2..pos + 2 + |c|] == c
    ensures IntegerAt(sig, pos) == Integer(ScalarOf(c), pos + 2 + |c|)
  {}

  /** Parsing what was encoded gives back every pair of scalars. */
  lemma ParseEncode(r: nat, s: nat)
    requires r < N && s < N
    ensures |Content(r)| <= 33 && |Content(s)| <= 33 && Parse(Encode(r, s)) == Signature(r, s)
  {
    ContentOf(r);
    ContentOf(s);
    hide Content, ScalarOf, BE, Minimal, IntegerAt, Frame;
    var cr, cs, sig := Content(r), Content(s), Encode(r, s);
    FrameParts(cr, cs);
    IntegerPlaced(sig, 2, cr);
    IntegerPlaced(sig, 4 + |cr|, cs);
    ParseTwo(sig, r, s, 4 + |cr|);
  }

  /** A short SEQUENCE of two readable INTEGERs is accepted. */
  lemma ParseTwo(sig: seq<byte>, r: nat, s: nat, p: nat)
    requires 2 <= |sig| < 130 && sig[0] == 0x30 && sig[1] == |sig| - 2
    requires IntegerAt(sig, 2) == Integer(r, p) && IntegerAt(sig, p) == Integer(s, |sig|)
    ensures Parse(sig) == Signature(r, s)
  {
    hide IntegerAt;
  }

  /** In a string of fewer than 2^31 bytes a length below 128 is written in short form. */
  lemma ShortLength(sig: seq<byte>, pos: nat)
    requires LengthAt(sig, pos).Length? && |sig| - pos <= 0x8000_0000
    ensures LengthAt(sig, pos).len < 128 ==> LengthAt(sig, pos).next == pos + 1 && sig[pos] == LengthAt(sig, pos).len
  {
    hide BE;
  }

  /** An INTEGER read as a non-zero scalar has a short length and the scalar's own content. */
  lemma NonZeroInteger(sig: seq<byte>, pos: nat)
    requires IntegerAt(sig, pos).Integer? && IntegerAt(sig, pos).value != 0 && |sig| - pos < 0x8000_0000
    ensures var v := IntegerAt(sig, pos).value;
            var c := Content(v);
            && |c| <= 33 && IntegerAt(sig, pos).next == pos + 2 + |c| && pos + 2 + |c| <= |sig|
            && sig[pos..pos + 2 + |c|] == Tlv(c)
  {
    var len, start := LengthAt(sig, pos + 1).len, LengthAt(sig, pos + 1).next;
    var c, v := sig[start..start + len], IntegerAt(sig, pos).value;
    assert Minimal(c) && c[0] < 0x80 && BE(c) == v < N;
    assert LengthAt(sig, pos + 1) == Length(len, start) && 0 < len && start + len <= |sig| && sig[pos] == 0x02;
    ShortLength(sig, pos + 1);
    hide BE, Content, ScalarOf, IntegerAt, LengthAt;
    ContentOf(v);
    MinimalUnique(c, Content(v));
    assert sig[pos..pos + 2 + len] == [0x02, len] + c;
  }

  /** The encoding is canonical: bytes accepted with non-zero r and s are the ones encoding writes. */
  lemma EncodeParse(sig: seq<byte>)
    requires Parse(sig).Signature? && Parse(sig).r != 0 && Parse(sig).s != 0
    ensures var (r, s) := (Parse(sig).r, Parse(sig).s);
            |Content(r)| <= 33 && |Content(s)| <= 33 && sig == Encode(r, s)
  {
    hide Content, IntegerAt, LengthAt, Parse, Tlv, Frame;
    ParsedParts(sig);
    var start := LengthAt(sig, 1).next;
    var r, s, p := Parse(sig).r, Parse(sig).s, IntegerAt(sig, start).next;
    NonZeroInteger(sig, start);
    NonZeroInteger(sig, p);
    ShortSequence(sig);
    FrameFrom(sig, Content(r), Content(s));
  }

  lemma ParsedParts(sig: seq<byte>)
    requires Parse(sig).Signature?
    ensures LengthAt(sig, 1).Length? && |sig| - LengthAt(sig, 1).next < 0x8000_0000
    ensures var first := IntegerAt(sig, LengthAt(sig, 1).next);
            && first.Integer? && first.value == Parse(sig).r
            && IntegerAt(sig, first.next) == Integer(Parse(sig).s, |sig|)
  {
    hide IntegerAt;
  }

  /** A length below 128 is written in short form. */
  lemma ShortSequence(sig: seq<byte>)
    requires Parse(sig).Signature? && |sig| - LengthAt(sig, 1).next < 128
    ensures sig[0] == 0x30 && LengthAt(sig, 1).next == 2 && sig[1] == |sig| - 2
  {
    SmallLength(sig, 1);
    ShortLength(sig, 1);
    hide BE, IntegerAt, LengthAt;
  }

  lemma SmallLength(sig: seq<byte>, pos: nat)
    requires LengthAt(sig, pos).Length?
    ensures LengthAt(sig, pos).next <= pos + 9
  {
    hide BE;
  }

  /** secp256k1_ecdsa_sig_serialize: the size needed is always reported, the bytes only if they fit. */
  method SigSerialize(r: nat, s: nat, size: nat) returns (ok: bool, sig: seq<byte>, needed: nat)
    requires r < N && s < N
    ensures |Content(r)| <= 33 && |Content(s)| <= 33
    ensures needed == |Encode(r, s)| && (ok <==> needed <= size)
    ensures sig == if ok then Encode(r, s) else []
  {
    hide BE, Minimal, Strip;
    ContentOf(r);
    ContentOf(s);
    var rp := StripLoop([0] + ToBytes(r, 32));
    var sp := StripLoop([0] + ToBytes(s, 32));
    needed := 6 + |sp| + |rp|;
    if size < needed {
      return false, [], needed;
    }
    sig := [0x30, 4 + |sp| + |rp|, 0x02, |rp|];
    sig := sig + rp;
    sig := sig + [0x02, |sp|];
    sig := sig + sp;
    ok := true;
    assert sig == Frame(rp, sp);
  }

  method StripLoop(b: seq<byte>) returns (p: seq<byte>)
    requires |b| > 0
    ensures p == Strip(b)
  {
    var i := 0;
    while |b| - i > 1 && b[i] == 0 && b[i + 1] < 0x80
      invariant 0 <= i < |b|
      invariant Strip(b[i..]) == Strip(b)
    {
      assert b[i..][1..] == b[i + 1..];
      i := i + 1;
    }
    p := b[i..];
  }
}
