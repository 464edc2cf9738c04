/** The permissive signature parser (libsecp256k1/contrib/lax_der_parsing.c). */
module LaxDer {
  import opened Bytes
  import opened Secp256k1
  import opened Der

  /** Length octets as the permissive parser reads them: leading zero octets are skipped, and
      fewer than eight significant ones are accepted, whether or not they were needed. */
  function LaxLengthAt(input: seq<byte>, pos: nat): (r: Length)
    ensures r.Length? ==> pos < r.next && r.next + r.len <= |input|
  {
    if pos >= |input| then BadLength
    else
      var b := input[pos];
      if b < 0x80 then
        if pos + 1 + b > |input| then BadLength else Length(b, pos + 1)
      else
        var end := pos + 1 + (b - 0x80);
        if end > |input| || end - FirstNonZero(input, pos + 1, end) >= 8 then BadLength
        else
          var v := BE(input[pos + 1..end]);
          if v > |input| - end then BadLength else Length(v, end)
  }

  /** Where the zero octets of input[pos..end] stop. */
  function FirstNonZero(input: seq<byte>, pos: nat, end: nat): (r: nat)
    requires pos <= end <= |input|
    ensures pos <= r <= end && (r < end ==> input[r] != 0)
    ensures forall i :: pos <= i < r ==> input[i] == 0
    decreases end - pos
  {
    if pos < end && input[pos] == 0 then FirstNonZero(input, pos + 1, end) else pos
  }

  /** The octets an INTEGER at `pos` covers, read without any check on its form. */
  function LaxIntegerAt(input: seq<byte>, pos: nat): (r: Length)
    ensures r.Length? ==> pos < r.next && r.next + r.len <= |input|
  {
    if pos >= |input| || input[pos] != 0x02 then BadLength else LaxLengthAt(input, pos + 1)
  }

  /** The permissive parser: the outer length is skipped unread, trailing bytes are ignored, and
      a value past the order turns the whole signature into (0, 0). */
  function LaxParse(input: seq<byte>): (res: Signature)
    ensures res.Signature? ==> res.r < N && res.s < N
  {
    if |input| < 2 || input[0] != 0x30 then Malformed
    else
      var pos := if input[1] < 0x80 then 2 else 2 + (input[1] - 0x80);
      if pos > |input| then Malformed
      else
        var r := LaxIntegerAt(input, pos);
        if r.BadLength? then Malformed
        else
          var s := LaxIntegerAt(input, r.next + r.len);
          if s.BadLength? then Malformed
          else
            var (rv, sv) := (BE(input[r.next..r.next + r.len]), BE(input[s.next..s.next + s.len]));
            if rv >= N || sv >= N then Signature(0, 0) else Signature(rv, sv)
  }

  /** One INTEGER header: tag, then length octets with their own loops. */
  method ReadHeader(input: seq<byte>, start: nat) returns (ok: bool, pos: nat, len: nat)
    requires start <= |input|
    ensures match LaxIntegerAt(input, start)
            case BadLength => !ok
            case Length(n, e) => ok && pos == e && len == n
  {
    hide BE;
    ok, pos, len := false, start, 0;
    if pos == |input| || input[pos] != 0x02 {
      return;
    }
    pos := pos + 1;
    if pos == |input| {
      return;
    }
    var lenbyte := input[pos];
    pos := pos + 1;
    if lenbyte >= 0x80 {
      lenbyte := lenbyte - 0x80;
      if pos + lenbyte > |input| {
        return;
      }
      var short;
      short, pos, len := ReadLongLength(input, pos, lenbyte);
      if !short {
        return;
      }
    } else {
      len := lenbyte;
    }
    if len > |input| - pos {
      return;
    }
    ok := true;
  }

  /** Long-form octets: skip zeros, then read fewer than eight. */
  method ReadLongLength(input: seq<byte>, first: nat, count: nat) returns (ok: bool, pos: nat, len: nat)
    requires first + count <= |input|
    ensures ok <==> first + count - FirstNonZero(input, first, first + count) < 8
    ensures ok ==> pos == first + count && len == BE(input[first..first + count])
  {
    hide BE;
    ok, pos, len := false, first, 0;
    var lenbyte := count;
    ghost var end := first + count;
    while lenbyte > 0 && input[pos] == 0
      invariant 0 <= lenbyte && first <= pos && pos + lenbyte == end
      invariant FirstNonZero(input, first, end) == FirstNonZero(input, pos, end)
      invariant forall i :: first <= i < pos ==> input[i] == 0
    {
      pos := pos + 1;
      lenbyte := lenbyte - 1;
    }
    if lenbyte >= 8 {
      return;
    }
    SkipZeros(input, first, pos, end);
    ghost var sig := pos;
    BEEmpty(input, pos);
    while lenbyte > 0
      invariant 0 <= lenbyte && sig <= pos && pos + lenbyte == end
      invariant len == BE(input[sig..pos])
    {
      BEExtend(input, sig, pos);
      len := len * 256 + input[pos];
      pos := pos + 1;
      lenbyte := lenbyte - 1;
    }
    ok := true;
  }

  lemma SkipZeros(s: seq<byte>, i: nat, j: nat, k: nat)
    requires i <= j <= k <= |s| && forall n :: i <= n < j ==> s[n] == 0
    ensures BE(s[i..k]) == BE(s[j..k])
  {
    hide BE;
    BESkipZeros(s[i..k], j - i);
    assert s[i..k][j - i..] == s[j..k];
  }

  /** Skip leading zeros of one value and report whether it still fits 32 bytes. */
  method Trim(input: seq<byte>, pos: nat, len: nat) returns (p: nat, n: nat)
    requires pos + len <= |input|
    ensures p + n == pos + len && BE(input[p..p + n]) == BE(input[pos..pos + len])
    ensures n > 32 ==> BE(input[pos..pos + len]) >= N
  {
    hide BE;
    p, n := pos, len;
    while n > 0 && input[p] == 0
      invariant p + n == pos + len && pos <= p
      invariant forall i :: pos <= i < p ==> input[i] == 0
    {
      n := n - 1;
      p := p + 1;
    }
    Stripped(input, pos, len, p);
  }

  /** secp256k1_ecdsa_signature_parse_compact: two 32-byte numbers below the order. */
  function ParseCompact(tmp: seq<byte>): (r: (bool, nat, nat))
    requires |tmp| == 64
    ensures r.0 <==> BE(tmp[..32]) < N && BE(tmp[32..]) < N
    ensures r.0 ==> r.1 == BE(tmp[..32]) && r.2 == BE(tmp[32..])
  {
    var (a, b) := (BE(tmp[..32]), BE(tmp[32..]));
    if a < N && b < N then (true, a, b) else (false, 0, 0)
  }

  /** ecdsa_signature_parse_der_lax. */
  method SignatureParseDerLax(input: seq<byte>) returns (ok: bool, r: nat, s: nat)
    ensures match LaxParse(input)
            case Malformed => !ok
            case Signature(a, b) => ok && r == a && s == b
  {
    hide BE, LaxIntegerAt, ParseCompact;
    ok, r, s := false, 0, 0;
    if |input| == 0 || input[0] != 0x30 {
      return;
    }
    var pos := 1;
    if pos == |input| {
      return;
    }
    var lenbyte := input[pos];
    pos := pos + 1;
    if lenbyte >= 0x80 {
      lenbyte := lenbyte - 0x80;
      if pos + lenbyte > |input| {
        return;
      }
      pos := pos + lenbyte;
    }
    var good, rpos, rlen := ReadHeader(input, pos);
    if !good {
      return;
    }
    var spos, slen;
    good, spos, slen := ReadHeader(input, rpos + rlen);
    if !good {
      return;
    }
    r, s := ReadValues(input, rpos, rlen, spos, slen);
    ok := true;
  }

  /** Both values are copied into one 64-byte buffer; a value past the order clears it. */
  method ReadValues(input: seq<byte>, rpos0: nat, rlen0: nat, spos0: nat, slen0: nat) returns (r: nat, s: nat)
    requires rpos0 + rlen0 <= |input| && spos0 + slen0 <= |input|
    ensures var (rv, sv) := (BE(input[rpos0..rpos0 + rlen0]), BE(input[spos0..spos0 + slen0]));
            if rv >= N || sv >= N then r == 0 && s == 0 else r == rv && s == sv
  {
    hide BE, ParseCompact;
    r, s := 0, 0;
    var rpos, rlen := Trim(input, rpos0, rlen0);
    var spos, slen := Trim(input, spos0, slen0);
    if rlen > 32 || slen > 32 {
      return;
    }
    var tmpR := seq(32 - rlen, _ => 0) + input[rpos..rpos + rlen];
    Padded(tmpR, input[rpos..rpos + rlen]);
    var tmpS := seq(32 - slen, _ => 0) + input[spos..spos + slen];
    Padded(tmpS, input[spos..spos + slen]);
    var tmp := tmpR + tmpS;
    assert tmp[..32] == tmpR && tmp[32..] == tmpS;
    var compact := ParseCompact(tmp);
    if compact.0 {
      r, s := compact.1, compact.2;
    }
  }

  lemma ShortHeader(input: seq<byte>, pos: nat, c: seq<byte>)
    requires |c| < 128 && pos + 2 + |c| <= |input|
    requires input[pos] == 0x02 && input[pos + 1] == |c|
    ensures LaxIntegerAt(input, pos) == Length(|c|, pos + 2)
  {}

  /** The permissive parser reads every encoded pair of scalars. */
  lemma LaxParseEncode(r: nat, s: nat)
    requires r < N && s < N
    ensures |Content(r)| <= 33 && |Content(s)| <= 33 && LaxParse(Encode(r, s)) == Signature(r, s)
  {
    ContentOf(r);
    ContentOf(s);
    hide Content, ScalarOf, BE, Minimal, LaxIntegerAt, Frame;
    var cr, cs, sig := Content(r), Content(s), Encode(r, s);
    FrameParts(cr, cs);
    ShortHeader(sig, 2, cr);
    ShortHeader(sig, 4 + |cr|, cs);
  }

  /** Whatever the strict parser accepts with non-zero r and s the permissive one reads alike. */
  lemma LaxAgrees(sig: seq<byte>)
    requires Parse(sig).Signature? && Parse(sig).r != 0 && Parse(sig).s != 0
    ensures LaxParse(sig) == Parse(sig)
  {
    hide Parse, LaxParse, Encode, Content;
    EncodeParse(sig);
    LaxParseEncode(Parse(sig).r, Parse(sig).s);
  }
}
