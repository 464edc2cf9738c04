/** What the two signature parsers accept, as grammars: the parts a string is made of, after sections 8.1.3 and 8.3
    of ITU-T X.690. */
module DerGrammar {
  import opened Bytes
  import opened Secp256k1
  import opened Der
  import opened LaxDer

  /** The string has this piece at this place. */
  ghost predicate At(sig: seq<byte>, pos: nat, piece: seq<byte>)
  {
    pos + |piece| <= |sig| && sig[pos..pos + |piece|] == piece
  }

  /** The length octets of n: one octet below 128, or else the number of octets that follow, with 128 added, and n in as
      few octets as possible. */
  ghost predicate IsLength(os: seq<byte>, n: nat)
  {
    || (|os| == 1 && os[0] == n < 0x80)
    || (|os| > 1 && os[0] == 0x80 + |os| - 1 && os[1] != 0 && BE(os[1..]) == n >= 0x80)
  }

  /** A tag, length octets and that many content octets. */
  ghost predicate Tagged(sig: seq<byte>, pos: nat, tag: byte, l: seq<byte>, c: seq<byte>)
  {
    pos < |sig| && sig[pos] == tag && At(sig, pos + 1, l) && At(sig, pos + 1 + |l|, c)
  }

  /** A SEQUENCE whose content is two INTEGERs, the contents `cr` and `cs`, and nothing else. */
  ghost predicate Composed(sig: seq<byte>, l: seq<byte>, lr: seq<byte>, cr: seq<byte>, ls: seq<byte>, cs: seq<byte>)
  {
    var p := 1 + |l|;
    var q := p + 1 + |lr| + |cr|;
    && |sig| == q + 1 + |ls| + |cs| && sig[0] == 0x30 && At(sig, 1, l) && IsLength(l, |sig| - p)
    && Tagged(sig, p, 0x02, lr, cr) && IsLength(lr, |cr|) && Minimal(cr)
    && Tagged(sig, q, 0x02, ls, cs) && IsLength(ls, |cs|) && Minimal(cs)
  }

  /** The number that content octets stand for in two's complement. */
  ghost function Value(c: seq<byte>): int
    requires |c| > 0
  {
    var n: int := BE(c);
    if c[0] < 0x80 then n else n - Pow256(|c|)
  }

  /** The scalar read: the number itself if it is one, or else zero. */
  ghost function Reading(c: seq<byte>): int
    requires |c| > 0
  {
    if 0 <= Value(c) < N then Value(c) else 0
  }

  lemma ReadingIs(c: seq<byte>)
    requires |c| > 0
    ensures ScalarOf(c) == Reading(c)
  {}

  /** A number whose first octet is not zero needs all its octets. */
  lemma FirstCounts(s: seq<byte>)
    requires |s| > 0 && s[0] != 0
    ensures BE(s) >= Pow256(|s| - 1)
  {
    hide BE, Pow256;
    BEFirst(s);
    AtLeastOnce(s[0], Pow256(|s| - 1));
  }

  /** Lengths below 2^31 take at most four octets beyond the first. */
  lemma FewOctets(os: seq<byte>, n: nat)
    requires IsLength(os, n) && n < 0x8000_0000
    ensures |os| <= 5
  {
    assert Pow256(4) == 0x1_0000_0000 by { assert Pow256(2) == 0x1_0000; }
    if |os| > 5 {
      FirstCounts(os[1..]);
      Pow256Mono(4, |os| - 2);
    }
  }

  lemma LengthRead(sig: seq<byte>, pos: nat, os: seq<byte>, n: nat)
    requires At(sig, pos, os) && IsLength(os, n) && n < 0x8000_0000 && n <= |sig| - (pos + |os|)
    ensures LengthAt(sig, pos) == Length(n, pos + |os|)
  {
    hide BE;
    FewOctets(os, n);
    assert sig[pos] == os[0];
    if |os| > 1 {
      assert sig[pos + 1] == os[1] && sig[pos + 1..pos + |os|] == os[1..];
    }
  }

  /** Length octets read without truncation are those of the number read. */
  lemma LengthFrom(sig: seq<byte>, pos: nat) returns (os: seq<byte>, n: nat)
    requires LengthAt(sig, pos).Length?
    ensures At(sig, pos, os) && IsLength(os, n) && LengthAt(sig, pos).next == pos + |os|
    ensures LengthAt(sig, pos).len <= n && (n < 0x8000_0000 ==> LengthAt(sig, pos).len == n)
    ensures LengthAt(sig, pos).len < 0x8000_0000 && (|os| > 1 ==> n <= |sig| - (pos + |os|))
  {
    hide BE;
    var end := LengthAt(sig, pos).next;
    os := sig[pos..end];
    assert os[0] == sig[pos];
    if sig[pos] < 0x80 {
      n := sig[pos];
    } else {
      n := BE(sig[pos + 1..end]);
      assert os[1] == sig[pos + 1] && os[1..] == sig[pos + 1..end];
    }
  }

  lemma IntegerRead(sig: seq<byte>, pos: nat, l: seq<byte>, c: seq<byte>)
    requires Tagged(sig, pos, 0x02, l, c) && IsLength(l, |c|) && Minimal(c) && |c| < 0x8000_0000
    ensures IntegerAt(sig, pos) == Integer(ScalarOf(c), pos + 1 + |l| + |c|)
  {
    hide BE, IsLength, LengthAt, ScalarOf;
    LengthRead(sig, pos + 1, l, |c|);
  }

  lemma IntegerFrom(sig: seq<byte>, pos: nat) returns (l: seq<byte>, c: seq<byte>)
    requires IntegerAt(sig, pos).Integer? && |sig| - pos < 0x8000_0000
    ensures Tagged(sig, pos, 0x02, l, c) && IsLength(l, |c|) && Minimal(c)
    ensures IntegerAt(sig, pos) == Integer(ScalarOf(c), pos + 1 + |l| + |c|)
  {
    hide BE, IsLength, LengthAt, ScalarOf;
    var n;
    l, n := LengthFrom(sig, pos + 1);
    var len, start := LengthAt(sig, pos + 1).len, LengthAt(sig, pos + 1).next;
    ShortOrNot(l, n);
    c := sig[start..start + len];
  }

  lemma ShortOrNot(os: seq<byte>, n: nat)
    requires IsLength(os, n)
    ensures |os| >= 1 && (|os| == 1 ==> n < 0x80)
  {
    hide BE;
  }

  /** Everything that is composed in this way is accepted with the numbers it holds, r before s, if its content is
      shorter than 2^31 bytes: lengths are kept in an int. */
  lemma ComposedAccepted(sig: seq<byte>, l: seq<byte>, lr: seq<byte>, cr: seq<byte>, ls: seq<byte>, cs: seq<byte>)
    requires Composed(sig, l, lr, cr, ls, cs) && |sig| - 1 - |l| < 0x8000_0000
    ensures Parse(sig) == Signature(Reading(cr), Reading(cs))
  {
    hide BE, IsLength, IntegerAt, LengthAt, ScalarOf, Reading, Minimal;
    var p := 1 + |l|;
    LengthRead(sig, 1, l, |sig| - p);
    IntegerRead(sig, p, lr, cr);
    IntegerRead(sig, p + 1 + |lr| + |cr|, ls, cs);
    NotEmpty(cr);
    NotEmpty(cs);
    ReadingIs(cr);
    ReadingIs(cs);
  }

  lemma NotEmpty(c: seq<byte>)
    requires Minimal(c)
    ensures |c| > 0
  {}

  lemma OuterParts(sig: seq<byte>)
    requires Parse(sig).Signature?
    ensures |sig| > 0 && sig[0] == 0x30 && LengthAt(sig, 1).Length?
    ensures LengthAt(sig, 1).next + LengthAt(sig, 1).len == |sig|
  {
    hide IntegerAt, LengthAt;
  }

  /** Whatever is accepted is composed in this way. */
  lemma AcceptedComposed(sig: seq<byte>)
    returns (l: seq<byte>, lr: seq<byte>, cr: seq<byte>, ls: seq<byte>, cs: seq<byte>)
    requires Parse(sig).Signature?
    ensures Composed(sig, l, lr, cr, ls, cs) && |sig| - 1 - |l| < 0x8000_0000
    ensures |cr| > 0 && |cs| > 0 && Parse(sig) == Signature(Reading(cr), Reading(cs))
  {
    hide BE, IsLength, IntegerAt, LengthAt, ScalarOf, Reading, Minimal, Parse, Tagged, At;
    OuterParts(sig);
    ParsedParts(sig);
    var n;
    l, n := LengthFrom(sig, 1);
    ShortOrNot(l, n);
    var p := 1 + |l|;
    lr, cr := IntegerFrom(sig, p);
    var q := p + 1 + |lr| + |cr|;
    ls, cs := IntegerFrom(sig, q);
    assert n == |sig| - p;
    NotEmpty(cr);
    NotEmpty(cs);
    ReadingIs(cr);
    ReadingIs(cs);
  }

  // ---- the permissive parser ----

  /** Length octets as the permissive parser takes them: in any number of octets, below 2^56. */
  ghost predicate IsLaxLength(os: seq<byte>, n: nat)
  {
    || (|os| == 1 && os[0] == n < 0x80)
    || (|os| > 0 && os[0] == 0x80 + |os| - 1 && BE(os[1..]) == n < Pow256(7))
  }

  /** An outer length, not looked at; two INTEGERs of any form; and anything after them. */
  ghost predicate LaxComposed(input: seq<byte>, l: seq<byte>, lr: seq<byte>, cr: seq<byte>, ls: seq<byte>, cs: seq<byte>)
  {
    var p := 1 + |l|;
    var q := p + 1 + |lr| + |cr|;
    && |l| > 0 && (if l[0] < 0x80 then |l| == 1 else |l| - 1 == l[0] - 0x80)
    && |input| > 0 && input[0] == 0x30 && At(input, 1, l)
    && Tagged(input, p, 0x02, lr, cr) && IsLaxLength(lr, |cr|)
    && Tagged(input, q, 0x02, ls, cs) && IsLaxLength(ls, |cs|)
  }

  /** Fewer than eight octets from the first that is not zero is a number below 2^56. */
  lemma SignificantOctets(s: seq<byte>, i: nat, j: nat)
    requires i <= j <= |s|
    ensures j - FirstNonZero(s, i, j) < 8 <==> BE(s[i..j]) < Pow256(7)
  {
    hide BE, Pow256, FirstNonZero;
    var z := FirstNonZero(s, i, j);
    SkipZeros(s, i, z, j);
    if j - z >= 8 {
      FirstCounts(s[z..j]);
      Pow256Mono(7, j - z - 1);
    } else {
      Pow256Mono(j - z, 7);
    }
  }

  lemma LaxLengthRead(input: seq<byte>, pos: nat, os: seq<byte>, n: nat)
    requires At(input, pos, os) && IsLaxLength(os, n) && n <= |input| - (pos + |os|)
    ensures LaxLengthAt(input, pos) == Length(n, pos + |os|)
  {
    hide BE, Pow256;
    assert input[pos] == os[0];
    if os[0] >= 0x80 {
      assert input[pos + 1..pos + |os|] == os[1..];
      SignificantOctets(input, pos + 1, pos + |os|);
    }
  }

  lemma LaxLengthFrom(input: seq<byte>, pos: nat) returns (os: seq<byte>)
    requires LaxLengthAt(input, pos).Length?
    ensures At(input, pos, os) && IsLaxLength(os, LaxLengthAt(input, pos).len) && LaxLengthAt(input, pos).next == pos + |os|
  {
    hide BE, Pow256;
    var end := LaxLengthAt(input, pos).next;
    os := input[pos..end];
    assert os[0] == input[pos] && os[1..] == input[pos + 1..end];
    SignificantOctets(input, pos + 1, end);
  }

  lemma LaxIntegerFrom(input: seq<byte>, pos: nat) returns (l: seq<byte>, c: seq<byte>)
    requires LaxIntegerAt(input, pos).Length?
    ensures Tagged(input, pos, 0x02, l, c) && IsLaxLength(l, |c|)
    ensures LaxIntegerAt(input, pos) == Length(|c|, pos + 1 + |l|)
  {
    hide IsLaxLength, LaxLengthAt;
    l := LaxLengthFrom(input, pos + 1);
    var r := LaxLengthAt(input, pos + 1);
    c := input[r.next..r.next + r.len];
  }

  /** The pair read: both numbers if both are scalars, or else zeros. */
  ghost function LaxReading(cr: seq<byte>, cs: seq<byte>): (nat, nat)
  {
    if BE(cr) < N && BE(cs) < N then (BE(cr), BE(cs)) else (0, 0)
  }

  /** Everything that is composed in this way is accepted, r before s. */
  lemma LaxComposedAccepted(input: seq<byte>, l: seq<byte>, lr: seq<byte>, cr: seq<byte>, ls: seq<byte>, cs: seq<byte>)
    requires LaxComposed(input, l, lr, cr, ls, cs)
    ensures LaxParse(input) == Signature(LaxReading(cr, cs).0, LaxReading(cr, cs).1)
  {
    hide BE, IsLaxLength, LaxLengthAt;
    var p := 1 + |l|;
    assert input[1] == l[0];
    LaxLengthRead(input, p + 1, lr, |cr|);
    LaxLengthRead(input, p + 1 + |lr| + |cr| + 1, ls, |cs|);
  }

  /** Whatever is accepted is composed in this way. */
  lemma LaxAcceptedComposed(input: seq<byte>)
    returns (l: seq<byte>, lr: seq<byte>, cr: seq<byte>, ls: seq<byte>, cs: seq<byte>)
    requires LaxParse(input).Signature?
    ensures LaxComposed(input, l, lr, cr, ls, cs)
    ensures LaxParse(input) == Signature(LaxReading(cr, cs).0, LaxReading(cr, cs).1)
  {
    hide BE, IsLaxLength, LaxIntegerAt;
    var p := if input[1] < 0x80 then 2 else 2 + (input[1] - 0x80);
    l := input[1..p];
    assert l[0] == input[1];
    lr, cr := LaxIntegerFrom(input, p);
    ls, cs := LaxIntegerFrom(input, p + 1 + |lr| + |cr|);
    LaxComposedAccepted(input, l, lr, cr, ls, cs);
  }
}
