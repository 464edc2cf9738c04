/** Width-w non-adjacent form recoding of a 256-bit scalar (libsecp256k1/src/ecmult_impl.h). */
module Wnaf {
  import opened Arithmetic
  import opened Digits
  import opened Scalars
  import opened Secp256k1

  /** Digits are zero or odd and below 2^(w-1) in size, non-zero digits are w apart,
      and `bits` is one past the last non-zero digit. */
  ghost predicate IsWnaf(d: seq<int>, w: nat, bits: nat)
    requires w > 0
  {
    && bits <= |d|
    && (bits > 0 ==> d[bits - 1] != 0)
    && (forall i :: bits <= i < |d| ==> d[i] == 0)
    && (forall i :: 0 <= i < |d| ==> IsWnafDigit(d[i], w))
    && (forall i, j :: 0 <= i < j < |d| && d[i] != 0 && d[j] != 0 ==> j - i >= w)
  }

  predicate IsWnafDigit(x: int, w: nat)
    requires w > 0
  {
    x == 0 || (x % 2 == 1 && -x < Pow2(w - 1) && x < Pow2(w - 1))
  }

  /** A run of bits equal to the carry leaves the carry where it is, one place higher. */
  lemma SkipStep(s: nat, bit: nat, carry: int, val: int)
    requires Bits(s, bit, 1) == carry && val + carry * Pow2(bit) == s % Pow2(bit)
    ensures val + carry * Pow2(bit + 1) == s % Pow2(bit + 1)
  {
    LowBitsExtend(s, bit, 1);
    assert Pow2(1) == 2;
    if carry == 0 {} else { assert carry == 1; }
  }

  /** A window of `now` bits plus the carry is an odd word below 2^w, and it reaches
      2^(w-1) only by having its own top bit set. */
  lemma TakeWord(s: nat, bit: nat, now: nat, w: nat, carry: int, word: int)
    requires 2 <= w && 0 < now <= w && 0 <= carry <= 1 && Bits(s, bit, 1) != carry
    requires word == Bits(s, bit, now) + carry
    ensures word % 2 == 1 && 0 < word < Pow2(now) <= Pow2(w)
    ensures word >= Pow2(w - 1) ==> now == w && Bits(s, bit + w - 1, 1) == 1
  {
    assert Pow2(1) == 2;
    assert Pow2(now) == 2 * Pow2(now - 1) && Pow2(w - 1) == 2 * Pow2(w - 2);
    hide *;
    BitsParity(s, bit, now);
    Pow2Mono(now, w);
    OddWord(Bits(s, bit, now), carry, Bits(s, bit, 1), Pow2(now - 1));
    if now < w {
      Pow2Mono(now, w - 1);
    } else {
      BitsTop(s, bit, w - 1);
      TopBitSet(word, carry, Bits(s, bit, w - 1), Bits(s, bit + w - 1, 1), Pow2(w - 2));
    }
  }

  lemma OddWord(b: int, carry: int, t: int, h: int)
    requires b % 2 == t && 0 <= carry <= 1 && t != carry && 0 <= b < 2 * h
    ensures (b + carry) % 2 == 1 && 0 < b + carry < 2 * h
  {}

  lemma TopBitSet(word: int, carry: int, low: int, t: int, e: int)
    requires word == low + (2 * e) * t + carry && 0 <= low < 2 * e && 0 <= t <= 1 && 0 <= carry <= 1 && word % 2 == 1
    ensures word >= 2 * e ==> t == 1
  {}

  /** Writing the signed word and keeping its overflow as the carry keeps the running value. */
  lemma TakeStep(s: nat, bit: nat, now: nat, w: nat, carry: int, word: int, val: int, carry': int, word': int)
    requires 2 <= w && 0 < now <= w
    requires word == Bits(s, bit, now) + carry
    requires val + carry * Pow2(bit) == s % Pow2(bit)
    requires word' == word - carry' * Pow2(w)
    requires carry' == 0 || now == w
    ensures val + word' * Pow2(bit) + carry' * Pow2(bit + now) == s % Pow2(bit + now)
  {
    hide Bits, Pow2;
    var p := Pow2(bit);
    LowBitsExtend(s, bit, now);
    Pow2Add(bit, now);
    WordWeight(p, word, carry, carry', Pow2(w));
  }

  lemma WordWeight(p: int, word: int, carry: int, carry': int, q: int)
    ensures p * (word - carry) == (word - carry' * q) * p + carry' * (p * q) - carry * p
  {
    assert (carry' * q) * p == carry' * (p * q);
  }

  /** A set bit at position k bounds the scalar from below. */
  lemma BitBound(s: nat, k: nat)
    requires Bits(s, k, 1) == 1
    ensures s >= Pow2(k)
  {
    if s < Pow2(k) {
      DivModUnique(s, Pow2(k), 0, s);
      assert false;
    }
  }

  /** The overflow bit of an odd word below 2^w, and the signed word it leaves. */
  lemma WordCarry(word: nat, w: nat)
    requires 2 <= w && word % 2 == 1 && word < Pow2(w)
    ensures var c := (word / Pow2(w - 1)) % 2;
            && (c == 1 <==> word >= Pow2(w - 1))
            && IsWnafDigit(word - c * Pow2(w), w) && word - c * Pow2(w) != 0
  {
    var h, e := Pow2(w - 1), Pow2(w - 2);
    assert h == 2 * e && Pow2(w) == 2 * h;
    hide Pow2;
    if word < h {
      DivModUnique(word, h, 0, word);
    } else {
      DivModUnique(word, h, 1, word - h);
      assert (word - 2 * h) % 2 == 1;
    }
  }

  /** What holds after the loop has consumed `bit` bits of s: `d` carries the signed digits
      set so far, the last at position `last`. */
  ghost predicate Recoded(d: seq<int>, s: nat, w: nat, sign: int, bit: nat, last: int, carry: int)
    requires w > 0
  {
    && bit <= |d| && -1 <= last < bit && 0 <= carry <= 1 && (sign == 1 || sign == -1)
    && IsWnaf(d, w, last + 1)
    && (bit < |d| && last >= 0 ==> bit - last >= w)
    && (last >= 1 ==> s >= Pow2(last - 1))
    && (carry == 1 ==> bit > 0 && Bits(s, bit - 1, 1) == 1)
    && sign * Low(d, 1, bit) + carry * Pow2(bit) == s % Pow2(bit)
  }

  lemma RecodeSkip(d: seq<int>, s: nat, w: nat, sign: int, bit: nat, last: int, carry: int)
    requires w > 0 && bit < |d| && Recoded(d, s, w, sign, bit, last, carry)
    requires Bits(s, bit, 1) == carry
    ensures Recoded(d, s, w, sign, bit + 1, last, carry)
  {
    SkipStep(s, bit, carry, sign * Low(d, 1, bit));
    LowZeros(d, 1, bit, bit + 1);
  }

  lemma RecodeTake(d: seq<int>, s: nat, w: nat, sign: int, bit: nat, last: int, carry: int,
                   now: nat, word: int, carry': int, d': seq<int>)
    requires 2 <= w && bit < |d| && Recoded(d, s, w, sign, bit, last, carry)
    requires Bits(s, bit, 1) != carry && 0 < now <= w && bit + now <= |d| && (now < w ==> bit + now == |d|)
    requires word == Bits(s, bit, now) + carry
    requires carry' == (word / Pow2(w - 1)) % 2
    requires d' == d[bit := sign * (word - carry' * Pow2(w))]
    ensures Recoded(d', s, w, sign, bit + now, bit, carry')
  {
    TakeWord(s, bit, now, w, carry, word);
    WordCarry(word, w);
    var word' := word - carry' * Pow2(w);
    SignDigit(sign, word', w);
    SetDigit(d, w, bit, last, sign * word');
    TakeBound(s, bit, carry);
    TakeValue(d, s, w, sign, bit, carry, now, word, carry', d');
  }

  lemma TakeValue(d: seq<int>, s: nat, w: nat, sign: int, bit: nat, carry: int,
                  now: nat, word: int, carry': int, d': seq<int>)
    requires 2 <= w && 0 < now <= w && bit + now <= |d| && (sign == 1 || sign == -1)
    requires sign * Low(d, 1, bit) + carry * Pow2(bit) == s % Pow2(bit)
    requires word == Bits(s, bit, now) + carry && (carry' == 0 || now == w)
    requires d' == d[bit := sign * (word - carry' * Pow2(w))] && forall i :: bit < i < |d| ==> d[i] == 0
    ensures sign * Low(d', 1, bit + now) + carry' * Pow2(bit + now) == s % Pow2(bit + now)
  {
    var word', low := word - carry' * Pow2(w), Low(d, 1, bit);
    TakeStep(s, bit, now, w, carry, word, sign * low, carry', word');
    LowAgree(d, d', 1, bit);
    LowZeros(d', 1, bit + 1, bit + now);
    WeightIsPow2(1, bit);
    assert Low(d', 1, bit + now) == low + (sign * word') * Pow2(bit);
    SignedStep(sign, low, word', Pow2(bit));
  }

  lemma SetDigit(d: seq<int>, w: nat, bit: nat, last: int, x: int)
    requires w > 0 && -1 <= last < bit < |d| && IsWnaf(d, w, last + 1) && (last >= 0 ==> bit - last >= w)
    requires IsWnafDigit(x, w) && x != 0
    ensures IsWnaf(d[bit := x], w, bit + 1)
  {}

  lemma TakeBound(s: nat, bit: nat, carry: int)
    requires 0 <= carry <= 1 && Bits(s, bit, 1) != carry
    requires carry == 1 ==> bit > 0 && Bits(s, bit - 1, 1) == 1
    ensures bit >= 1 ==> s >= Pow2(bit - 1)
  {
    if carry == 1 {
      BitBound(s, bit - 1);
    } else {
      assert Pow2(1) == 2;
      BitBound(s, bit);
    }
  }

  lemma SignDigit(sign: int, x: int, w: nat)
    requires w > 0 && (sign == 1 || sign == -1) && IsWnafDigit(x, w) && x != 0
    ensures IsWnafDigit(sign * x, w) && sign * x != 0
  {}

  lemma SignedStep(sign: int, low: int, word: int, p: int)
    requires sign == 1 || sign == -1
    ensures sign * (low + (sign * word) * p) == sign * low + word * p
  {}

  /** secp256k1_ecmult_wnaf; `carry` is what the loop ends with, which VERIFY builds check to be 0. */
  method EcmultWnaf(wnaf: array<int>, a: nat, w: nat) returns (bits: nat, ghost carry: int)
    requires a < N && wnaf.Length <= 256 && 2 <= w <= 31
    modifies wnaf
    ensures IsWnaf(wnaf[..], w, bits)
    ensures bits >= 2 ==> Magnitude(a) >= Pow2(bits - 2)
    ensures 0 <= carry <= 1 && (wnaf.Length > 0 && Magnitude(a) < Pow2(wnaf.Length - 1) ==> carry == 0)
    ensures Horner(wnaf[..], 1, 0) == Signed(a) <==> carry == 0 && Magnitude(a) < Pow2(wnaf.Length)
  {
    hide Recoded, IsWnaf, Signed, Bits;
    var s, sign := a, 1;
    var lastSetBit, bit, c, len := -1, 0, 0, wnaf.Length;
    forall i | 0 <= i < len { wnaf[i] := 0; }
    var top := 255;
    if Bits(s, top, 1) == 1 {
      s := NegateScalar(s);
      sign := -1;
    }
    RecodedInit(wnaf[..], s, w, sign);
    while bit < len
      invariant 0 <= bit <= len
      invariant Recoded(wnaf[..], s, w, sign, bit, lastSetBit, c)
    {
      ghost var d := wnaf[..];
      RecodedRange(d, s, w, sign, bit, lastSetBit, c);
      if Bits(s, bit, 1) == c {
        RecodeSkip(d, s, w, sign, bit, lastSetBit, c);
        bit := bit + 1;
        continue;
      }
      var now := w;
      if now > len - bit {
        now := len - bit;
      }
      var word := Bits(s, bit, now) + c;
      ghost var word0, c0 := word, c;
      c := (word / Pow2(w - 1)) % 2;
      word := word - c * Pow2(w);
      wnaf[bit] := sign * word;
      RecodeTake(d, s, w, sign, bit, lastSetBit, c0, now, word0, c, wnaf[..]);
      lastSetBit := bit;
      bit := bit + now;
    }
    bits, carry := lastSetBit + 1, c;
    RecodedFinal(wnaf[..], a, s, w, sign, top, lastSetBit, c);
  }

  lemma RecodedInit(d: seq<int>, s: nat, w: nat, sign: int)
    requires w > 0 && (sign == 1 || sign == -1) && forall i :: 0 <= i < |d| ==> d[i] == 0
    ensures Recoded(d, s, w, sign, 0, -1, 0)
  {}

  lemma RecodedRange(d: seq<int>, s: nat, w: nat, sign: int, bit: nat, last: int, carry: int)
    requires w > 0 && Recoded(d, s, w, sign, bit, last, carry)
    ensures bit <= |d| && 0 <= carry <= 1 && -1 <= last < bit
  {}

  lemma RecodedFinal(d: seq<int>, a: nat, s: nat, w: nat, sign: int, top: nat, last: int, carry: int)
    requires a < N && w > 0 && Recoded(d, s, w, sign, |d|, last, carry) && top == 255
    requires if Bits(a, top, 1) == 1 then s == NegateScalar(a) && sign == -1 else s == a && sign == 1
    ensures last + 1 >= 0 && IsWnaf(d, w, last + 1)
    ensures last >= 1 ==> Magnitude(a) >= Pow2(last - 1)
    ensures 0 <= carry <= 1 && (|d| > 0 && Magnitude(a) < Pow2(|d| - 1) ==> carry == 0)
    ensures Horner(d, 1, 0) == Signed(a) <==> carry == 0 && Magnitude(a) < Pow2(|d|)
  {
    SignedAs(a, s, sign, top);
    RecodedRange(d, s, w, sign, |d|, last, carry);
    assert IsWnaf(d, w, last + 1) && (last >= 1 ==> s >= Pow2(last - 1));
    hide *;
    RecodedValue(d, s, w, sign, last, carry);
  }

  lemma SignedAs(a: nat, s: nat, sign: int, top: nat)
    requires a < N && top == 255
    requires if Bits(a, top, 1) == 1 then s == NegateScalar(a) && sign == -1 else s == a && sign == 1
    ensures Magnitude(a) == s && Signed(a) == sign * s
  {
    HighBit(a, top);
    hide Bits;
  }

  /** The digits stand for the scalar exactly when no carry is left and no bit beyond them; a scalar that
      leaves the top place free leaves no carry. */
  lemma RecodedValue(d: seq<int>, s: nat, w: nat, sign: int, last: int, carry: int)
    requires w > 0 && Recoded(d, s, w, sign, |d|, last, carry)
    ensures Horner(d, 1, 0) == sign * s <==> carry == 0 && s < Pow2(|d|)
    ensures |d| > 0 && s < Pow2(|d| - 1) ==> carry == 0
  {
    var h, p := Horner(d, 1, 0), Pow2(|d|);
    assert sign * Low(d, 1, |d|) + carry * p == s % p && 0 <= carry <= 1 && (sign == 1 || sign == -1);
    assert carry == 1 ==> |d| > 0 && Bits(s, |d| - 1, 1) == 1;
    hide *;
    if carry == 1 { BitBound(s, |d| - 1); }
    LowIsValue(d, 1);
    ExactWhen(sign * h, carry, s, p);
    SignMoves(sign, h, s);
  }

  lemma SignMoves(sign: int, h: int, s: int)
    requires sign == 1 || sign == -1
    ensures sign * h == s <==> h == sign * s
  {}

  lemma ExactWhen(h: int, carry: int, s: nat, p: int)
    requires p > 0 && 0 <= carry <= 1 && h + carry * p == s % p
    ensures h == s <==> carry == 0 && s < p
  {
    if s < p { ModSmall(s, p); }
    if h == s { assert s % p < p; assert s == (s / p) * p + s % p; }
  }
}
