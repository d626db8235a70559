/**
 The Unicode Standard's own definitions, written down independently of the converters:
 scalar values, UTF-16 (Table 3-5), UTF-8 bit distribution (Table 3-6) and well-formed
 UTF-8 byte sequences (Table 3-7). Code units are bit vectors of their C width.
 */
module Unicode {
  import opened Sequences
  import opened Units

  const REPLACEMENT_CHAR: Utf32 := 0xFFFD
  const MAX_BMP: Utf32 := 0xFFFF
  const MAX_LEGAL: Utf32 := 0x10FFFF

  predicate IsBmp(ch: Utf32) {
    ch <= MAX_BMP
  }

  predicate IsBeyond(ch: Utf32) {
    ch > MAX_LEGAL
  }

  predicate IsSurrogate(ch: Utf32) {
    0xD800 <= ch <= 0xDFFF
  }

  predicate IsScalar(ch: Utf32) {
    ch <= MAX_LEGAL && !IsSurrogate(ch)
  }

  predicate AllScalar(chs: seq<Utf32>) {
    forall i | 0 <= i < |chs| :: IsScalar(chs[i])
  }

  predicate IsHigh(u: Utf16) {
    0xD800 <= u <= 0xDBFF
  }

  predicate IsLow(u: Utf16) {
    0xDC00 <= u <= 0xDFFF
  }

  /** The value of a surrogate pair (section 2.2 of RFC 2781). */
  function PairValue(hi: Utf16, lo: Utf16): Utf32 {
    ((((hi as Utf32) & 0x3FF) << 10) | ((lo as Utf32) & 0x3FF)) + 0x10000
  }

  /** Table 3-5, for any value up to 0x10FFFF. */
  function Encode16(ch: Utf32): seq<Utf16>
    requires !IsBeyond(ch)
  {
    if ch <= MAX_BMP then [ch as Utf16] else [HighOf(ch), LowOf(ch)]
  }

  function HighOf(ch: Utf32): Utf16
    requires MAX_BMP < ch <= MAX_LEGAL
  {
    (0xD800 | ((ch - 0x10000) >> 10)) as Utf16
  }

  function LowOf(ch: Utf32): Utf16
    requires MAX_BMP < ch <= MAX_LEGAL
  {
    (0xDC00 | ((ch - 0x10000) & 0x3FF)) as Utf16
  }

  /** Table 3-6, extended to surrogates, which take the three-byte form. */
  function Encode8(ch: Utf32): (bytes: seq<Utf8>)
    requires !IsBeyond(ch)
    ensures 1 <= |bytes| <= 4
  {
    if ch < 0x80 then [ch as Utf8]
    else if ch < 0x800 then [Lead2(ch), Trail(ch)]
    else if ch < 0x10000 then [Lead3(ch), Trail(ch >> 6), Trail(ch)]
    else [Lead4(ch), Trail(ch >> 12), Trail(ch >> 6), Trail(ch)]
  }

  function Lead2(ch: Utf32): Utf8
    requires ch < 0x800
  {
    (0xC0 | (ch >> 6)) as Utf8
  }

  function Lead3(ch: Utf32): Utf8
    requires ch < 0x10000
  {
    (0xE0 | (ch >> 12)) as Utf8
  }

  function Lead4(ch: Utf32): Utf8
    requires ch <= MAX_LEGAL
  {
    (0xF0 | (ch >> 18)) as Utf8
  }

  function Trail(bits: Utf32): Utf8 {
    (0x80 | (bits & 0x3F)) as Utf8
  }

  predicate IsTrail(b: Utf8) {
    0x80 <= b <= 0xBF
  }

  // The rows of Table 3-7, by length.

  predicate Row2(b0: Utf8, b1: Utf8) {
    0xC2 <= b0 <= 0xDF && IsTrail(b1)
  }

  predicate Row3(b0: Utf8, b1: Utf8, b2: Utf8) {
    && (|| (b0 == 0xE0 && 0xA0 <= b1 <= 0xBF)
        || (0xE1 <= b0 <= 0xEC && IsTrail(b1))
        || (b0 == 0xED && 0x80 <= b1 <= 0x9F)
        || (0xEE <= b0 <= 0xEF && IsTrail(b1)))
    && IsTrail(b2)
  }

  predicate Row4(b0: Utf8, b1: Utf8, b2: Utf8, b3: Utf8) {
    && (|| (b0 == 0xF0 && 0x90 <= b1 <= 0xBF)
        || (0xF1 <= b0 <= 0xF3 && IsTrail(b1))
        || (b0 == 0xF4 && 0x80 <= b1 <= 0x8F))
    && IsTrail(b2) && IsTrail(b3)
  }

  /** Table 3-7: the byte sequences that encode exactly one scalar value. */
  predicate WellFormed8(s: seq<Utf8>) {
    match |s|
    case 1 => s[0] <= 0x7F
    case 2 => Row2(s[0], s[1])
    case 3 => Row3(s[0], s[1], s[2])
    case 4 => Row4(s[0], s[1], s[2], s[3])
    case _ => false
  }

  // The bit distribution of Table 3-6, read backwards.

  function Low6(b: Utf8): Utf32 {
    (b & 0x3F) as Utf32
  }

  function Bits2(b0: Utf8, b1: Utf8): Utf32 {
    (((b0 & 0x1F) as Utf32) << 6) | Low6(b1)
  }

  function Bits3(b0: Utf8, b1: Utf8, b2: Utf8): Utf32 {
    (((b0 & 0x0F) as Utf32) << 12) | (Low6(b1) << 6) | Low6(b2)
  }

  function Bits4(b0: Utf8, b1: Utf8, b2: Utf8, b3: Utf8): Utf32 {
    (((b0 & 0x07) as Utf32) << 18) | (Low6(b1) << 12) | (Low6(b2) << 6) | Low6(b3)
  }

  /** The value Table 3-6 assigns to a well-formed byte sequence. */
  function Decode8(s: seq<Utf8>): Utf32
    requires WellFormed8(s)
  {
    match |s|
    case 1 => s[0] as Utf32
    case 2 => Bits2(s[0], s[1])
    case 3 => Bits3(s[0], s[1], s[2])
    case _ => Bits4(s[0], s[1], s[2], s[3])
  }

  // ----- whole texts -----

  function Concat<T>(parts: seq<seq<T>>): seq<T> {
    if parts == [] then [] else parts[0] + Concat(parts[1..])
  }

  function Parts8(chs: seq<Utf32>): (parts: seq<seq<Utf8>>)
    requires AllScalar(chs)
    ensures |parts| == |chs| && forall i | 0 <= i < |chs| :: parts[i] == Encode8(chs[i])
  {
    if chs == [] then [] else [Encode8(chs[0])] + Parts8(chs[1..])
  }

  function Parts16(chs: seq<Utf32>): (parts: seq<seq<Utf16>>)
    requires AllScalar(chs)
    ensures |parts| == |chs| && forall i | 0 <= i < |chs| :: parts[i] == Encode16(chs[i])
  {
    if chs == [] then [] else [Encode16(chs[0])] + Parts16(chs[1..])
  }

  function Parts32(chs: seq<Utf32>): (parts: seq<seq<Utf32>>)
    ensures |parts| == |chs| && forall i | 0 <= i < |chs| :: parts[i] == [chs[i]]
  {
    if chs == [] then [] else [[chs[0]]] + Parts32(chs[1..])
  }

  /** The text in UTF-8, and in UTF-16. */
  function Text8(chs: seq<Utf32>): seq<Utf8>
    requires AllScalar(chs)
  {
    Concat(Parts8(chs))
  }

  function Text16(chs: seq<Utf32>): seq<Utf16>
    requires AllScalar(chs)
  {
    Concat(Parts16(chs))
  }

  lemma {:induction false} Concat32(chs: seq<Utf32>)
    ensures Concat(Parts32(chs)) == chs
  {
    if chs != [] {
      Concat32(chs[1..]);
    }
  }

  lemma {:induction false} ConcatMore<T>(parts: seq<seq<T>>, more: seq<seq<T>>)
    ensures Concat(parts + more) == Concat(parts) + Concat(more)
  {
    if parts == [] {
      assert parts + more == more;
    } else {
      ConcatMore(parts[1..], more);
      assert (parts + more)[0] == parts[0] && (parts + more)[1..] == parts[1..] + more;
      Assoc(parts[0], Concat(parts[1..]), Concat(more));
    }
  }

  lemma {:induction false} Text8More(chs: seq<Utf32>, ch: Utf32)
    requires AllScalar(chs) && IsScalar(ch)
    ensures Text8(chs + [ch]) == Text8(chs) + Encode8(ch)
  {
    ConcatMore(Parts8(chs), [Encode8(ch)]);
    assert Parts8(chs + [ch]) == Parts8(chs) + [Encode8(ch)];
    assert Concat([Encode8(ch)]) == Encode8(ch);
  }

  lemma {:induction false} Text16More(chs: seq<Utf32>, ch: Utf32)
    requires AllScalar(chs) && IsScalar(ch)
    ensures Text16(chs + [ch]) == Text16(chs) + Encode16(ch)
  {
    ConcatMore(Parts16(chs), [Encode16(ch)]);
    assert Parts16(chs + [ch]) == Parts16(chs) + [Encode16(ch)];
    assert Concat([Encode16(ch)]) == Encode16(ch);
  }

  /** Well-formed UTF-8: a concatenation of rows of Table 3-7. */
  ghost predicate WellFormedText8(s: seq<Utf8>) {
    exists parts: seq<seq<Utf8>> :: AllWellFormed8(parts) && Concat(parts) == s
  }

  predicate AllWellFormed8(parts: seq<seq<Utf8>>) {
    forall i | 0 <= i < |parts| :: WellFormed8(parts[i])
  }

  /** Well-formed UTF-16: every surrogate belongs to a high-low pair. */
  predicate WellFormedText16(s: seq<Utf16>) {
    || s == []
    || (!IsHigh(s[0]) && !IsLow(s[0]) && WellFormedText16(s[1..]))
    || (|s| >= 2 && IsHigh(s[0]) && IsLow(s[1]) && WellFormedText16(s[2..]))
  }

  // ----- bit-level facts -----

  lemma {:induction false} Encode2Bits(ch: Utf32)
    requires 0x80 <= ch < 0x800
    ensures Row2(Lead2(ch), Trail(ch)) && Bits2(Lead2(ch), Trail(ch)) == ch
  {
  }

  lemma {:induction false} Encode3Row(ch: Utf32)
    requires 0x800 <= ch < 0x10000 && !IsSurrogate(ch)
    ensures Row3(Lead3(ch), Trail(ch >> 6), Trail(ch))
  {
  }

  lemma {:induction false} Encode3Bits(ch: Utf32)
    requires 0x800 <= ch < 0x10000
    ensures Bits3(Lead3(ch), Trail(ch >> 6), Trail(ch)) == ch
  {
  }

  lemma {:induction false} Encode4Row(ch: Utf32)
    requires 0x10000 <= ch <= MAX_LEGAL
    ensures Row4(Lead4(ch), Trail(ch >> 12), Trail(ch >> 6), Trail(ch))
  {
  }

  lemma {:induction false} Encode4Bits(ch: Utf32)
    requires 0x10000 <= ch <= MAX_LEGAL
    ensures Bits4(Lead4(ch), Trail(ch >> 12), Trail(ch >> 6), Trail(ch)) == ch
  {
  }

  lemma {:induction false} Bits2Encode(b0: Utf8, b1: Utf8)
    requires Row2(b0, b1)
    ensures var ch := Bits2(b0, b1); 0x80 <= ch < 0x800 && Lead2(ch) == b0 && Trail(ch) == b1
  {
  }

  lemma {:induction false} Bits3Encode(b0: Utf8, b1: Utf8, b2: Utf8)
    requires Row3(b0, b1, b2)
    ensures var ch := Bits3(b0, b1, b2);
            0x800 <= ch < 0x10000 && !IsSurrogate(ch) && Lead3(ch) == b0 && Trail(ch >> 6) == b1 && Trail(ch) == b2
  {
  }

  lemma {:induction false} Bits4Encode(b0: Utf8, b1: Utf8, b2: Utf8, b3: Utf8)
    requires Row4(b0, b1, b2, b3)
    ensures Spells4(Bits4(b0, b1, b2, b3), b0, b1, b2, b3)
  {
    Bits4Range(b0, b1, b2, b3);
    Bits4Lead(b0, b1, b2, b3);
    Bits4Trails(b0, b1, b2, b3);
  }

  lemma {:induction false} Bits4Range(b0: Utf8, b1: Utf8, b2: Utf8, b3: Utf8)
    requires Row4(b0, b1, b2, b3)
    ensures 0x10000 <= Bits4(b0, b1, b2, b3) <= MAX_LEGAL
  {
  }

  lemma {:induction false} Bits4Lead(b0: Utf8, b1: Utf8, b2: Utf8, b3: Utf8)
    requires Row4(b0, b1, b2, b3) && Bits4(b0, b1, b2, b3) <= MAX_LEGAL
    ensures Lead4(Bits4(b0, b1, b2, b3)) == b0
  {
  }

  lemma {:induction false} Bits4Trails(b0: Utf8, b1: Utf8, b2: Utf8, b3: Utf8)
    requires IsTrail(b2) && IsTrail(b3) && IsTrail(b1)
    ensures Trail(Bits4(b0, b1, b2, b3) >> 12) == b1
    ensures Trail(Bits4(b0, b1, b2, b3) >> 6) == b2
    ensures Trail(Bits4(b0, b1, b2, b3)) == b3
  {
  }

  predicate Spells4(ch: Utf32, b0: Utf8, b1: Utf8, b2: Utf8, b3: Utf8) {
    && 0x10000 <= ch <= MAX_LEGAL
    && Lead4(ch) == b0 && Trail(ch >> 12) == b1 && Trail(ch >> 6) == b2 && Trail(ch) == b3
  }

  // ----- Tables 3-6 and 3-7 are each other's inverse on scalar values -----

  lemma {:induction false} Encode8WellFormed(ch: Utf32)
    requires IsScalar(ch)
    ensures WellFormed8(Encode8(ch)) && Decode8(Encode8(ch)) == ch
  {
    if ch < 0x80 {
    } else if ch < 0x800 {
      Encode2Bits(ch);
    } else if ch < 0x10000 {
      Encode3Row(ch);
      Encode3Bits(ch);
    } else {
      Encode4Row(ch);
      Encode4Bits(ch);
    }
  }

  lemma {:induction false} Decode8Scalar(s: seq<Utf8>)
    requires WellFormed8(s)
    ensures IsScalar(Decode8(s)) && Encode8(Decode8(s)) == s
  {
    match |s|
    case 1 =>
    case 2 => Decode8Scalar2(s[0], s[1]);
    case 3 => Decode8Scalar3(s[0], s[1], s[2]);
    case _ => Decode8Scalar4(s[0], s[1], s[2], s[3]);
  }

  lemma {:induction false} Decode8Scalar2(b0: Utf8, b1: Utf8)
    requires Row2(b0, b1)
    ensures IsScalar(Bits2(b0, b1)) && Encode8(Bits2(b0, b1)) == [b0, b1]
  {
    Bits2Encode(b0, b1);
  }

  lemma {:induction false} Decode8Scalar3(b0: Utf8, b1: Utf8, b2: Utf8)
    requires Row3(b0, b1, b2)
    ensures IsScalar(Bits3(b0, b1, b2)) && Encode8(Bits3(b0, b1, b2)) == [b0, b1, b2]
  {
    Bits3Encode(b0, b1, b2);
  }

  lemma {:induction false} Decode8Scalar4(b0: Utf8, b1: Utf8, b2: Utf8, b3: Utf8)
    requires Row4(b0, b1, b2, b3)
    ensures IsScalar(Bits4(b0, b1, b2, b3)) && Encode8(Bits4(b0, b1, b2, b3)) == [b0, b1, b2, b3]
  {
    Bits4Encode(b0, b1, b2, b3);
    Encode8Long(Bits4(b0, b1, b2, b3), b0, b1, b2, b3);
  }

  lemma {:induction false} Encode8Long(ch: Utf32, b0: Utf8, b1: Utf8, b2: Utf8, b3: Utf8)
    requires Spells4(ch, b0, b1, b2, b3)
    ensures IsScalar(ch) && Encode8(ch) == [b0, b1, b2, b3]
  {
  }

  lemma {:induction false} Encode16Surrogates(ch: Utf32)
    requires MAX_BMP < ch <= MAX_LEGAL
    ensures IsHigh(HighOf(ch)) && IsLow(LowOf(ch))
  {
  }

  lemma {:induction false} Encode16Pair(ch: Utf32)
    requires MAX_BMP < ch <= MAX_LEGAL
    ensures PairValue(HighOf(ch), LowOf(ch)) == ch
  {
  }

  lemma {:induction false} PairValueScalar(hi: Utf16, lo: Utf16)
    requires IsHigh(hi) && IsLow(lo)
    ensures MAX_BMP < PairValue(hi, lo) <= MAX_LEGAL
    ensures HighOf(PairValue(hi, lo)) == hi && LowOf(PairValue(hi, lo)) == lo
  {
  }

  // ----- well-formed texts are the encodings of scalar texts -----

  lemma {:induction false} Text8WellFormed(chs: seq<Utf32>)
    requires AllScalar(chs)
    ensures WellFormedText8(Text8(chs))
  {
    forall i | 0 <= i < |chs| ensures WellFormed8(Parts8(chs)[i]) {
      Encode8WellFormed(chs[i]);
    }
    assert AllWellFormed8(Parts8(chs));
  }

  lemma {:induction false} Decode8Text(parts: seq<seq<Utf8>>) returns (chs: seq<Utf32>)
    requires AllWellFormed8(parts)
    ensures AllScalar(chs) && Parts8(chs) == parts
  {
    chs := seq(|parts|, i requires 0 <= i < |parts| => Decode8(parts[i]));
    forall i | 0 <= i < |parts| ensures IsScalar(chs[i]) && Encode8(chs[i]) == parts[i] {
      Decode8Scalar(parts[i]);
    }
  }

  lemma {:induction false} Decode16Text(s: seq<Utf16>) returns (chs: seq<Utf32>)
    requires WellFormedText16(s)
    ensures AllScalar(chs) && Text16(chs) == s
  {
    hide Encode16, PairValue;
    if s == [] {
      chs := [];
    } else if !IsHigh(s[0]) && !IsLow(s[0]) {
      var rest := Decode16Text(s[1..]);
      chs := [s[0] as Utf32] + rest;
      SingleUnit(s[0]);
      Text16First(s[0] as Utf32, rest);
    } else {
      var rest := Decode16Text(s[2..]);
      chs := [PairValue(s[0], s[1])] + rest;
      PairUnits(s[0], s[1]);
      Text16First(PairValue(s[0], s[1]), rest);
      assert s == [s[0], s[1]] + s[2..];
    }
  }

  lemma {:induction false} Text16First(ch: Utf32, rest: seq<Utf32>)
    requires IsScalar(ch) && AllScalar(rest)
    ensures AllScalar([ch] + rest) && Text16([ch] + rest) == Encode16(ch) + Text16(rest)
  {
    assert Parts16([ch] + rest) == [Encode16(ch)] + Parts16(rest);
  }

  lemma {:induction false} SingleUnit(u: Utf16)
    requires !IsHigh(u) && !IsLow(u)
    ensures IsScalar(u as Utf32) && Encode16(u as Utf32) == [u]
  {
  }

  lemma {:induction false} PairUnits(hi: Utf16, lo: Utf16)
    requires IsHigh(hi) && IsLow(lo)
    ensures IsScalar(PairValue(hi, lo)) && Encode16(PairValue(hi, lo)) == [hi, lo]
  {
    PairValueScalar(hi, lo);
  }
}
