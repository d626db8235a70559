/** One step of each converter of conf/convertutf.c, as a function of the rest of the source. */
module ConvertUtfSteps {
  import opened Units
  import opened Unicode
  import opened Conversion

  /** What the three source encodings read at the head of a non-empty source. */
  datatype Char =
    | NoChar(why: Result)
    | Char(len: nat, ch: Utf32)

  // ----- UTF-8 sources -----

  /** trailingBytesForUTF8 */
  function TrailingBytes(lead: Utf8): nat {
    if lead < 0xC0 then 0
    else if lead < 0xE0 then 1
    else if lead < 0xF0 then 2
    else if lead < 0xF8 then 3
    else if lead < 0xFC then 4
    else 5
  }

  /** ED and F4 have an upper bound on their second byte only. */
  predicate LowSecond(s: seq<Utf8>) {
    || (|s| == 3 && s[0] == 0xED && s[1] < 0x80 && IsTrail(s[2]))
    || (|s| == 4 && s[0] == 0xF4 && s[1] < 0x80 && IsTrail(s[2]) && IsTrail(s[3]))
  }

  /** What isLegalUTF8 accepts: Table 3-7 and the sequences it lets slip. */
  predicate Accepted(s: seq<Utf8>) {
    WellFormed8(s) || LowSecond(s)
  }

  // The bytes added up with shifts of six, less offsetsFromUTF8, in 32-bit arithmetic.

  function Plus(ch: Utf32, b: Utf8): Utf32 {
    ch + b as Utf32
  }

  function TimesSixBits(ch: Utf32): Utf32 {
    ch << 6
  }

  function OffsetsFromUTF8(extra: nat): Utf32 {
    match extra
    case 0 => 0x00000000
    case 1 => 0x00003080
    case 2 => 0x000E2080
    case 3 => 0x03C82080
    case 4 => 0xFA082080
    case _ => 0x82082080
  }

  function LessOffset(ch: Utf32, extra: nat): Utf32 {
    ch - OffsetsFromUTF8(extra)
  }

  function Total1(b0: Utf8): Utf32 {
    LessOffset(Plus(0, b0), 0)
  }

  function Total2(b0: Utf8, b1: Utf8): Utf32 {
    LessOffset(Plus(TimesSixBits(Plus(0, b0)), b1), 1)
  }

  function Total3(b0: Utf8, b1: Utf8, b2: Utf8): Utf32 {
    LessOffset(Plus(TimesSixBits(Plus(TimesSixBits(Plus(0, b0)), b1)), b2), 2)
  }

  function Total4(b0: Utf8, b1: Utf8, b2: Utf8, b3: Utf8): Utf32 {
    LessOffset(Plus(TimesSixBits(Plus(TimesSixBits(Plus(TimesSixBits(Plus(0, b0)), b1)), b2)), b3), 3)
  }

  function Total(s: seq<Utf8>): Utf32
    requires 1 <= |s| <= 4
  {
    match |s|
    case 1 => Total1(s[0])
    case 2 => Total2(s[0], s[1])
    case 3 => Total3(s[0], s[1], s[2])
    case _ => Total4(s[0], s[1], s[2], s[3])
  }

  lemma {:induction false} TotalBits2(b0: Utf8, b1: Utf8)
    requires Row2(b0, b1)
    ensures Total2(b0, b1) == Bits2(b0, b1)
  {
  }

  lemma {:induction false} TotalBits3(b0: Utf8, b1: Utf8, b2: Utf8)
    requires Row3(b0, b1, b2)
    ensures Total3(b0, b1, b2) == Bits3(b0, b1, b2)
  {
  }

  lemma {:induction false} TotalBits4(b0: Utf8, b1: Utf8, b2: Utf8, b3: Utf8)
    requires Row4(b0, b1, b2, b3)
    ensures Total4(b0, b1, b2, b3) == Bits4(b0, b1, b2, b3)
  {
  }

  /** On Table 3-7 the sum with offsets is the bit distribution of Table 3-6. */
  lemma {:induction false} TotalDecodes(s: seq<Utf8>)
    requires WellFormed8(s)
    ensures Total(s) == Decode8(s)
  {
    match |s|
    case 1 =>
    case 2 => TotalBits2(s[0], s[1]);
    case 3 => TotalBits3(s[0], s[1], s[2]);
    case _ => TotalBits4(s[0], s[1], s[2], s[3]);
  }

  lemma {:induction false} LowSecond3(b1: Utf8, b2: Utf8)
    requires b1 < 0x80 && IsTrail(b2)
    ensures 0xB000 <= Total3(0xED, b1, b2) <= 0xCFFF
  {
  }

  lemma {:induction false} LowSecond4(b1: Utf8, b2: Utf8, b3: Utf8)
    requires b1 < 0x80 && IsTrail(b2) && IsTrail(b3)
    ensures 0x80000 <= Total4(0xF4, b1, b2, b3) <= 0xFFFFF
  {
  }

  /** Whatever isLegalUTF8 accepts decodes to a scalar value: never a surrogate, never above 0x10FFFF. */
  lemma {:induction false} AcceptedScalar(s: seq<Utf8>)
    requires Accepted(s)
    ensures 1 <= |s| <= 4 && IsScalar(Total(s))
  {
    if WellFormed8(s) {
      TotalDecodes(s);
      Decode8Scalar(s);
    } else if |s| == 3 {
      LowSecond3(s[1], s[2]);
    } else {
      LowSecond4(s[1], s[2], s[3]);
    }
  }

  /** The legality check does not depend on the flags; the character it lets through is a scalar value. */
  function Read8(s: seq<Utf8>): (c: Char)
    ensures c.Char? ==> 0 < c.len <= |s| && IsScalar(c.ch)
    ensures c.NoChar? ==> c.why == SourceExhausted || c.why == SourceIllegal
  {
    if s == [] then NoChar(SourceExhausted)
    else
      var extra := TrailingBytes(s[0]);
      if extra >= |s| then NoChar(SourceExhausted)
      else if !Accepted(s[..extra + 1]) then NoChar(SourceIllegal)
      else
        AcceptedScalar(s[..extra + 1]);
        Char(extra + 1, Total(s[..extra + 1]))
  }

  function Step8To16(s: seq<Utf8>): Step<Utf16> {
    match Read8(s)
    case NoChar(why) => Halt(why)
    case Char(len, ch) => Emit(len, Encode16(ch), false)
  }

  function Step8To32(s: seq<Utf8>): Step<Utf32> {
    match Read8(s)
    case NoChar(why) => Halt(why)
    case Char(len, ch) => Emit(len, [ch], false)
  }

  // ----- UTF-16 sources -----

  function Read16(s: seq<Utf16>, flags: Flags): (c: Char)
    ensures c.Char? ==> 0 < c.len <= |s| && c.ch <= MAX_LEGAL
    ensures c.Char? && flags == Strict ==> IsScalar(c.ch)
    ensures c.NoChar? ==> c.why == SourceExhausted || c.why == SourceIllegal
  {
    if s == [] then NoChar(SourceExhausted)
    else if IsHigh(s[0]) then
      if |s| == 1 then NoChar(SourceExhausted)
      else if IsLow(s[1]) then
        PairValueScalar(s[0], s[1]);
        Char(2, PairValue(s[0], s[1]))
      else if flags == Strict then NoChar(SourceIllegal)
      else Char(1, s[0] as Utf32)
    else if flags == Strict && IsLow(s[0]) then NoChar(SourceIllegal)
    else Char(1, s[0] as Utf32)
  }

  function Step16To8(s: seq<Utf16>, flags: Flags): Step<Utf8> {
    match Read16(s, flags)
    case NoChar(why) => Halt(why)
    case Char(len, ch) => Emit(len, Encode8(ch), false)
  }

  function Step16To32(s: seq<Utf16>, flags: Flags): Step<Utf32> {
    match Read16(s, flags)
    case NoChar(why) => Halt(why)
    case Char(len, ch) => Emit(len, [ch], false)
  }

  // ----- UTF-32 sources -----

  /** Strictly, a value above 0x10FFFF is skipped and the conversion goes on. */
  function Step32To16(s: seq<Utf32>, flags: Flags): Step<Utf16> {
    if s == [] then Halt(SourceExhausted)
    else if IsSurrogate(s[0]) then
      if flags == Strict then Halt(SourceIllegal) else Emit(1, Encode16(REPLACEMENT_CHAR), false)
    else if s[0] > MAX_LEGAL then
      if flags == Strict then Emit(1, [], true) else Emit(1, Encode16(REPLACEMENT_CHAR), false)
    else Emit(1, Encode16(s[0]), false)
  }

  /** A value above 0x10FFFF is replaced whatever the flags, and the conversion goes on. */
  function Step32To8(s: seq<Utf32>, flags: Flags): Step<Utf8> {
    if s == [] then Halt(SourceExhausted)
    else if flags == Strict && IsSurrogate(s[0]) then Halt(SourceIllegal)
    else if s[0] > MAX_LEGAL then Emit(1, Encode8(REPLACEMENT_CHAR), true)
    else Emit(1, Encode8(s[0]), false)
  }

  // ----- the steps as function values -----

  function From8To16(): (f: seq<Utf8> -> Step<Utf16>)
    ensures Productive(f)
  {
    s => Step8To16(s)
  }

  function From8To32(): (f: seq<Utf8> -> Step<Utf32>)
    ensures Productive(f)
  {
    s => Step8To32(s)
  }

  function From16To8(flags: Flags): (f: seq<Utf16> -> Step<Utf8>)
    ensures Productive(f)
  {
    s => Step16To8(s, flags)
  }

  function From16To32(flags: Flags): (f: seq<Utf16> -> Step<Utf32>)
    ensures Productive(f)
  {
    s => Step16To32(s, flags)
  }

  function From32To16(flags: Flags): (f: seq<Utf32> -> Step<Utf16>)
    ensures Productive(f)
  {
    s => Step32To16(s, flags)
  }

  function From32To8(flags: Flags): (f: seq<Utf32> -> Step<Utf8>)
    ensures Productive(f)
  {
    s => Step32To8(s, flags)
  }
}
