/**
 The converters of conf/convertutf.c: loops that advance an index into the source buffer and
 an index into the target buffer, backing up where the C code backs its pointers up.
 */
module ConvertUtf {
  import opened Units
  import opened Unicode
  import opened Conversion
  import opened ConvertUtfSteps

  /** The target buffer holds `units` from `start` on and is otherwise as it was. */
  ghost predicate Holds<T>(now: seq<T>, was: seq<T>, start: nat, units: seq<T>) {
    && |now| == |was| && start + |units| <= |was|
    && now == was[..start] + units + was[start + |units|..]
  }

  /** `*target++ = u` */
  method Put<T>(target: array<T>, t: nat, u: T, ghost was: seq<T>, ghost start: nat, ghost units: seq<T>)
    returns (next: nat)
    requires t < target.Length && Holds(target[..], was, start, units) && t == start + |units|
    modifies target
    ensures next == t + 1 && Holds(target[..], was, start, units + [u])
  {
    target[t] := u;
    next := t + 1;
  }

  /** The two units of a pair. */
  method PutPair(target: array<Utf16>, t: nat, x: Utf32, ghost was: seq<Utf16>, ghost start: nat,
                 ghost units: seq<Utf16>)
    returns (next: nat)
    requires t + 1 < target.Length && Holds(target[..], was, start, units) && t == start + |units|
    modifies target
    ensures next == t + 2 && Holds(target[..], was, start, units + [HighUnit(x), LowUnit(x)])
  {
    hide *;
    assert units + [HighUnit(x)] + [LowUnit(x)] == units + [HighUnit(x), LowUnit(x)];
    next := Put(target, t, HighUnit(x), was, start, units);
    next := Put(target, next, LowUnit(x), was, start, units + [HighUnit(x)]);
  }

  /** The walk backwards over the trailing bytes falls through from the longest length to the lead. */
  method IsLegalUTF8(source: array<Utf8>, at: nat, length: nat) returns (legal: bool)
    requires at < source.Length && at + length <= source.Length
    requires length == TrailingBytes(source[at]) + 1
    ensures legal == Accepted(source[at..at + length])
  {
    ghost var q := source[at..at + length];
    assert forall i | 0 <= i < length :: q[i] == source[at + i];
    if length > 4 {
      return false;
    }
    var p := at + length;
    if length >= 4 {
      p := p - 1;
      if source[p] < 0x80 || source[p] > 0xBF {
        return false;
      }
    }
    if length >= 3 {
      p := p - 1;
      if source[p] < 0x80 || source[p] > 0xBF {
        return false;
      }
    }
    if length >= 2 {
      p := p - 1;
      var a := source[p];
      if a > 0xBF {
        return false;
      }
      if source[at] == 0xE0 {
        if a < 0xA0 { return false; }
      } else if source[at] == 0xED {
        if a > 0x9F { return false; }
      } else if source[at] == 0xF0 {
        if a < 0x90 { return false; }
      } else if source[at] == 0xF4 {
        if a > 0x8F { return false; }
      } else {
        if a < 0x80 { return false; }
      }
    }
    if 0x80 <= source[at] < 0xC2 {
      return false;
    }
    if source[at] > 0xF4 {
      return false;
    }
    return true;
  }

  method IsLegalUTF8Sequence(source: array<Utf8>, at: nat, end: nat) returns (legal: bool)
    requires at < end <= source.Length
    ensures legal == Read8(source[at..end]).Char?
  {
    var length := TrailingBytes(source[at]) + 1;
    if at + length > end {
      return false;
    }
    assert source[at..end][..length] == source[at..at + length];
    legal := IsLegalUTF8(source, at, length);
  }

  // ----- UTF-32 to UTF-16 -----

  method ConvertUTF32toUTF16(source: array<Utf32>, sourceStart: nat, sourceEnd: nat,
                             target: array<Utf16>, targetStart: nat, targetEnd: nat, flags: Flags)
    returns (s: nat, t: nat, result: Result)
    requires sourceStart <= sourceEnd <= source.Length && targetStart <= targetEnd <= target.Length
    modifies target
    ensures var r := Convert(From32To16(flags), true, source[sourceStart..sourceEnd], targetEnd - targetStart);
            && s == sourceStart + r.at.used && t == targetStart + |r.at.units| && result == r.Result()
            && Holds(target[..], old(target[..]), targetStart, r.at.units)
  {
    hide *;
    result := ConversionOK;
    s, t := sourceStart, targetStart;
    ghost var src, room, step, was := source[sourceStart..sourceEnd], targetEnd - targetStart, From32To16(flags),
        target[..];
    ghost var at := Start();
    ghost var r := Convert(step, true, src, room);
    Begin(step, true, src, room, was, targetStart);
    while s < sourceEnd
      invariant sourceStart <= s <= sourceEnd && targetStart <= t <= targetEnd
      invariant at.used == s - sourceStart && |at.units| == t - targetStart
      invariant result == if at.flagged then SourceIllegal else ConversionOK
      invariant Holds(target[..], was, targetStart, at.units)
      invariant Go(step, true, src, room, at) == r
      decreases sourceEnd - s
    {
      ghost var rest := src[at.used..];
      ghost var e := step(rest);
      if t >= targetEnd {
        GoFull(step, true, src, room, at, e);
        result := TargetExhausted;
        break;
      }
      assert rest == source[s..sourceEnd];
      var ch := source[s];
      s := s + 1;
      Cases32To16(rest, ch, flags);
      if IsBmp(ch) {
        if IsSurrogate(ch) {
          if flags == Strict {
            GoHalts(step, true, src, room, at, SourceIllegal);
            s := s - 1;
            result := SourceIllegal;
            break;
          } else {
            t := Put(target, t, ReplacementUnit(), was, targetStart, at.units);
          }
        } else {
          t := Put(target, t, OneUnit(ch), was, targetStart, at.units);
        }
      } else if IsBeyond(ch) {
        if flags == Strict {
          result := SourceIllegal;
          assert at.units + [] == at.units;
        } else {
          t := Put(target, t, ReplacementUnit(), was, targetStart, at.units);
        }
      } else {
        if t + 1 >= targetEnd {
          GoFull(step, true, src, room, at, e);
          s := s - 1;
          result := TargetExhausted;
          break;
        }
        t := PutPair(target, t, ch - 0x10000, was, targetStart, at.units);
      }
      GoOn(step, true, src, room, at, e);
      at := at.After(e);
    }
    GoEnds(step, true, src, room, at);
  }

  // ----- reading UTF-16 -----

  /** What both converters out of UTF-16 start with: `next` stays at the units that cannot be read. */
  method ReadUnits(source: array<Utf16>, at: nat, end: nat, flags: Flags)
    returns (next: nat, ch: Utf32, result: Result)
    requires at < end <= source.Length
    ensures var c := Read16(source[at..end], flags);
            if c.Char? then result == ConversionOK && next == at + c.len && ch == c.ch
            else result == c.why && next == at
  {
    hide *;
    Cases16(source[at..end], flags);
    var u := source[at];
    ch, result := Wide(u), ConversionOK;
    next := at + 1;
    if IsHigh(u) {
      if next < end {
        var u2 := source[next];
        if IsLow(u2) {
          ch := PairSum(u, u2);
          next := next + 1;
        } else if flags == Strict {
          next := next - 1;
          result := SourceIllegal;
        }
      } else {
        next := next - 1;
        result := SourceExhausted;
      }
    } else if flags == Strict {
      if IsLow(u) {
        next := next - 1;
        result := SourceIllegal;
      }
    }
  }

  // ----- UTF-16 to UTF-32 -----

  method ConvertUTF16toUTF32(source: array<Utf16>, sourceStart: nat, sourceEnd: nat,
                             target: array<Utf32>, targetStart: nat, targetEnd: nat, flags: Flags)
    returns (s: nat, t: nat, result: Result)
    requires sourceStart <= sourceEnd <= source.Length && targetStart <= targetEnd <= target.Length
    modifies target
    ensures var r := Convert(From16To32(flags), false, source[sourceStart..sourceEnd], targetEnd - targetStart);
            && s == sourceStart + r.at.used && t == targetStart + |r.at.units| && result == r.Result()
            && Holds(target[..], old(target[..]), targetStart, r.at.units)
  {
    hide *;
    result := ConversionOK;
    s, t := sourceStart, targetStart;
    ghost var src, room, step, was := source[sourceStart..sourceEnd], targetEnd - targetStart, From16To32(flags),
        target[..];
    ghost var at := Start();
    ghost var r := Convert(step, false, src, room);
    Begin(step, false, src, room, was, targetStart);
    while s < sourceEnd
      invariant sourceStart <= s <= sourceEnd && targetStart <= t <= targetEnd
      invariant at.used == s - sourceStart && |at.units| == t - targetStart && !at.flagged
      invariant result == ConversionOK
      invariant Holds(target[..], was, targetStart, at.units)
      invariant Go(step, false, src, room, at) == r
      decreases sourceEnd - s
    {
      ghost var rest := src[at.used..];
      ghost var e := step(rest);
      Cases16To32(rest, flags);
      assert rest == source[s..sourceEnd];
      var oldS := s;
      var ch;
      s, ch, result := ReadUnits(source, s, sourceEnd, flags);
      if result != ConversionOK {
        GoHalts(step, false, src, room, at, result);
        break;
      }
      if t >= targetEnd {
        GoFull(step, false, src, room, at, e);
        s := oldS;
        result := TargetExhausted;
        break;
      }
      t := Put(target, t, ch, was, targetStart, at.units);
      GoOn(step, false, src, room, at, e);
      at := at.After(e);
    }
    GoEnds(step, false, src, room, at);
  }

  // ----- UTF-16 to UTF-8 -----

  method ConvertUTF16toUTF8(source: array<Utf16>, sourceStart: nat, sourceEnd: nat,
                            target: array<Utf8>, targetStart: nat, targetEnd: nat, flags: Flags)
    returns (s: nat, t: nat, result: Result)
    requires sourceStart <= sourceEnd <= source.Length && targetStart <= targetEnd <= target.Length
    modifies target
    ensures var r := Convert(From16To8(flags), false, source[sourceStart..sourceEnd], targetEnd - targetStart);
            && s == sourceStart + r.at.used && t == targetStart + |r.at.units| && result == r.Result()
            && Holds(target[..], old(target[..]), targetStart, r.at.units)
  {
    hide *;
    result := ConversionOK;
    s, t := sourceStart, targetStart;
    ghost var src, room, step, was := source[sourceStart..sourceEnd], targetEnd - targetStart, From16To8(flags),
        target[..];
    ghost var at := Start();
    ghost var r := Convert(step, false, src, room);
    Begin(step, false, src, room, was, targetStart);
    while s < sourceEnd
      invariant sourceStart <= s <= sourceEnd && targetStart <= t <= targetEnd
      invariant at.used == s - sourceStart && |at.units| == t - targetStart && !at.flagged
      invariant result == ConversionOK
      invariant Holds(target[..], was, targetStart, at.units)
      invariant Go(step, false, src, room, at) == r
      decreases sourceEnd - s
    {
      ghost var rest := src[at.used..];
      ghost var e := step(rest);
      Cases16To8(rest, flags);
      assert rest == source[s..sourceEnd];
      var oldS := s;
      var ch;
      s, ch, result := ReadUnits(source, s, sourceEnd, flags);
      if result != ConversionOK {
        GoHalts(step, false, src, room, at, result);
        break;
      }
      ByteCount(ch);
      var bytesToWrite: nat;
      if Below(ch, 0x80) {
        bytesToWrite := 1;
      } else if Below(ch, 0x800) {
        bytesToWrite := 2;
      } else if Below(ch, 0x10000) {
        bytesToWrite := 3;
      } else if Below(ch, 0x110000) {
        bytesToWrite := 4;
      } else {
        assert false;
      }
      t := t + bytesToWrite;
      if t > targetEnd {
        GoFull(step, false, src, room, at, e);
        s := oldS;
        t := t - bytesToWrite;
        result := TargetExhausted;
        break;
      }
      t := WriteBytes(target, t, ch, bytesToWrite, was, targetStart, at.units);
      GoOn(step, false, src, room, at, e);
      at := at.After(e);
    }
    GoEnds(step, false, src, room, at);
  }

  // ----- UTF-32 to UTF-8 -----

  method ConvertUTF32toUTF8(source: array<Utf32>, sourceStart: nat, sourceEnd: nat,
                            target: array<Utf8>, targetStart: nat, targetEnd: nat, flags: Flags)
    returns (s: nat, t: nat, result: Result)
    requires sourceStart <= sourceEnd <= source.Length && targetStart <= targetEnd <= target.Length
    modifies target
    ensures var r := Convert(From32To8(flags), false, source[sourceStart..sourceEnd], targetEnd - targetStart);
            && s == sourceStart + r.at.used && t == targetStart + |r.at.units| && result == r.Result()
            && Holds(target[..], old(target[..]), targetStart, r.at.units)
  {
    hide *;
    result := ConversionOK;
    s, t := sourceStart, targetStart;
    ghost var src, room, step, was := source[sourceStart..sourceEnd], targetEnd - targetStart, From32To8(flags),
        target[..];
    ghost var at := Start();
    ghost var r := Convert(step, false, src, room);
    Begin(step, false, src, room, was, targetStart);
    while s < sourceEnd
      invariant sourceStart <= s <= sourceEnd && targetStart <= t <= targetEnd
      invariant at.used == s - sourceStart && |at.units| == t - targetStart
      invariant result == if at.flagged then SourceIllegal else ConversionOK
      invariant Holds(target[..], was, targetStart, at.units)
      invariant Go(step, false, src, room, at) == r
      decreases sourceEnd - s
    {
      ghost var rest := src[at.used..];
      ghost var e := step(rest);
      assert rest == source[s..sourceEnd];
      var ch := source[s];
      Cases32To8(rest, ch, flags);
      if !IsBeyond(ch) {
        ByteCount(ch);
      }
      s := s + 1;
      if flags == Strict {
        if IsSurrogate(ch) {
          GoHalts(step, false, src, room, at, SourceIllegal);
          s := s - 1;
          result := SourceIllegal;
          break;
        }
      }
      var bytesToWrite: nat;
      if Below(ch, 0x80) {
        bytesToWrite := 1;
      } else if Below(ch, 0x800) {
        bytesToWrite := 2;
      } else if Below(ch, 0x10000) {
        bytesToWrite := 3;
      } else if !IsBeyond(ch) {
        bytesToWrite := 4;
      } else {
        bytesToWrite := 3;
        ch := REPLACEMENT_CHAR;
        result := SourceIllegal;
      }
      t := t + bytesToWrite;
      if t > targetEnd {
        GoFull(step, false, src, room, at, e);
        s := s - 1;
        t := t - bytesToWrite;
        result := TargetExhausted;
        break;
      }
      t := WriteBytes(target, t, ch, bytesToWrite, was, targetStart, at.units);
      GoOn(step, false, src, room, at, e);
      at := at.After(e);
    }
    GoEnds(step, false, src, room, at);
  }

  /**
   The switch that both converters into UTF-8 end with: trailing bytes are written backwards
   from `t`, falling through to the lead byte, and `t` is moved back to where it was.
   */
  method WriteBytes(target: array<Utf8>, t: nat, ch: Utf32, bytesToWrite: nat,
                    ghost was: seq<Utf8>, ghost start: nat, ghost units: seq<Utf8>)
    returns (next: nat)
    requires !IsBeyond(ch) && bytesToWrite == |Encode8(ch)|
    requires Holds(target[..], was, start, units) && t == start + |units| + bytesToWrite <= target.Length
    modifies target
    ensures next == t && Holds(target[..], was, start, units + Encode8(ch))
  {
    hide Encode8, LeadByte, TrailByte, ShiftedBy6, Holds;
    LastBytes(ch);
    ghost var before := target[..];
    next := t;
    var rest := ch;
    if bytesToWrite >= 4 {
      next := next - 1;
      target[next] := TrailByte(rest);
      rest := ShiftedBy6(rest);
    }
    if bytesToWrite >= 3 {
      next := next - 1;
      target[next] := TrailByte(rest);
      rest := ShiftedBy6(rest);
    }
    if bytesToWrite >= 2 {
      next := next - 1;
      target[next] := TrailByte(rest);
      rest := ShiftedBy6(rest);
    }
    next := next - 1;
    target[next] := LeadByte(rest, bytesToWrite);
    Spliced(target[..], before, was, start, units, Encode8(ch));
    next := next + bytesToWrite;
  }

  lemma {:induction false} Spliced<T>(now: seq<T>, before: seq<T>, was: seq<T>, start: nat, units: seq<T>, more: seq<T>)
    requires Holds(before, was, start, units) && start + |units| + |more| <= |now| == |before|
    requires forall i | 0 <= i < |more| :: now[start + |units| + i] == more[i]
    requires forall i | 0 <= i < |now| && !(start + |units| <= i < start + |units| + |more|) :: now[i] == before[i]
    ensures Holds(now, was, start, units + more)
  {
    assert now == was[..start] + (units + more) + was[start + |units + more|..];
  }

  // ----- reading UTF-8 -----

  /** What both converters out of UTF-8 start with: `next` stays at the sequence that cannot be read. */
  method ReadSequence(source: array<Utf8>, at: nat, end: nat) returns (next: nat, ch: Utf32, result: Result)
    requires at < end <= source.Length
    ensures var c := Read8(source[at..end]);
            if c.Char? then result == ConversionOK && next == at + c.len && ch == c.ch
            else result == c.why && next == at
  {
    hide *;
    CasesRead8(source[at..end]);
    next, ch, result := at, 0, ConversionOK;
    var extra := TrailingBytes(source[at]);
    if at + extra >= end {
      result := SourceExhausted;
      return;
    }
    assert source[at..end][..extra + 1] == source[at..at + (extra + 1)];
    var legal := IsLegalUTF8(source, at, extra + 1);
    if !legal {
      result := SourceIllegal;
      return;
    }
    next, ch := ReadBytes(source, at, extra);
  }

  lemma {:induction false} CasesRead8(s: seq<Utf8>)
    requires s != []
    ensures var c, extra := Read8(s), TrailingBytes(s[0]);
            if extra >= |s| then c == NoChar(SourceExhausted)
            else if !Accepted(s[..extra + 1]) then c == NoChar(SourceIllegal)
            else extra <= 3 && c == Char(extra + 1, Total(s[..extra + 1]))
  {
  }

  // ----- UTF-8 to UTF-16 -----

  method ConvertUTF8toUTF16(source: array<Utf8>, sourceStart: nat, sourceEnd: nat,
                            target: array<Utf16>, targetStart: nat, targetEnd: nat, flags: Flags)
    returns (s: nat, t: nat, result: Result)
    requires sourceStart <= sourceEnd <= source.Length && targetStart <= targetEnd <= target.Length
    modifies target
    ensures var r := Convert(From8To16(), false, source[sourceStart..sourceEnd], targetEnd - targetStart);
            && s == sourceStart + r.at.used && t == targetStart + |r.at.units| && result == r.Result()
            && Holds(target[..], old(target[..]), targetStart, r.at.units)
  {
    hide *;
    result := ConversionOK;
    s, t := sourceStart, targetStart;
    ghost var src, room, step, was := source[sourceStart..sourceEnd], targetEnd - targetStart, From8To16(), target[..];
    ghost var at := Start();
    ghost var r := Convert(step, false, src, room);
    Begin(step, false, src, room, was, targetStart);
    while s < sourceEnd
      invariant sourceStart <= s <= sourceEnd && targetStart <= t <= targetEnd
      invariant at.used == s - sourceStart && |at.units| == t - targetStart && !at.flagged
      invariant result == ConversionOK
      invariant Holds(target[..], was, targetStart, at.units)
      invariant Go(step, false, src, room, at) == r
      decreases sourceEnd - s
    {
      ghost var rest := src[at.used..];
      ghost var e := step(rest);
      Cases8To16(rest);
      assert rest == source[s..sourceEnd];
      var oldS := s;
      var ch;
      s, ch, result := ReadSequence(source, s, sourceEnd);
      if result != ConversionOK {
        GoHalts(step, false, src, room, at, result);
        break;
      }
      Units16(ch);
      if t >= targetEnd {
        GoFull(step, false, src, room, at, e);
        s := oldS;
        result := TargetExhausted;
        break;
      }
      if IsBmp(ch) {
        if IsSurrogate(ch) {
          assert false;
        } else {
          t := Put(target, t, OneUnit(ch), was, targetStart, at.units);
        }
      } else if IsBeyond(ch) {
        assert false;
      } else {
        if t + 1 >= targetEnd {
          GoFull(step, false, src, room, at, e);
          s := oldS;
          result := TargetExhausted;
          break;
        }
        t := PutPair(target, t, ch - 0x10000, was, targetStart, at.units);
      }
      GoOn(step, false, src, room, at, e);
      at := at.After(e);
    }
    GoEnds(step, false, src, room, at);
  }

  // ----- UTF-8 to UTF-32 -----

  method ConvertUTF8toUTF32(source: array<Utf8>, sourceStart: nat, sourceEnd: nat,
                            target: array<Utf32>, targetStart: nat, targetEnd: nat, flags: Flags)
    returns (s: nat, t: nat, result: Result)
    requires sourceStart <= sourceEnd <= source.Length && targetStart <= targetEnd <= target.Length
    modifies target
    ensures var r := Convert(From8To32(), false, source[sourceStart..sourceEnd], targetEnd - targetStart);
            && s == sourceStart + r.at.used && t == targetStart + |r.at.units| && result == r.Result()
            && Holds(target[..], old(target[..]), targetStart, r.at.units)
  {
    hide *;
    result := ConversionOK;
    s, t := sourceStart, targetStart;
    ghost var src, room, step, was := source[sourceStart..sourceEnd], targetEnd - targetStart, From8To32(), target[..];
    ghost var at := Start();
    ghost var r := Convert(step, false, src, room);
    Begin(step, false, src, room, was, targetStart);
    while s < sourceEnd
      invariant sourceStart <= s <= sourceEnd && targetStart <= t <= targetEnd
      invariant at.used == s - sourceStart && |at.units| == t - targetStart && !at.flagged
      invariant result == ConversionOK
      invariant Holds(target[..], was, targetStart, at.units)
      invariant Go(step, false, src, room, at) == r
      decreases sourceEnd - s
    {
      ghost var rest := src[at.used..];
      ghost var e := step(rest);
      Cases8To32(rest);
      assert rest == source[s..sourceEnd];
      var oldS := s;
      var ch;
      s, ch, result := ReadSequence(source, s, sourceEnd);
      if result != ConversionOK {
        GoHalts(step, false, src, room, at, result);
        break;
      }
      if t >= targetEnd {
        GoFull(step, false, src, room, at, e);
        s := oldS;
        result := TargetExhausted;
        break;
      }
      if !IsBeyond(ch) {
        if IsSurrogate(ch) {
          assert false;
        } else {
          t := Put(target, t, ch, was, targetStart, at.units);
        }
      } else {
        assert false;
      }
      GoOn(step, false, src, room, at, e);
      at := at.After(e);
    }
    GoEnds(step, false, src, room, at);
  }

  /**
   The switch that both converters out of UTF-8 start with: bytes are added up with shifts of six,
   falling through to the last one, and the table offset is taken off.
   */
  method ReadBytes(source: array<Utf8>, at: nat, extra: nat) returns (next: nat, ch: Utf32)
    requires extra <= 3 && at + extra < source.Length
    ensures next == at + extra + 1
    ensures ch == Total(source[at..at + (extra + 1)])
  {
    hide Plus, TimesSixBits, LessOffset;
    ch, next := 0, at;
    if extra >= 3 {
      ch, next := Plus(ch, source[next]), next + 1;
      ch := TimesSixBits(ch);
    }
    if extra >= 2 {
      ch, next := Plus(ch, source[next]), next + 1;
      ch := TimesSixBits(ch);
    }
    if extra >= 1 {
      ch, next := Plus(ch, source[next]), next + 1;
      ch := TimesSixBits(ch);
    }
    ch, next := Plus(ch, source[next]), next + 1;
    ch := LessOffset(ch, extra);
  }

  // ----- the arithmetic of the loops, and what it amounts to -----

  function ReplacementUnit(): Utf16 {
    REPLACEMENT_CHAR as Utf16
  }

  function OneUnit(ch: Utf32): Utf16 {
    (ch & 0xFFFF) as Utf16
  }

  /** The upper and the lower ten bits of `ch - halfBase`, truncated to 16 bits as C truncates them. */
  function HighUnit(x: Utf32): Utf16 {
    (((x >> 10) + 0xD800) & 0xFFFF) as Utf16
  }

  function LowUnit(x: Utf32): Utf16 {
    ((x & 0x3FF) + 0xDC00) as Utf16
  }

  function Wide(u: Utf16): Utf32 {
    u as Utf32
  }

  function PairSum(hi: Utf16, lo: Utf16): Utf32 {
    ((Wide(hi) - 0xD800) << 10) + (Wide(lo) - 0xDC00) + 0x10000
  }

  predicate Below(ch: Utf32, limit: Utf32) {
    ch < limit
  }

  function TrailByte(ch: Utf32): Utf8 {
    ((ch | 0x80) & 0xBF) as Utf8
  }

  function ShiftedBy6(ch: Utf32): Utf32 {
    ch >> 6
  }

  function FirstByteMark(bytesToWrite: nat): Utf32 {
    match bytesToWrite
    case 2 => 0xC0
    case 3 => 0xE0
    case 4 => 0xF0
    case 5 => 0xF8
    case 6 => 0xFC
    case _ => 0
  }

  function LeadByte(ch: Utf32, bytesToWrite: nat): Utf8 {
    ((ch | FirstByteMark(bytesToWrite)) & 0xFF) as Utf8
  }

  lemma {:induction false} Begin<S(!new), T>(step: seq<S> -> Step<T>, roomFirst: bool, src: seq<S>, room: nat,
      was: seq<T>, start: nat)
    requires Productive(step) && start <= |was|
    ensures var at: State<T> := Start();
            && at == State(0, [], false)
            && Go(step, roomFirst, src, room, at) == Convert(step, roomFirst, src, room)
            && Holds(was, was, start, [])
  {
  }

  lemma {:induction false} Cases32To16(s: seq<Utf32>, ch: Utf32, flags: Flags)
    requires s != [] && s[0] == ch
    ensures var e := From32To16(flags)(s);
            if IsSurrogate(ch) then
              e == if flags == Strict then Halt(SourceIllegal) else Emit(1, [ReplacementUnit()], false)
            else if IsBmp(ch) then e == Emit(1, [OneUnit(ch)], false)
            else if IsBeyond(ch) then
              e == if flags == Strict then Emit(1, [], true) else Emit(1, [ReplacementUnit()], false)
            else e == Emit(1, [HighUnit(ch - 0x10000), LowUnit(ch - 0x10000)], false)
    ensures IsSurrogate(ch) ==> IsBmp(ch)
  {
    if ch <= MAX_BMP {
      assert OneUnit(ch) == ch as Utf16;
    } else if ch <= MAX_LEGAL {
      SplitSum(ch);
    }
  }

  lemma {:induction false} SplitSum(ch: Utf32)
    requires MAX_BMP < ch <= MAX_LEGAL
    ensures HighUnit(ch - 0x10000) == HighOf(ch)
    ensures LowUnit(ch - 0x10000) == LowOf(ch)
  {
  }

  lemma {:induction false} PairSumIsValue(hi: Utf16, lo: Utf16)
    requires IsHigh(hi) && IsLow(lo)
    ensures PairSum(hi, lo) == PairValue(hi, lo)
  {
  }

  lemma {:induction false} Cases16(s: seq<Utf16>, flags: Flags)
    requires s != []
    ensures var c := Read16(s, flags);
            if IsHigh(s[0]) then
              if |s| == 1 then c == NoChar(SourceExhausted)
              else if IsLow(s[1]) then c == Char(2, PairSum(s[0], s[1]))
              else c == if flags == Strict then NoChar(SourceIllegal) else Char(1, Wide(s[0]))
            else if IsLow(s[0]) && flags == Strict then c == NoChar(SourceIllegal)
            else c == Char(1, Wide(s[0]))
  {
    if |s| > 1 && IsHigh(s[0]) && IsLow(s[1]) {
      PairSumIsValue(s[0], s[1]);
    }
  }

  lemma {:induction false} Cases16To32(s: seq<Utf16>, flags: Flags)
    requires s != []
    ensures var c, e := Read16(s, flags), From16To32(flags)(s);
            if c.NoChar? then e == Halt(c.why) else e == Emit(c.len, [c.ch], false)
  {
  }

  lemma {:induction false} Cases16To8(s: seq<Utf16>, flags: Flags)
    requires s != []
    ensures var c, e := Read16(s, flags), From16To8(flags)(s);
            if c.NoChar? then e == Halt(c.why)
            else !IsBeyond(c.ch) && e == Emit(c.len, Encode8(c.ch), false)
  {
  }

  lemma {:induction false} Cases32To8(s: seq<Utf32>, ch: Utf32, flags: Flags)
    requires s != [] && s[0] == ch
    ensures var e := From32To8(flags)(s);
            if flags == Strict && IsSurrogate(ch) then e == Halt(SourceIllegal)
            else if IsBeyond(ch) then e == Emit(1, Encode8(REPLACEMENT_CHAR), true)
            else e == Emit(1, Encode8(ch), false)
    ensures !IsBeyond(REPLACEMENT_CHAR) && |Encode8(REPLACEMENT_CHAR)| == 3
    ensures IsBeyond(ch) ==> !Below(ch, 0x80) && !Below(ch, 0x800) && !Below(ch, 0x10000)
  {
  }

  lemma {:induction false} ByteCount(ch: Utf32)
    requires !IsBeyond(ch)
    ensures |Encode8(ch)|
          == if Below(ch, 0x80) then 1 else if Below(ch, 0x800) then 2 else if Below(ch, 0x10000) then 3 else 4
    ensures Below(ch, 0x110000)
  {
  }

  lemma {:induction false} TrailByteIsTrail(ch: Utf32)
    ensures TrailByte(ch) == Trail(ch)
  {
  }

  lemma {:induction false} LeadByteIsLead(ch: Utf32)
    ensures ch < 0x80 ==> LeadByte(ch, 1) == ch as Utf8
    ensures ch < 0x800 ==> LeadByte(ShiftedBy6(ch), 2) == Lead2(ch)
    ensures ch < 0x10000 ==> LeadByte(ShiftedBy6(ShiftedBy6(ch)), 3) == Lead3(ch)
    ensures ch <= MAX_LEGAL ==> LeadByte(ShiftedBy6(ShiftedBy6(ShiftedBy6(ch))), 4) == Lead4(ch)
  {
  }

  lemma {:induction false} Shifts(ch: Utf32)
    ensures ShiftedBy6(ch) == ch >> 6 && ShiftedBy6(ShiftedBy6(ch)) == ch >> 12
  {
  }

  /** Table 3-6 from the last byte to the first, as the fall-through produces it. */
  lemma {:induction false} LastBytes(ch: Utf32)
    requires !IsBeyond(ch)
    ensures var c1 := ShiftedBy6(ch);
            var c2 := ShiftedBy6(c1);
            var c3 := ShiftedBy6(c2);
            var bytes := Encode8(ch);
            match |bytes|
            case 1 => bytes == [LeadByte(ch, 1)]
            case 2 => bytes == [LeadByte(c1, 2), TrailByte(ch)]
            case 3 => bytes == [LeadByte(c2, 3), TrailByte(c1), TrailByte(ch)]
            case _ => bytes == [LeadByte(c3, 4), TrailByte(c2), TrailByte(c1), TrailByte(ch)]
  {
    hide LeadByte, TrailByte, ShiftedBy6, Trail, Lead2, Lead3, Lead4;
    LeadByteIsLead(ch);
    Shifts(ch);
    TrailByteIsTrail(ch);
    TrailByteIsTrail(ShiftedBy6(ch));
    TrailByteIsTrail(ShiftedBy6(ShiftedBy6(ch)));
  }

  lemma {:induction false} Cases8To16(s: seq<Utf8>)
    requires s != []
    ensures var c, e := Read8(s), From8To16()(s);
            if c.NoChar? then e == Halt(c.why)
            else !IsSurrogate(c.ch) && !IsBeyond(c.ch) && e == Emit(c.len, Encode16(c.ch), false)
  {
  }

  lemma {:induction false} Units16(ch: Utf32)
    requires !IsBeyond(ch)
    ensures Encode16(ch) == if IsBmp(ch) then [OneUnit(ch)] else [HighUnit(ch - 0x10000), LowUnit(ch - 0x10000)]
  {
    if ch <= MAX_BMP {
      assert OneUnit(ch) == ch as Utf16;
    } else {
      SplitSum(ch);
    }
  }

  lemma {:induction false} Cases8To32(s: seq<Utf8>)
    requires s != []
    ensures var c, e := Read8(s), From8To32()(s);
            if c.NoChar? then e == Halt(c.why)
            else !IsSurrogate(c.ch) && !IsBeyond(c.ch) && e == Emit(c.len, [c.ch], false)
  {
  }
}
