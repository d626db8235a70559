/** The main results about the converters. */
module ConvertUtfTheorems {
  import opened Units
  import opened Unicode
  import opened Conversion
  import opened ConvertUtfSteps
  import opened ConvertUtfLaws

  ghost predicate Clean<T>(r: Outcome<T>, used: nat) {
    r.Result() == ConversionOK && r.at.used == used
  }

  // ----- round trips -----

  /** UTF-32 to UTF-8 and back, under any flags: every scalar text survives. */
  lemma {:induction false} RoundTrip32Via8(chs: seq<Utf32>, there: Flags, room: nat, roomBack: nat)
    requires AllScalar(chs) && |Text8(chs)| <= room && |chs| <= roomBack
    ensures var r := Convert(From32To8(there), false, chs, room);
            var back := Convert(From8To32(), false, r.at.units, roomBack);
            Clean(r, |chs|) && Clean(back, |r.at.units|) && back.at.units == chs
  {
    Text32To8(chs, there, room);
    Text8To32(chs, roomBack);
  }

  /** UTF-32 to UTF-16 and back. */
  lemma {:induction false} RoundTrip32Via16(chs: seq<Utf32>, there: Flags, back: Flags, room: nat, roomBack: nat)
    requires AllScalar(chs) && |Text16(chs)| <= room && |chs| <= roomBack
    ensures var r := Convert(From32To16(there), true, chs, room);
            var b := Convert(From16To32(back), false, r.at.units, roomBack);
            Clean(r, |chs|) && Clean(b, |r.at.units|) && b.at.units == chs
  {
    Text32To16(chs, there, room);
    Text16To32(chs, back, roomBack);
  }

  /** Well-formed UTF-16 to UTF-8 and back; three bytes for each unit are room enough. */
  lemma {:induction false} RoundTrip16Via8(s: seq<Utf16>, there: Flags, room: nat, roomBack: nat)
    requires WellFormedText16(s) && 3 * |s| <= room && |s| <= roomBack
    ensures var r := Convert(From16To8(there), false, s, room);
            var back := Convert(From8To16(), false, r.at.units, roomBack);
            Clean(r, |s|) && Clean(back, |r.at.units|) && back.at.units == s
  {
    var chs := Decode16Text(s);
    Text8Length(chs);
    Text16To8(chs, there, room);
    Text8To16(chs, roomBack);
  }

  lemma {:induction false} Text8Length(chs: seq<Utf32>)
    requires AllScalar(chs)
    ensures |Text8(chs)| <= 3 * |Text16(chs)|
  {
    if chs != [] {
      Text8Length(chs[1..]);
      Encode8Length(chs[0]);
    }
  }

  lemma {:induction false} Encode8Length(ch: Utf32)
    requires IsScalar(ch)
    ensures |Encode8(ch)| <= 3 * |Encode16(ch)|
  {
  }

  /**
   Bytes to code points and back. The bytes come back exactly if they are well-formed; a sequence
   with lead ED or F4 and a second byte below 0x80 is accepted as well, but comes back as another.
   */
  lemma {:induction false} RoundTrip8Via32(s: seq<Utf8>, flags: Flags, room: nat, roomBack: nat)
    requires |s| <= room
    ensures var r := Convert(From8To32(), false, s, room);
            && AllScalar(r.at.units)
            && (WellFormedText8(s) ==> Clean(r, |s|))
            && (Clean(r, |s|) && |Text8(r.at.units)| <= roomBack ==>
                  var back := Convert(From32To8(flags), false, r.at.units, roomBack);
                  Clean(back, |r.at.units|) && (back.at.units == s <==> WellFormedText8(s)))
  {
    var r := Convert(From8To32(), false, s, room);
    Decodes8To16(s, room, room, Start(), Start());
    var chs := r.at.units;
    Text8WellFormed(chs);
    if |Text8(chs)| <= roomBack {
      Text32To8(chs, flags, roomBack);
    }
    if WellFormedText8(s) {
      var parts: seq<seq<Utf8>> :| AllWellFormed8(parts) && Concat(parts) == s;
      var chs' := Decode8Text(parts);
      Text8Longer(chs');
      Text8To32(chs', room);
    }
  }

  lemma {:induction false} Text8Longer(chs: seq<Utf32>)
    requires AllScalar(chs)
    ensures |chs| <= |Text8(chs)|
  {
    if chs != [] {
      Text8Longer(chs[1..]);
    }
  }

  /** One of the sequences that slip through: ED 41 80 is read as U+C040, which is written EC 81 80. */
  lemma {:induction false} SlippedSequence()
    ensures var s: seq<Utf8> := [0xED, 0x41, 0x80];
            && Accepted(s) && !WellFormed8(s) && Read8(s) == Char(3, 0xC040)
            && Encode8(0xC040) == [0xEC, 0x81, 0x80]
  {
  }

  // ----- composition -----

  /** UTF-8 to UTF-16 and UTF-8 to UTF-32 take the same steps. */
  lemma {:induction false} Decodes8To16(s: seq<Utf8>, room16: nat, room32: nat, a: State<Utf32>, c: State<Utf16>)
    requires |s| <= room16 && |s| <= room32 && a.used == c.used <= |s|
    requires !a.flagged && !c.flagged && AllScalar(a.units) && c.units == Text16(a.units)
    requires |a.units| <= a.used && |c.units| <= c.used
    ensures var ra := Go(From8To32(), false, s, room32, a);
            var rc := Go(From8To16(), false, s, room16, c);
            && ra.stop == rc.stop != TargetFull && ra.at.used == rc.at.used && !ra.at.flagged && !rc.at.flagged
            && AllScalar(ra.at.units) && rc.at.units == Text16(ra.at.units)
            && |ra.at.units| <= ra.at.used && |rc.at.units| <= rc.at.used
    decreases |s| - a.used
  {
    hide Read8, Encode16;
    if a.used < |s| {
      var rest := s[a.used..];
      var read := Read8(rest);
      if read.Char? {
        Width16(rest);
        Text16More(a.units, read.ch);
        var ea, ec := Emit(read.len, [read.ch], false), Emit(read.len, Encode16(read.ch), false);
        GoOn(From8To32(), false, s, room32, a, ea);
        GoOn(From8To16(), false, s, room16, c, ec);
        Decodes8To16(s, room16, room32, a.After(ea), c.After(ec));
      }
    }
  }

  /** A character read from UTF-8 needs no more UTF-16 units than it had bytes. */
  lemma {:induction false} Width16(s: seq<Utf8>)
    requires s != [] && Read8(s).Char?
    ensures 1 <= |Encode16(Read8(s).ch)| <= Read8(s).len
  {
    hide Total2, Total3, Total4;
    if TrailingBytes(s[0]) == 0 {
      var b := s[..1];
      assert b[0] == s[0];
      OneByte(s[0]);
    }
  }

  lemma {:induction false} OneByte(b: Utf8)
    requires TrailingBytes(b) == 0
    ensures Total1(b) <= 0xFF
  {
  }

  /**
   For every byte array, well-formed or not: converting to UTF-16 directly is converting to UTF-32
   and on to UTF-16, with the same units, the same bytes consumed and the same result.
   */
  lemma {:induction false} Composition8To16(s: seq<Utf8>, flags: Flags, room: nat, room32: nat)
    requires |s| <= room && |s| <= room32
    ensures var direct := Convert(From8To16(), false, s, room);
            var via32 := Convert(From8To32(), false, s, room32);
            var on := Convert(From32To16(flags), true, via32.at.units, room);
            && Clean(on, |via32.at.units|)
            && direct.at.used == via32.at.used && direct.at.units == on.at.units
            && direct.Result() == via32.Result()
  {
    Decodes8To16(s, room, room32, Start(), Start());
    Text32To16(Convert(From8To32(), false, s, room32).at.units, flags, room);
  }

  /** Strict UTF-16 to UTF-8 and UTF-16 to UTF-32 take the same steps. */
  lemma {:induction false} Decodes16To8(s: seq<Utf16>, room8: nat, room32: nat, a: State<Utf32>, c: State<Utf8>)
    requires 3 * |s| <= room8 && |s| <= room32 && a.used == c.used <= |s|
    requires !a.flagged && !c.flagged && AllScalar(a.units) && c.units == Text8(a.units)
    requires |a.units| <= a.used && |c.units| <= 3 * c.used
    ensures var ra := Go(From16To32(Strict), false, s, room32, a);
            var rc := Go(From16To8(Strict), false, s, room8, c);
            && ra.stop == rc.stop != TargetFull && ra.at.used == rc.at.used && !ra.at.flagged && !rc.at.flagged
            && AllScalar(ra.at.units) && rc.at.units == Text8(ra.at.units) && |rc.at.units| <= 3 * |s|
    decreases |s| - a.used
  {
    hide Read16, Encode8;
    if a.used < |s| {
      var rest := s[a.used..];
      var read := Read16(rest, Strict);
      if read.Char? {
        Width8(rest, Strict);
        Text8More(a.units, read.ch);
        var ea, ec := Emit(read.len, [read.ch], false), Emit(read.len, Encode8(read.ch), false);
        GoOn(From16To32(Strict), false, s, room32, a, ea);
        GoOn(From16To8(Strict), false, s, room8, c, ec);
        Decodes16To8(s, room8, room32, a.After(ea), c.After(ec));
      }
    }
  }

  lemma {:induction false} Width8(s: seq<Utf16>, flags: Flags)
    requires s != [] && Read16(s, flags).Char?
    ensures |Encode8(Read16(s, flags).ch)| <= 3 * Read16(s, flags).len
  {
    hide PairValue;
  }

  /** The same for strict UTF-16 to UTF-8 through UTF-32. */
  lemma {:induction false} Composition16To8(s: seq<Utf16>, flags: Flags, room: nat, room32: nat)
    requires 3 * |s| <= room && |s| <= room32
    ensures var direct := Convert(From16To8(Strict), false, s, room);
            var via32 := Convert(From16To32(Strict), false, s, room32);
            var on := Convert(From32To8(flags), false, via32.at.units, room);
            && Clean(on, |via32.at.units|)
            && direct.at.used == via32.at.used && direct.at.units == on.at.units
            && direct.Result() == via32.Result()
  {
    Decodes16To8(s, room, room32, Start(), Start());
    Text32To8(Convert(From16To32(Strict), false, s, room32).at.units, flags, room);
  }

  // ----- the consumed prefix -----

  lemma {:induction false} Cuts8(s: seq<Utf8>, end: nat)
    requires end <= |s|
    ensures CutsCleanly(From8To16(), s, end) && CutsCleanly(From8To32(), s, end)
  {
    hide Read8, Encode16;
    forall j | 0 <= j < end
      ensures CutsAt(From8To16(), s, j, end) && CutsAt(From8To32(), s, j, end)
    {
      Cut8(s[j..], end - j);
      assert s[j..end] == s[j..][..end - j];
    }
  }

  lemma {:induction false} Cut8(s: seq<Utf8>, end: nat)
    requires s != [] && 0 < end <= |s|
    ensures Read8(s).Char? && Read8(s).len <= end ==> Read8(s[..end]) == Read8(s)
  {
    hide Total, Accepted;
    var extra := TrailingBytes(s[0]);
    if extra < end {
      assert s[..end][..extra + 1] == s[..extra + 1];
    }
  }

  lemma {:induction false} Cuts32(s: seq<Utf32>, end: nat, flags: Flags)
    requires end <= |s|
    ensures CutsCleanly(From32To16(flags), s, end) && CutsCleanly(From32To8(flags), s, end)
  {
    hide Encode8, Encode16;
    forall j | 0 <= j < end
      ensures CutsAt(From32To16(flags), s, j, end) && CutsAt(From32To8(flags), s, j, end)
    {
      assert s[j..end][0] == s[j..][0];
    }
  }

  /** Cutting UTF-16 behind a unit that is no high surrogate, or strictly, changes no step before the cut. */
  lemma {:induction false} Cuts16(s: seq<Utf16>, end: nat, flags: Flags)
    requires end <= |s| && (flags == Strict || end == 0 || !IsHigh(s[end - 1]))
    ensures CutsCleanly(From16To8(flags), s, end) && CutsCleanly(From16To32(flags), s, end)
  {
    hide Encode8, PairValue, IsHigh, IsLow;
    forall j | 0 <= j < end
      ensures CutsAt(From16To8(flags), s, j, end) && CutsAt(From16To32(flags), s, j, end)
    {
      Cut16(s[j..], end - j, flags);
      assert s[j..end] == s[j..][..end - j];
    }
  }

  lemma {:induction false} Cut16(s: seq<Utf16>, end: nat, flags: Flags)
    requires s != [] && 0 < end <= |s| && (flags == Strict || !IsHigh(s[end - 1]))
    ensures Read16(s, flags).Char? && Read16(s, flags).len <= end ==> Read16(s[..end], flags) == Read16(s, flags)
  {
    hide PairValue, IsHigh, IsLow;
    var cut := s[..end];
    assert cut[0] == s[0];
    if end > 1 {
      assert cut[1] == s[1];
    }
  }

  lemma {:induction false} PrefixConverts<S(!new), T>(step: seq<S> -> Step<T>, roomFirst: bool, s: seq<S>, room: nat)
    requires Productive(step)
    requires CutsCleanly(step, s, Convert(step, roomFirst, s, room).at.used)
    ensures var r := Convert(step, roomFirst, s, room);
            Convert(step, roomFirst, s[..r.at.used], room) == Outcome(r.at, SourceEnd)
  {
    Prefix(step, roomFirst, s, room, Start(), Convert(step, roomFirst, s, room));
  }

  /** What is written out of UTF-8 is the conversion of exactly what is consumed. */
  lemma {:induction false} ConsumedPrefix8(s: seq<Utf8>, room: nat)
    ensures var r := Convert(From8To16(), false, s, room);
            Convert(From8To16(), false, s[..r.at.used], room) == Outcome(r.at, SourceEnd)
    ensures var r := Convert(From8To32(), false, s, room);
            Convert(From8To32(), false, s[..r.at.used], room) == Outcome(r.at, SourceEnd)
  {
    hide Go, Read8;
    Cuts8(s, Convert(From8To16(), false, s, room).at.used);
    Cuts8(s, Convert(From8To32(), false, s, room).at.used);
    PrefixConverts(From8To16(), false, s, room);
    PrefixConverts(From8To32(), false, s, room);
  }

  /** The same out of UTF-32. */
  lemma {:induction false} ConsumedPrefix32(s: seq<Utf32>, flags: Flags, room: nat)
    ensures var r := Convert(From32To16(flags), true, s, room);
            Convert(From32To16(flags), true, s[..r.at.used], room) == Outcome(r.at, SourceEnd)
    ensures var r := Convert(From32To8(flags), false, s, room);
            Convert(From32To8(flags), false, s[..r.at.used], room) == Outcome(r.at, SourceEnd)
  {
    hide Go, Encode8, Encode16;
    Cuts32(s, Convert(From32To16(flags), true, s, room).at.used, flags);
    Cuts32(s, Convert(From32To8(flags), false, s, room).at.used, flags);
    PrefixConverts(From32To16(flags), true, s, room);
    PrefixConverts(From32To8(flags), false, s, room);
  }

  /** What is consumed does not end in a high surrogate that was let pass. */
  predicate EndsWhole(s: seq<Utf16>, used: nat, flags: Flags)
    requires used <= |s|
  {
    flags == Strict || used == 0 || !IsHigh(s[used - 1])
  }

  /**
   Out of UTF-16 this needs the consumed part to end otherwise than in a high surrogate that
   lenient conversion has let pass: on its own that unit is an unfinished pair.
   */
  lemma {:induction false} ConsumedPrefix16(s: seq<Utf16>, flags: Flags, room: nat)
    ensures var r := Convert(From16To8(flags), false, s, room);
            Convert(From16To8(flags), false, s[..r.at.used], room) == Outcome(r.at, SourceEnd) <==>
                EndsWhole(s, r.at.used, flags)
    ensures var r := Convert(From16To32(flags), false, s, room);
            Convert(From16To32(flags), false, s[..r.at.used], room) == Outcome(r.at, SourceEnd) <==>
                EndsWhole(s, r.at.used, flags)
  {
    hide Encode8, PairValue, Go, Read16;
    var r8, r32 := Convert(From16To8(flags), false, s, room), Convert(From16To32(flags), false, s, room);
    if EndsWhole(s, r8.at.used, flags) {
      Cuts16(s, r8.at.used, flags);
      PrefixConverts(From16To8(flags), false, s, room);
    } else {
      EndsInHigh(s[..r8.at.used], flags, room, Start());
    }
    if EndsWhole(s, r32.at.used, flags) {
      Cuts16(s, r32.at.used, flags);
      PrefixConverts(From16To32(flags), false, s, room);
    } else {
      EndsInHigh32(s[..r32.at.used], flags, room, Start());
    }
  }

  /** It can fail: a lone high surrogate let pass is no text of its own. */
  lemma {:induction false} HighPassed()
    ensures var s: seq<Utf16> := [0xD800, 0x41]; var r := Convert(From16To8(Lenient), false, s, 3);
            r.at.used == 1 && r.Result() == TargetExhausted
            && Convert(From16To8(Lenient), false, s[..1], 3).Result() == SourceExhausted
  {
    hide Go, From16To8, Encode8;
    var s: seq<Utf16> := [0xD800, 0x41];
    var step, bytes, e1 := From16To8(Lenient), Encode8(0xD800), Emit(1, Encode8(0x41), false);
    StepsPassed();
    assert s[0..] == s && s[1..] == [0x41] && s[..1] == [0xD800] && s[..1][0..] == [0xD800] && [] + bytes == bytes;
    GoOn(step, false, s, 3, Start(), Emit(1, bytes, false));
    GoFull(step, false, s, 3, State(1, bytes, false), e1);
    GoHalts(step, false, s[..1], 3, Start(), SourceExhausted);
  }

  lemma {:induction false} StepsPassed()
    ensures |Encode8(0xD800)| == 3 && |Encode8(0x41)| == 1
    ensures From16To8(Lenient)([0xD800, 0x41]) == Emit(1, Encode8(0xD800), false)
    ensures From16To8(Lenient)([0x41]) == Emit(1, Encode8(0x41), false)
    ensures From16To8(Lenient)([0xD800]) == Halt(SourceExhausted)
  {
  }

  /** A source that ends in a high surrogate is never used up. */
  lemma {:induction false} EndsInHigh(s: seq<Utf16>, flags: Flags, room: nat, at: State<Utf8>)
    requires s != [] && IsHigh(s[|s| - 1]) && at.used < |s|
    ensures Go(From16To8(flags), false, s, room, at).stop != SourceEnd
    decreases |s| - at.used
  {
    hide Encode8, PairValue;
    var rest := s[at.used..];
    var read := Read16(rest, flags);
    HighAtEnd(rest, flags);
    if read.Char? {
      EndsInHigh(s, flags, room, at.After(Emit(read.len, Encode8(read.ch), false)));
    }
  }

  lemma {:induction false} EndsInHigh32(s: seq<Utf16>, flags: Flags, room: nat, at: State<Utf32>)
    requires s != [] && IsHigh(s[|s| - 1]) && at.used < |s|
    ensures Go(From16To32(flags), false, s, room, at).stop != SourceEnd
    decreases |s| - at.used
  {
    hide PairValue;
    var rest := s[at.used..];
    var read := Read16(rest, flags);
    HighAtEnd(rest, flags);
    if read.Char? {
      EndsInHigh32(s, flags, room, at.After(Emit(read.len, [read.ch], false)));
    }
  }

  lemma {:induction false} HighAtEnd(s: seq<Utf16>, flags: Flags)
    requires s != [] && IsHigh(s[|s| - 1])
    ensures Read16(s, flags).Char? ==> Read16(s, flags).len < |s|
  {
    hide PairValue;
    if |s| == 2 {
      NotBoth(s[1]);
    }
  }

  lemma {:induction false} NotBoth(u: Utf16)
    requires IsHigh(u)
    ensures !IsLow(u)
  {
  }

  // ----- resumption -----

  /**
   Repeated calls, each with a target of its own size, write together what one call with room for
   everything writes, and consume the same.
   */
  lemma {:induction false} Resumption<S(!new), T>(step: seq<S> -> Step<T>, roomFirst: bool, s: seq<S>,
      rooms: seq<nat>, room: nat)
    requires Productive(step) && room >= Sum(rooms)
    requires LastCall(step, roomFirst, s, rooms).Result() != TargetExhausted
    ensures var r, whole := Restarted(step, roomFirst, s, rooms), Convert(step, roomFirst, s, room);
            whole.at.units == r.at.units && whole.at.used == r.at.used
  {
    Resumable(step, roomFirst, s, rooms, room);
    ResumedResult(step, roomFirst, s, rooms);
  }

  function Beyond(): (bad: Utf32 -> bool) {
    ch => IsBeyond(ch)
  }

  function Nothing<S>(): (bad: S -> bool) {
    u => false
  }

  /** Values above 0x10FFFF make a call to UTF-8 bad, and a strict one to UTF-16. */
  lemma {:induction false} BeyondIsBad(flags: Flags)
    ensures Marks(From32To8(flags), Beyond()) && Marks(From32To16(Strict), Beyond())
  {
    forall s: seq<Utf32> | s != []
      ensures MarksAt(From32To8(flags)(s), s, Beyond()) && MarksAt(From32To16(Strict)(s), s, Beyond())
    {
      BeyondFirst(s);
      hide Encode8, Encode16, AnyIn;
    }
  }

  lemma {:induction false} BeyondFirst(s: seq<Utf32>)
    requires s != []
    ensures AnyIn(s[..1], Beyond()) <==> s[0] > MAX_LEGAL
    ensures IsSurrogate(s[0]) ==> s[0] <= MAX_LEGAL
  {
    assert s[..1][0] == s[0];
  }

  /** Nothing else is bad. */
  lemma {:induction false} NothingIsBad(flags: Flags)
    ensures Marks(From8To16(), Nothing()) && Marks(From8To32(), Nothing())
    ensures Marks(From16To8(flags), Nothing()) && Marks(From16To32(flags), Nothing())
    ensures Marks(From32To16(Lenient), Nothing())
  {
    hide Read8, Read16, Encode8, Encode16;
  }

  function Surrogate(): (stops: Utf32 -> bool) {
    ch => IsSurrogate(ch)
  }

  function Never<S>(): (stops: S -> bool) {
    u => false
  }

  /** Strictly, nothing stops a conversion from UTF-32 but surrogates; leniently, nothing does. */
  lemma {:induction false} SurrogatesStop(flags: Flags)
    ensures StopsAt(From32To16(Strict), Surrogate())
    ensures StopsAt(From32To8(flags), if flags == Strict then Surrogate() else Never())
  {
    hide Encode8, Encode16;
  }

  lemma {:induction false} NeverIn<S>(s: seq<S>)
    ensures !AnyIn(s, Never())
  {
  }

  /** The source can be converted to its end. */
  ghost predicate Unstopped(s: seq<Utf32>, flags: Flags) {
    flags == Lenient || !AnyIn(s, Surrogate())
  }

  lemma {:induction false} IsUsedUp(s: seq<Utf32>, flags: Flags, room: nat)
    ensures var r := Convert(From32To8(flags), false, s, room); r.stop != TargetFull ==>
          (r.at.used == |s| <==> Unstopped(s, flags))
    ensures var r := Convert(From32To16(Strict), true, s, room); r.stop != TargetFull ==>
          (r.at.used == |s| <==> Unstopped(s, Strict))
  {
    SurrogatesStop(flags);
    NeverIn(s);
    assert s[0..] == s;
    hide Go, StopsAt, AnyIn, From32To8, From32To16;
    UsedUp(From32To8(flags), false, s, room, Start(), if flags == Strict then Surrogate() else Never());
    UsedUp(From32To16(Strict), true, s, room, Start(), Surrogate());
  }

  /**
   From UTF-32 to UTF-8, and strictly to UTF-16, the last call returns what one call returns, unless nothing
   stops the conversion, and a value above 0x10FFFF stands in front of where the last call starts, and none behind.
   */
  lemma {:induction false} LastResult32(s: seq<Utf32>, flags: Flags, rooms: seq<nat>, room: nat)
    requires room >= Sum(rooms)
    ensures var last, whole := LastCall(From32To8(flags), false, s, rooms), Convert(From32To8(flags), false, s, room);
            var start := LastStart(From32To8(flags), false, s, rooms);
            last.Result() != TargetExhausted ==>
              (last.Result() == whole.Result() <==>
                  !(Unstopped(s, flags) && AnyIn(s[..start], Beyond()) && !AnyIn(s[start..], Beyond())))
    ensures var last, whole := LastCall(From32To16(Strict), true, s, rooms), Convert(From32To16(Strict), true, s, room);
            var start := LastStart(From32To16(Strict), true, s, rooms);
            last.Result() != TargetExhausted ==>
              (last.Result() == whole.Result() <==>
                  !(Unstopped(s, Strict) && AnyIn(s[..start], Beyond()) && !AnyIn(s[start..], Beyond())))
  {
    BeyondIsBad(flags);
    IsUsedUp(s, flags, room);
    hide Go, LastCall, LastStart, Marks, AnyIn, From32To8, From32To16, Unstopped;
    if LastCall(From32To8(flags), false, s, rooms).Result() != TargetExhausted {
      LastResult(From32To8(flags), false, s, rooms, room, Beyond());
    }
    if LastCall(From32To16(Strict), true, s, rooms).Result() != TargetExhausted {
      LastResult(From32To16(Strict), true, s, rooms, room, Beyond());
    }
  }

  lemma {:induction false} SameResult<S(!new), T>(step: seq<S> -> Step<T>, roomFirst: bool, s: seq<S>,
      rooms: seq<nat>, room: nat)
    requires Productive(step) && Marks(step, Nothing()) && room >= Sum(rooms)
    requires LastCall(step, roomFirst, s, rooms).Result() != TargetExhausted
    ensures LastCall(step, roomFirst, s, rooms).Result() == Convert(step, roomFirst, s, room).Result()
  {
    hide Go, LastCall, Marks;
    LastResult(step, roomFirst, s, rooms, room, Nothing());
  }

  /** From UTF-8 and UTF-16, and leniently from UTF-32 to UTF-16, it always does. */
  lemma {:induction false} LastResultElsewhere(s8: seq<Utf8>, s16: seq<Utf16>, s32: seq<Utf32>, flags: Flags,
      rooms: seq<nat>, room: nat)
    requires room >= Sum(rooms)
    ensures var last := LastCall(From8To16(), false, s8, rooms).Result();
            last != TargetExhausted ==> last == Convert(From8To16(), false, s8, room).Result()
    ensures var last := LastCall(From8To32(), false, s8, rooms).Result();
            last != TargetExhausted ==> last == Convert(From8To32(), false, s8, room).Result()
    ensures var last := LastCall(From16To8(flags), false, s16, rooms).Result();
            last != TargetExhausted ==> last == Convert(From16To8(flags), false, s16, room).Result()
    ensures var last := LastCall(From16To32(flags), false, s16, rooms).Result();
            last != TargetExhausted ==> last == Convert(From16To32(flags), false, s16, room).Result()
    ensures var last := LastCall(From32To16(Lenient), true, s32, rooms).Result();
            last != TargetExhausted ==> last == Convert(From32To16(Lenient), true, s32, room).Result()
  {
    NothingIsBad(flags);
    hide Go, LastCall, Marks, From8To16, From8To32, From16To8, From16To32, From32To16;
    if LastCall(From8To16(), false, s8, rooms).Result() != TargetExhausted {
      SameResult(From8To16(), false, s8, rooms, room);
    }
    if LastCall(From8To32(), false, s8, rooms).Result() != TargetExhausted {
      SameResult(From8To32(), false, s8, rooms, room);
    }
    if LastCall(From16To8(flags), false, s16, rooms).Result() != TargetExhausted {
      SameResult(From16To8(flags), false, s16, rooms, room);
    }
    if LastCall(From16To32(flags), false, s16, rooms).Result() != TargetExhausted {
      SameResult(From16To32(flags), false, s16, rooms, room);
    }
    if LastCall(From32To16(Lenient), true, s32, rooms).Result() != TargetExhausted {
      SameResult(From32To16(Lenient), true, s32, rooms, room);
    }
  }

  /** The exception is real: strictly converting U+110000 and 'A' to UTF-8 in two calls ends in success. */
  lemma {:induction false} ResumptionForgets(flags: Flags)
    ensures var s: seq<Utf32> := [0x110000, 0x41];
            && Convert(From32To8(flags), false, s, 4).Result() == SourceIllegal
            && LastCall(From32To8(flags), false, s, [3, 1]).Result() == ConversionOK
  {
    hide Go, From32To8, Encode8;
    var s: seq<Utf32> := [0x110000, 0x41];
    var step, bytes, e1 := From32To8(flags), Encode8(REPLACEMENT_CHAR), Emit(1, [0x41], false);
    StepsForgotten(flags);
    assert s[0..] == s && s[1..] == [0x41] && [0x41][0..] == [0x41] && [] + bytes == bytes && [] + e1.units == e1.units;
    var e0 := Emit(1, bytes, true);
    GoOn(step, false, s, 4, Start(), e0);
    GoOn(step, false, s, 4, State(1, bytes, true), e1);
    GoEnds(step, false, s, 4, State(2, bytes + [0x41], true));
    GoOn(step, false, s, 3, Start(), e0);
    GoFull(step, false, s, 3, State(1, bytes, true), e1);
    GoOn(step, false, [0x41], 1, Start(), e1);
    GoEnds(step, false, [0x41], 1, State(1, [0x41], false));
    var rooms: seq<nat> := [3, 1];
    assert rooms[1..] == [1];
    assert LastCall(step, false, s, rooms) == LastCall(step, false, [0x41], [1]);
  }

  lemma {:induction false} StepsForgotten(flags: Flags)
    ensures !IsBeyond(REPLACEMENT_CHAR) && |Encode8(REPLACEMENT_CHAR)| == 3
    ensures From32To8(flags)([0x110000, 0x41]) == Emit(1, Encode8(REPLACEMENT_CHAR), true)
    ensures From32To8(flags)([0x41]) == Emit(1, [0x41], false)
  {
  }

  // ----- room -----

  lemma {:induction false} Bounds(flags: Flags)
    ensures Bounded(From8To16(), 1) && Bounded(From8To32(), 1)
    ensures Bounded(From16To8(flags), 3) && Bounded(From16To32(flags), 1)
    ensures Bounded(From32To8(flags), 4) && Bounded(From32To16(flags), 2)
  {
    hide Read8, Read16, Encode8, Encode16;
    forall s: seq<Utf8> | s != []
      ensures BoundedAt(From8To16()(s), 1) && BoundedAt(From8To32()(s), 1)
    {
      if Read8(s).Char? {
        Width16(s);
      }
    }
    forall s: seq<Utf16> | s != []
      ensures BoundedAt(From16To8(flags)(s), 3) && BoundedAt(From16To32(flags)(s), 1)
    {
      if Read16(s, flags).Char? {
        Width8(s, flags);
      }
    }
    forall s: seq<Utf32> | s != []
      ensures BoundedAt(From32To8(flags)(s), 4) && BoundedAt(From32To16(flags)(s), 2)
    {
      Width32(s[0]);
      Width32(REPLACEMENT_CHAR);
    }
  }

  lemma {:induction false} Width32(ch: Utf32)
    ensures !IsBeyond(ch) ==> |Encode16(ch)| <= 2
    ensures !IsBeyond(REPLACEMENT_CHAR)
  {
  }
}
