/** What the six converters promise together: round trips, composition, resumption, room. */
module ConvertUtfLaws {
  import opened Units
  import opened Sequences
  import opened Unicode
  import opened Conversion
  import opened ConvertUtfSteps

  // ----- texts of scalar values, character by character -----

  /** Wherever the source goes on with `from`, the step consumes exactly that and emits `to`. */
  ghost predicate Spells<S(!new), T>(step: seq<S> -> Step<T>, from: seq<S>, to: seq<T>) {
    from != [] && to != [] && forall rest: seq<S> :: step(from + rest) == Emit(|from|, to, false)
  }

  ghost predicate AllSpell<S(!new), T>(step: seq<S> -> Step<T>, parts: seq<seq<S>>, outs: seq<seq<T>>) {
    |parts| == |outs| && forall i | 0 <= i < |parts| :: Spells(step, parts[i], outs[i])
  }

  lemma {:induction false} Chain<S(!new), T>(
    step: seq<S> -> Step<T>, roomFirst: bool, src: seq<S>, room: nat,
    parts: seq<seq<S>>, outs: seq<seq<T>>, at: State<T>)
    requires Productive(step) && AllSpell(step, parts, outs)
    requires at.used <= |src| && src[at.used..] == Concat(parts)
    requires |at.units| + |Concat(outs)| <= room
    ensures Go(step, roomFirst, src, room, at) == Outcome(State(|src|, at.units + Concat(outs), at.flagged), SourceEnd)
    decreases |parts|
  {
    if parts != [] {
      assert Spells(step, parts[0], outs[0]);
      var e := Emit(|parts[0]|, outs[0], false);
      assert step(parts[0] + Concat(parts[1..])) == e;
      GoOn(step, roomFirst, src, room, at, e);
      assert src[at.used + e.len..] == src[at.used..][e.len..];
      Assoc(at.units, outs[0], Concat(outs[1..]));
      Chain(step, roomFirst, src, room, parts[1..], outs[1..], at.After(e));
    }
  }

  lemma {:induction false} Read8Encoded(ch: Utf32, rest: seq<Utf8>)
    requires IsScalar(ch)
    ensures Read8(Encode8(ch) + rest) == Char(|Encode8(ch)|, ch)
  {
    var s := Encode8(ch);
    Encode8WellFormed(ch);
    LeadLength(s);
    TotalDecodes(s);
    assert (s + rest)[0] == s[0] && (s + rest)[..|s|] == s;
  }

  /** The lead byte of a row of Table 3-7 tells the length of the row. */
  lemma {:induction false} LeadLength(s: seq<Utf8>)
    requires WellFormed8(s)
    ensures TrailingBytes(s[0]) == |s| - 1
  {
  }

  lemma {:induction false} Read16Encoded(ch: Utf32, rest: seq<Utf16>, flags: Flags)
    requires IsScalar(ch)
    ensures Read16(Encode16(ch) + rest, flags) == Char(|Encode16(ch)|, ch)
  {
    if ch > MAX_BMP {
      Encode16Surrogates(ch);
      Encode16Pair(ch);
      assert (Encode16(ch) + rest)[0] == HighOf(ch) && (Encode16(ch) + rest)[1] == LowOf(ch);
    } else {
      SmallUnit(ch);
      assert (Encode16(ch) + rest)[0] == ch as Utf16;
    }
  }

  lemma {:induction false} SmallUnit(ch: Utf32)
    requires IsScalar(ch) && ch <= MAX_BMP
    ensures !IsHigh(ch as Utf16) && !IsLow(ch as Utf16) && (ch as Utf16) as Utf32 == ch
  {
  }

  lemma {:induction false} Spells8(ch: Utf32)
    requires IsScalar(ch)
    ensures Spells(From8To16(), Encode8(ch), Encode16(ch))
    ensures Spells(From8To32(), Encode8(ch), [ch])
  {
    hide Encode8, Read8;
    forall rest: seq<Utf8> {
      Read8Encoded(ch, rest);
    }
  }

  lemma {:induction false} Spells16(ch: Utf32, flags: Flags)
    requires IsScalar(ch)
    ensures Spells(From16To8(flags), Encode16(ch), Encode8(ch))
    ensures Spells(From16To32(flags), Encode16(ch), [ch])
  {
    hide Encode8, Read16;
    forall rest: seq<Utf16> {
      Read16Encoded(ch, rest, flags);
    }
  }

  lemma {:induction false} Spells32(ch: Utf32, flags: Flags)
    requires IsScalar(ch)
    ensures Spells(From32To8(flags), [ch], Encode8(ch))
    ensures Spells(From32To16(flags), [ch], Encode16(ch))
  {
    hide Encode8, Encode16;
    assert Encode16(ch) != [] by { NonEmpty16(ch); }
  }

  lemma {:induction false} NonEmpty16(ch: Utf32)
    requires IsScalar(ch)
    ensures Encode16(ch) != []
  {
  }

  // ----- whole texts of scalar values, in every direction and under either flag -----

  function Done<T>(used: nat, units: seq<T>): Outcome<T> {
    Outcome(State(used, units, false), SourceEnd)
  }

  lemma {:induction false} Text32To8(chs: seq<Utf32>, flags: Flags, room: nat)
    requires AllScalar(chs) && |Text8(chs)| <= room
    ensures Convert(From32To8(flags), false, chs, room) == Done(|chs|, Text8(chs))
  {
    hide Encode8, Encode16, From32To8, Spells;
    var step := From32To8(flags);
    forall i | 0 <= i < |chs| ensures Spells(step, Parts32(chs)[i], Parts8(chs)[i]) {
      Spells32(chs[i], flags);
    }
    Concat32(chs);
    assert chs[0..] == chs;
    Chain(step, false, chs, room, Parts32(chs), Parts8(chs), Start());
  }

  lemma {:induction false} Text32To16(chs: seq<Utf32>, flags: Flags, room: nat)
    requires AllScalar(chs) && |Text16(chs)| <= room
    ensures Convert(From32To16(flags), true, chs, room) == Done(|chs|, Text16(chs))
  {
    hide Encode8, Encode16, From32To16, Spells;
    var step := From32To16(flags);
    forall i | 0 <= i < |chs| ensures Spells(step, Parts32(chs)[i], Parts16(chs)[i]) {
      Spells32(chs[i], flags);
    }
    Concat32(chs);
    assert chs[0..] == chs;
    Chain(step, true, chs, room, Parts32(chs), Parts16(chs), Start());
  }

  lemma {:induction false} Text16To8(chs: seq<Utf32>, flags: Flags, room: nat)
    requires AllScalar(chs) && |Text8(chs)| <= room
    ensures Convert(From16To8(flags), false, Text16(chs), room) == Done(|Text16(chs)|, Text8(chs))
  {
    hide Encode8, Encode16, From16To8, Spells;
    var step := From16To8(flags);
    forall i | 0 <= i < |chs| ensures Spells(step, Parts16(chs)[i], Parts8(chs)[i]) {
      Spells16(chs[i], flags);
    }
    assert Text16(chs)[0..] == Text16(chs);
    Chain(step, false, Text16(chs), room, Parts16(chs), Parts8(chs), Start());
  }

  lemma {:induction false} Text16To32(chs: seq<Utf32>, flags: Flags, room: nat)
    requires AllScalar(chs) && |chs| <= room
    ensures Convert(From16To32(flags), false, Text16(chs), room) == Done(|Text16(chs)|, chs)
  {
    hide Encode8, Encode16, From16To32, Spells;
    var step := From16To32(flags);
    forall i | 0 <= i < |chs| ensures Spells(step, Parts16(chs)[i], Parts32(chs)[i]) {
      Spells16(chs[i], flags);
    }
    Concat32(chs);
    assert Text16(chs)[0..] == Text16(chs);
    Chain(step, false, Text16(chs), room, Parts16(chs), Parts32(chs), Start());
  }

  lemma {:induction false} Text8To16(chs: seq<Utf32>, room: nat)
    requires AllScalar(chs) && |Text16(chs)| <= room
    ensures Convert(From8To16(), false, Text8(chs), room) == Done(|Text8(chs)|, Text16(chs))
  {
    hide Encode8, Encode16, From8To16, Spells;
    var step := From8To16();
    forall i | 0 <= i < |chs| ensures Spells(step, Parts8(chs)[i], Parts16(chs)[i]) {
      Spells8(chs[i]);
    }
    assert Text8(chs)[0..] == Text8(chs);
    Chain(step, false, Text8(chs), room, Parts8(chs), Parts16(chs), Start());
  }

  lemma {:induction false} Text8To32(chs: seq<Utf32>, room: nat)
    requires AllScalar(chs) && |chs| <= room
    ensures Convert(From8To32(), false, Text8(chs), room) == Done(|Text8(chs)|, chs)
  {
    hide Encode8, Encode16, From8To32, Spells;
    var step := From8To32();
    forall i | 0 <= i < |chs| ensures Spells(step, Parts8(chs)[i], Parts32(chs)[i]) {
      Spells8(chs[i]);
    }
    Concat32(chs);
    assert Text8(chs)[0..] == Text8(chs);
    Chain(step, false, Text8(chs), room, Parts8(chs), Parts32(chs), Start());
  }
}
