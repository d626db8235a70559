/**
 SI_ConvertW of conf/simpleini.h: the sizes it promises for conversions between the UTF-8 store and
 wide characters, which are UTF-32 or UTF-16 units by the width of wchar_t.
 */
module SiConvertW {
  import opened Units
  import opened Unicode
  import opened Conversion
  import opened ConvertUtfSteps
  import opened ConvertUtfTheorems
  import ConvertUtf

  /** A NUL-terminated string of `u` units at the start of a buffer. */
  predicate IsCString<T(==)>(s: seq<T>, u: nat, nul: T) {
    u < |s| && s[u] == nul && nul !in s[..u]
  }

  // ----- what the promised sizes are worth -----

  /** SizeFromStore: n bytes never need more than n wide characters. */
  lemma {:induction false} DecodingFits(s: seq<Utf8>, room: nat)
    requires |s| <= room
    ensures Convert(From8To16(), false, s, room).Result() != TargetExhausted
    ensures Convert(From8To32(), false, s, room).Result() != TargetExhausted
  {
    Bounds(Lenient);
    RoomSuffices(From8To16(), false, s, 1, room, Start());
    RoomSuffices(From8To32(), false, s, 1, room, Start());
    StopBlames(From8To16(), false, s, room, Start());
    StopBlames(From8To32(), false, s, room, Start());
  }

  /** A NUL is read on its own, and takes one byte. */
  ghost predicate NulAlone<S(!new), T>(step: seq<S> -> Step<T>, s: seq<S>) {
    s != [] && forall j | 0 <= j < |s| :: NulAloneAt(step(s[j..]), |s| - j)
  }

  ghost predicate NulAloneAt<T>(e: Step<T>, left: nat) {
    e.Emit? && (left == 1 ==> |e.units| == 1) && (left > 1 ==> e.len < left)
  }

  /** With no halting step, `k` target units for each unit but the NUL and one for the NUL suffice. */
  lemma {:induction false} RoomForCString<S(!new), T>(
    step: seq<S> -> Step<T>, s: seq<S>, k: nat, room: nat, at: State<T>)
    requires Productive(step) && Bounded(step, k) && k > 0 && NulAlone(step, s) && at.used < |s|
    requires |at.units| + k * (|s| - 1 - at.used) + 1 <= room
    ensures Go(step, false, s, room, at).stop == SourceEnd
    decreases |s| - at.used
  {
    var rest := s[at.used..];
    var e := step(rest);
    assert NulAloneAt(e, |s| - at.used) && ProductiveAt(e, rest) && BoundedAt(e, k);
    if at.used == |s| - 1 {
      Times(k, 0, 0);
      GoOn(step, false, s, room, at, e);
      GoEnds(step, false, s, room, at.After(e));
    } else {
      Times(k, e.len, |s| - 1 - at.used - e.len);
      GoOn(step, false, s, room, at, e);
      RoomForCString(step, s, k, room, at.After(e));
    }
  }

  /** Six bytes a unit and one for the NUL are enough for any string of UTF-16 units, paired or not. */
  lemma {:induction false} EncodingFits16(s: seq<Utf16>, u: nat, room: nat)
    requires IsCString(s, u, 0) && |s| == u + 1 && 6 * u + 1 <= room
    ensures var r := Convert(From16To8(Lenient), false, s, room);
            r.Result() == ConversionOK && r.at.used == |s|
  {
    hide Encode8, Read16;
    var step := From16To8(Lenient);
    forall j | 0 <= j < |s| ensures NulAloneAt(step(s[j..]), |s| - j) {
      Alone16(s[j..]);
    }
    Bounds(Lenient);
    Times(3, u, 0);
    RoomForCString(step, s, 3, room, Start());
    NeverFlags16(s, room, Start());
  }

  lemma {:induction false} Alone16(s: seq<Utf16>)
    requires s != [] && s[|s| - 1] == 0
    ensures NulAloneAt(From16To8(Lenient)(s), |s|)
  {
    hide PairValue;
    assert !IsHigh(0) && !IsLow(0);
    assert |Encode8(0)| == 1;
  }

  lemma {:induction false} NeverFlags16(s: seq<Utf16>, room: nat, at: State<Utf8>)
    requires at.used <= |s| && !at.flagged
    ensures var r := Go(From16To8(Lenient), false, s, room, at);
            !r.at.flagged && (r.stop == SourceEnd ==> r.at.used == |s|)
    decreases |s| - at.used
  {
    hide Encode8, Read16;
    if at.used < |s| {
      var read := Read16(s[at.used..], Lenient);
      if read.Char? {
        NeverFlags16(s, room, at.After(Emit(read.len, Encode8(read.ch), false)));
      }
    }
  }

  predicate AllLegal(s: seq<Utf32>) {
    forall i | 0 <= i < |s| :: !IsBeyond(s[i])
  }

  /** The same for UTF-32; the result is a success exactly if no unit lies above 0x10FFFF. */
  lemma {:induction false} EncodingFits32(s: seq<Utf32>, u: nat, room: nat)
    requires IsCString(s, u, 0) && |s| == u + 1 && 6 * u + 1 <= room
    ensures var r := Convert(From32To8(Lenient), false, s, room);
            r.at.used == |s| && r.Result() == if AllLegal(s) then ConversionOK else SourceIllegal
  {
    hide Encode8;
    var step := From32To8(Lenient);
    forall j | 0 <= j < |s| ensures NulAloneAt(step(s[j..]), |s| - j) {
      Alone32(s[j..]);
    }
    Bounds(Lenient);
    Times(4, u, 0);
    RoomForCString(step, s, 4, room, Start());
    Flags32(s, room, Start());
  }

  lemma {:induction false} Alone32(s: seq<Utf32>)
    requires s != [] && s[|s| - 1] == 0
    ensures NulAloneAt(From32To8(Lenient)(s), |s|)
  {
    assert |Encode8(0)| == 1;
  }

  lemma {:induction false} Flags32(s: seq<Utf32>, room: nat, at: State<Utf8>)
    requires at.used <= |s|
    ensures var r := Go(From32To8(Lenient), false, s, room, at);
            r.stop == SourceEnd ==> r.at.used == |s| && r.at.flagged == (at.flagged || !AllLegal(s[at.used..]))
    decreases |s| - at.used
  {
    hide Encode8;
    if at.used < |s| {
      var rest := s[at.used..];
      var e := From32To8(Lenient)(rest);
      assert rest[0] == s[at.used] && rest[1..] == s[at.used + 1..];
      assert AllLegal(rest) == (!IsBeyond(rest[0]) && AllLegal(rest[1..])) by { LegalTail(rest); }
      assert e.Emit? && e.len == 1 && e.bad == IsBeyond(rest[0]);
      Flags32(s, room, at.After(e));
    }
  }

  lemma {:induction false} LegalTail(s: seq<Utf32>)
    requires s != []
    ensures AllLegal(s) == (!IsBeyond(s[0]) && AllLegal(s[1..]))
  {
    if !IsBeyond(s[0]) && AllLegal(s[1..]) {
      forall i | 0 <= i < |s| ensures !IsBeyond(s[i]) {
        assert i > 0 ==> s[i] == s[1..][i - 1];
      }
    }
    if AllLegal(s) {
      forall i | 0 <= i < |s| - 1 ensures !IsBeyond(s[1..][i]) {
        assert s[1..][i] == s[i + 1];
      }
    }
  }

  // ----- the functions themselves -----

  /** As many wide characters as bytes, whichever width they have. */
  method SizeFromStore(input: array<Utf8>, inputLen: nat) returns (size: nat)
    requires inputLen <= input.Length
    ensures Convert(From8To16(), false, input[..inputLen], size).Result() != TargetExhausted
    ensures Convert(From8To32(), false, input[..inputLen], size).Result() != TargetExhausted
  {
    size := inputLen;
    DecodingFits(input[..inputLen], size);
  }

  /** Room for the string with its NUL. */
  method SizeToStore16(input: array<Utf16>, ghost u: nat) returns (size: nat)
    requires IsCString(input[..], u, 0)
    ensures Convert(From16To8(Lenient), false, input[..u + 1], size).Result() == ConversionOK
    ensures size == 6 * u + 1
  {
    var len := 0;
    while input[len] != 0
      invariant len <= u
      decreases u - len
    {
      len := len + 1;
    }
    size := 6 * len + 1;
    ghost var text := input[..u + 1];
    assert text[..u] == input[..u];
    EncodingFits16(text, u, size);
  }

  method SizeToStore32(input: array<Utf32>, ghost u: nat) returns (size: nat)
    requires IsCString(input[..], u, 0)
    ensures Convert(From32To8(Lenient), false, input[..u + 1], size).Result()
          == if AllLegal(input[..u + 1]) then ConversionOK else SourceIllegal
    ensures size == 6 * u + 1
  {
    var len := 0;
    while input[len] != 0
      invariant len <= u
      decreases u - len
    {
      len := len + 1;
    }
    size := 6 * len + 1;
    ghost var text := input[..u + 1];
    assert text[..u] == input[..u];
    EncodingFits32(text, u, size);
  }

  method ConvertFromStore32(input: array<Utf8>, inputLen: nat, output: array<Utf32>, outputSize: nat) returns (ok: bool)
    requires inputLen <= input.Length && outputSize <= output.Length
    modifies output
    ensures var r := Convert(From8To32(), false, input[..inputLen], outputSize);
            && ok == (r.Result() == ConversionOK)
            && ConvertUtf.Holds(output[..], old(output[..]), 0, r.at.units)
            && (outputSize >= inputLen ==> r.Result() != TargetExhausted)
  {
    var s, t, result := ConvertUtf.ConvertUTF8toUTF32(input, 0, inputLen, output, 0, outputSize, Lenient);
    assert input[0..inputLen] == input[..inputLen];
    if outputSize >= inputLen {
      DecodingFits(input[..inputLen], outputSize);
    }
    ok := result == ConversionOK;
  }

  method ConvertFromStore16(input: array<Utf8>, inputLen: nat, output: array<Utf16>, outputSize: nat) returns (ok: bool)
    requires inputLen <= input.Length && outputSize <= output.Length
    modifies output
    ensures var r := Convert(From8To16(), false, input[..inputLen], outputSize);
            && ok == (r.Result() == ConversionOK)
            && ConvertUtf.Holds(output[..], old(output[..]), 0, r.at.units)
            && (outputSize >= inputLen ==> r.Result() != TargetExhausted)
  {
    var s, t, result := ConvertUtf.ConvertUTF8toUTF16(input, 0, inputLen, output, 0, outputSize, Lenient);
    assert input[0..inputLen] == input[..inputLen];
    if outputSize >= inputLen {
      DecodingFits(input[..inputLen], outputSize);
    }
    ok := result == ConversionOK;
  }

  /** Given the size SizeToStore promises, this fails only for a unit above 0x10FFFF. */
  method ConvertToStore32(input: array<Utf32>, output: array<Utf8>, outputSize: nat, ghost u: nat) returns (ok: bool)
    requires IsCString(input[..], u, 0) && outputSize <= output.Length
    modifies output
    ensures var r := Convert(From32To8(Lenient), false, input[..u + 1], outputSize);
            ok == (r.Result() == ConversionOK) && ConvertUtf.Holds(output[..], old(output[..]), 0, r.at.units)
    ensures outputSize >= 6 * u + 1 ==> ok == AllLegal(input[..u + 1])
  {
    var len := 0;
    while input[len] != 0
      invariant len <= u
      decreases u - len
    {
      len := len + 1;
    }
    len := len + 1;
    var s, t, result := ConvertUtf.ConvertUTF32toUTF8(input, 0, len, output, 0, outputSize, Lenient);
    ghost var text := input[..u + 1];
    assert input[0..len] == text && text[..u] == input[..u];
    if outputSize >= 6 * u + 1 {
      EncodingFits32(text, u, outputSize);
    }
    ok := result == ConversionOK;
  }

  /** Given that size, this never fails. */
  method ConvertToStore16(input: array<Utf16>, output: array<Utf8>, outputSize: nat, ghost u: nat) returns (ok: bool)
    requires IsCString(input[..], u, 0) && outputSize <= output.Length
    modifies output
    ensures var r := Convert(From16To8(Lenient), false, input[..u + 1], outputSize);
            ok == (r.Result() == ConversionOK) && ConvertUtf.Holds(output[..], old(output[..]), 0, r.at.units)
    ensures outputSize >= 6 * u + 1 ==> ok
  {
    var len := 0;
    while input[len] != 0
      invariant len <= u
      decreases u - len
    {
      len := len + 1;
    }
    len := len + 1;
    var s, t, result := ConvertUtf.ConvertUTF16toUTF8(input, 0, len, output, 0, outputSize, Lenient);
    ghost var text := input[..u + 1];
    assert input[0..len] == text && text[..u] == input[..u];
    if outputSize >= 6 * u + 1 {
      EncodingFits16(text, u, outputSize);
    }
    ok := result == ConversionOK;
  }
}
