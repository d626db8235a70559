/**
 What the six converters share: they repeat one step over the source until the source ends,
 a step halts, or the target has no room for what the step emits.
 */
module Conversion {
  datatype Result = ConversionOK | SourceExhausted | TargetExhausted | SourceIllegal
  datatype Flags = Strict | Lenient

  /** One step at the head of a non-empty source. A `bad` step goes on, but leaves SourceIllegal behind. */
  datatype Step<T> =
    | Halt(why: Result)
    | Emit(len: nat, units: seq<T>, bad: bool)

  datatype Stop = SourceEnd | TargetFull | Blamed(why: Result)

  /** Where a conversion stands: source units consumed, target units written, bad steps seen. */
  datatype State<T> = State(used: nat, units: seq<T>, flagged: bool) {
    function After(e: Step<T>): State<T>
      requires e.Emit?
    {
      State(used + e.len, units + e.units, flagged || e.bad)
    }

    /** The state of a conversion that had reached `this` and then went from its beginning to `s`. */
    function Then(s: State<T>): State<T> {
      State(used + s.used, units + s.units, flagged || s.flagged)
    }
  }

  datatype Outcome<T> = Outcome(at: State<T>, stop: Stop) {
    function Result(): Result {
      match stop
      case SourceEnd => if at.flagged then SourceIllegal else ConversionOK
      case TargetFull => TargetExhausted
      case Blamed(why) => why
    }
  }

  /** A step that emits consumes something, and a step that halts blames the source. */
  ghost predicate Productive<S(!new), T>(step: seq<S> -> Step<T>) {
    forall s: seq<S> | s != [] :: ProductiveAt(step(s), s)
  }

  ghost predicate ProductiveAt<S, T>(r: Step<T>, s: seq<S>) {
    match r
    case Halt(why) => why == SourceExhausted || why == SourceIllegal
    case Emit(len, _, _) => 0 < len <= |s|
  }

  /** `roomFirst`: the target is checked for being full before the source is looked at. */
  function Go<S(!new), T>(step: seq<S> -> Step<T>, roomFirst: bool, src: seq<S>, room: nat,
      at: State<T>): (r: Outcome<T>)
    requires Productive(step) && at.used <= |src|
    ensures at.used <= r.at.used <= |src|
    ensures |at.units| <= room ==> |r.at.units| <= room
    decreases |src| - at.used
  {
    if at.used == |src| then Outcome(at, SourceEnd)
    else if roomFirst && |at.units| >= room then Outcome(at, TargetFull)
    else
      var e := step(src[at.used..]);
      if e.Halt? then Outcome(at, Blamed(e.why))
      else if |at.units| + |e.units| > room then Outcome(at, TargetFull)
      else Go(step, roomFirst, src, room, at.After(e))
  }

  lemma {:induction false} GoOn<S(!new), T>(step: seq<S> -> Step<T>, roomFirst: bool, src: seq<S>, room: nat,
      at: State<T>, e: Step<T>)
    requires Productive(step) && at.used < |src| && e == step(src[at.used..]) && e.Emit?
    requires !(roomFirst && |at.units| >= room) && |at.units| + |e.units| <= room
    ensures at.After(e).used <= |src|
    ensures at.After(e) == State(at.used + e.len, at.units + e.units, at.flagged || e.bad)
    ensures Go(step, roomFirst, src, room, at) == Go(step, roomFirst, src, room, at.After(e))
  {
  }

  lemma {:induction false} GoHalts<S(!new), T>(step: seq<S> -> Step<T>, roomFirst: bool, src: seq<S>, room: nat,
      at: State<T>, why: Result)
    requires Productive(step) && at.used < |src| && step(src[at.used..]) == Halt(why)
    requires !(roomFirst && |at.units| >= room)
    ensures var r := Go(step, roomFirst, src, room, at); r.at == at && r.Result() == why
  {
  }

  lemma {:induction false} GoFull<S(!new), T>(step: seq<S> -> Step<T>, roomFirst: bool, src: seq<S>, room: nat,
      at: State<T>, e: Step<T>)
    requires Productive(step) && at.used < |src| && e == step(src[at.used..])
    requires (roomFirst && |at.units| >= room) || (e.Emit? && |at.units| + |e.units| > room)
    ensures var r := Go(step, roomFirst, src, room, at);
            r == Outcome(at, TargetFull) && r.at == at && r.Result() == TargetExhausted
  {
  }

  lemma {:induction false} GoEnds<S(!new), T>(step: seq<S> -> Step<T>, roomFirst: bool, src: seq<S>, room: nat,
      at: State<T>)
    requires Productive(step) && at.used <= |src|
    ensures at.used == |src| ==>
              var r := Go(step, roomFirst, src, room, at);
              r.at == at && r.Result() == if at.flagged then SourceIllegal else ConversionOK
  {
  }

  function Start<T>(): State<T> {
    State(0, [], false)
  }

  function Convert<S(!new), T>(step: seq<S> -> Step<T>, roomFirst: bool, src: seq<S>, room: nat): (r: Outcome<T>)
    requires Productive(step)
    ensures r.at.used <= |src| && |r.at.units| <= room
  {
    Go(step, roomFirst, src, room, Start())
  }

  /** More room takes a conversion through the same states; it stops elsewhere only where the target was full. */
  lemma {:induction false} MoreRoom<S(!new), T>(
    step: seq<S> -> Step<T>, roomFirst: bool, src: seq<S>, room: nat, more: nat, at: State<T>)
    requires Productive(step) && at.used <= |src| && room <= more
    ensures var r := Go(step, roomFirst, src, room, at);
            Go(step, roomFirst, src, more, at)
            == if r.stop == TargetFull then Go(step, roomFirst, src, more, r.at) else r
    decreases |src| - at.used
  {
    if at.used < |src| && !(roomFirst && |at.units| >= room) {
      var e := step(src[at.used..]);
      if e.Emit? && |at.units| + |e.units| <= room {
        MoreRoom(step, roomFirst, src, room, more, at.After(e));
      }
    }
  }

  /** Converting from the middle of a source is converting its rest, with the target moved along. */
  lemma {:induction false} Shift<S(!new), T>(
    step: seq<S> -> Step<T>, roomFirst: bool, src: seq<S>, room: nat, from: State<T>, at: State<T>)
    requires Productive(step) && from.used + at.used <= |src|
    ensures var r := Go(step, roomFirst, src[from.used..], room, at);
            Go(step, roomFirst, src, |from.units| + room, from.Then(at)) == Outcome(from.Then(r.at), r.stop)
    decreases |src| - at.used
  {
    assert src[from.used..][at.used..] == src[from.used + at.used..];
    if from.used + at.used < |src| && !(roomFirst && |at.units| >= room) {
      var e := step(src[from.used + at.used..]);
      if e.Emit? && |at.units| + |e.units| <= room {
        assert from.Then(at).After(e) == from.Then(at.After(e)) by {
          assert from.units + at.units + e.units == from.units + (at.units + e.units);
        }
        Shift(step, roomFirst, src, room, from, at.After(e));
      }
    }
  }

  // ----- repeated calls with bounded targets -----

  function Sum(rooms: seq<nat>): nat {
    if rooms == [] then 0 else rooms[0] + Sum(rooms[1..])
  }

  /** Calls repeated from where the last one stopped, each with its own room, while the target fills up. */
  function Restarted<S(!new), T>(step: seq<S> -> Step<T>, roomFirst: bool, src: seq<S>,
      rooms: seq<nat>): (r: Outcome<T>)
    requires Productive(step)
    ensures r.at.used <= |src| && |r.at.units| <= Sum(rooms)
    decreases |rooms|
  {
    if rooms == [] then Outcome(Start(), TargetFull)
    else
      var first := Convert(step, roomFirst, src, rooms[0]);
      if first.stop != TargetFull then first
      else
        var rest := Restarted(step, roomFirst, src[first.at.used..], rooms[1..]);
        Outcome(first.at.Then(rest.at), rest.stop)
  }

  /** The last of those calls on its own: it has forgotten the bad steps of the calls before it. */
  function LastCall<S(!new), T>(step: seq<S> -> Step<T>, roomFirst: bool, src: seq<S>, rooms: seq<nat>): Outcome<T>
    requires Productive(step)
    decreases |rooms|
  {
    if rooms == [] then Outcome(Start(), TargetFull)
    else
      var first := Convert(step, roomFirst, src, rooms[0]);
      if first.stop != TargetFull then first
      else LastCall(step, roomFirst, src[first.at.used..], rooms[1..])
  }

  /** Where the last of those calls starts, which depends on the calls before it alone. */
  function LastStart<S(!new), T>(step: seq<S> -> Step<T>, roomFirst: bool, src: seq<S>, rooms: seq<nat>): (start: nat)
    requires Productive(step)
    ensures start <= |src|
    decreases |rooms|
  {
    if rooms == [] then 0
    else
      var first := Convert(step, roomFirst, src, rooms[0]);
      if first.stop != TargetFull then 0
      else first.at.used + LastStart(step, roomFirst, src[first.at.used..], rooms[1..])
  }

  /** Repeated calls write and consume what one call with all their room together does. */
  lemma {:induction false} Resumable<S(!new), T>(
    step: seq<S> -> Step<T>, roomFirst: bool, src: seq<S>, rooms: seq<nat>, room: nat)
    requires Productive(step) && room >= Sum(rooms)
    ensures var r := Restarted(step, roomFirst, src, rooms);
            Convert(step, roomFirst, src, room)
            == if r.stop == TargetFull then Go(step, roomFirst, src, room, r.at) else r
    decreases |rooms|
  {
    if rooms != [] {
      var first := Convert(step, roomFirst, src, rooms[0]);
      MoreRoom(step, roomFirst, src, rooms[0], room, Start());
      if first.stop == TargetFull {
        var left := room - |first.at.units|;
        var rest := Restarted(step, roomFirst, src[first.at.used..], rooms[1..]);
        Resumable(step, roomFirst, src[first.at.used..], rooms[1..], left);
        Continue(step, roomFirst, src, left, first.at, rest);
      }
    }
  }

  lemma {:induction false} Continue<S(!new), T>(
    step: seq<S> -> Step<T>, roomFirst: bool, src: seq<S>, left: nat, from: State<T>, rest: Outcome<T>)
    requires Productive(step) && from.used + rest.at.used <= |src|
    requires Convert(step, roomFirst, src[from.used..], left)
             == if rest.stop == TargetFull then Go(step, roomFirst, src[from.used..], left, rest.at) else rest
    ensures Go(step, roomFirst, src, |from.units| + left, from)
            == if rest.stop == TargetFull then Go(step, roomFirst, src, |from.units| + left, from.Then(rest.at))
               else Outcome(from.Then(rest.at), rest.stop)
  {
    assert from.Then(Start()) == from;
    Shift(step, roomFirst, src, left, from, Start());
    if rest.stop == TargetFull {
      Shift(step, roomFirst, src, left, from, rest.at);
    }
  }

  /**
   The last call returns what the one long call returns, unless the source ran out
   and bad steps occurred in earlier calls only.
   */
  lemma {:induction false} ResumedResult<S(!new), T>(
    step: seq<S> -> Step<T>, roomFirst: bool, src: seq<S>, rooms: seq<nat>)
    requires Productive(step)
    ensures var r, last := Restarted(step, roomFirst, src, rooms), LastCall(step, roomFirst, src, rooms);
            && r.stop == last.stop && (last.at.flagged ==> r.at.flagged)
            && (last.Result() == r.Result() <==> (r.stop == SourceEnd && r.at.flagged ==> last.at.flagged))
    decreases |rooms|
  {
    if rooms != [] {
      var first := Convert(step, roomFirst, src, rooms[0]);
      if first.stop == TargetFull {
        ResumedResult(step, roomFirst, src[first.at.used..], rooms[1..]);
      }
    }
  }

  lemma {:induction false} StopBlames<S(!new), T>(
    step: seq<S> -> Step<T>, roomFirst: bool, src: seq<S>, room: nat, at: State<T>)
    requires Productive(step) && at.used <= |src|
    ensures var r := Go(step, roomFirst, src, room, at);
            r.Result() == TargetExhausted <==> r.stop == TargetFull
    decreases |src| - at.used
  {
    if at.used < |src| {
      var e := step(src[at.used..]);
      assert ProductiveAt(e, src[at.used..]);
      if e.Emit? {
        StopBlames(step, roomFirst, src, room, at.After(e));
      }
    }
  }

  // ----- bad units -----

  /** A step is bad just when it consumes a bad unit. */
  ghost predicate Marks<S(!new), T>(step: seq<S> -> Step<T>, bad: S -> bool) {
    forall s: seq<S> | s != [] :: MarksAt(step(s), s, bad)
  }

  ghost predicate MarksAt<S, T>(e: Step<T>, s: seq<S>, bad: S -> bool) {
    e.Emit? ==> e.len <= |s| && (e.bad <==> AnyIn(s[..e.len], bad))
  }

  ghost predicate AnyIn<S>(s: seq<S>, bad: S -> bool) {
    exists i :: 0 <= i < |s| && bad(s[i])
  }

  lemma {:induction false} AnyInBoth<S>(s: seq<S>, t: seq<S>, bad: S -> bool)
    ensures AnyIn(s + t, bad) <==> AnyIn(s, bad) || AnyIn(t, bad)
  {
    if i :| 0 <= i < |s| && bad(s[i]) {
      assert (s + t)[i] == s[i];
    }
    if i :| 0 <= i < |t| && bad(t[i]) {
      assert (s + t)[|s| + i] == t[i];
    }
  }

  /** A conversion is flagged just when it has consumed a bad unit. */
  lemma {:induction false} FlaggedIs<S(!new), T>(
    step: seq<S> -> Step<T>, roomFirst: bool, src: seq<S>, room: nat, at: State<T>, bad: S -> bool)
    requires Productive(step) && Marks(step, bad) && at.used <= |src|
    ensures var r := Go(step, roomFirst, src, room, at);
            r.at.flagged <==> at.flagged || AnyIn(src[at.used..r.at.used], bad)
    decreases |src| - at.used
  {
    if at.used < |src| && !(roomFirst && |at.units| >= room) {
      var rest := src[at.used..];
      var e := step(rest);
      if e.Emit? && |at.units| + |e.units| <= room {
        assert MarksAt(e, rest, bad) && ProductiveAt(e, rest);
        FlaggedIs(step, roomFirst, src, room, at.After(e), bad);
        var r := Go(step, roomFirst, src, room, at);
        var mid := at.used + e.len;
        assert rest[..e.len] == src[at.used..mid];
        assert src[at.used..r.at.used] == src[at.used..mid] + src[mid..r.at.used];
        AnyInBoth(src[at.used..mid], src[mid..r.at.used], bad);
      }
    }
  }

  /** The last of repeated calls is a conversion of its own, of what the calls before it left. */
  lemma {:induction false} LastCallIs<S(!new), T>(step: seq<S> -> Step<T>, roomFirst: bool, src: seq<S>,
      rooms: seq<nat>) returns (room: nat)
    requires Productive(step) && LastCall(step, roomFirst, src, rooms).stop != TargetFull
    ensures var last, start := LastCall(step, roomFirst, src, rooms), LastStart(step, roomFirst, src, rooms);
            && last == Convert(step, roomFirst, src[start..], room)
            && start + last.at.used == Restarted(step, roomFirst, src, rooms).at.used
    decreases |rooms|
  {
    hide Convert, Productive;
    var first := Convert(step, roomFirst, src, rooms[0]);
    if first.stop != TargetFull {
      room := rooms[0];
      assert src[0..] == src;
    } else {
      var rest := src[first.at.used..];
      room := LastCallIs(step, roomFirst, rest, rooms[1..]);
      var start := LastStart(step, roomFirst, rest, rooms[1..]);
      assert rest[start..] == src[first.at.used + start..];
    }
  }

  lemma {:induction false} EndIsUsedUp<S(!new), T>(step: seq<S> -> Step<T>, roomFirst: bool, src: seq<S>, room: nat,
      at: State<T>)
    requires Productive(step) && at.used <= |src|
    ensures var r := Go(step, roomFirst, src, room, at); r.stop == SourceEnd <==> r.at.used == |src|
    decreases |src| - at.used
  {
    if at.used < |src| && !(roomFirst && |at.units| >= room) {
      var e := step(src[at.used..]);
      if e.Emit? && |at.units| + |e.units| <= room {
        EndIsUsedUp(step, roomFirst, src, room, at.After(e));
      }
    }
  }

  /**
   The last call returns what one call returns, except where the source is used up, what earlier
   calls consumed has a bad unit, and what is left to the last call has none.
   */
  lemma {:induction false} LastResult<S(!new), T>(
    step: seq<S> -> Step<T>, roomFirst: bool, src: seq<S>, rooms: seq<nat>, room: nat, bad: S -> bool)
    requires Productive(step) && Marks(step, bad) && room >= Sum(rooms)
    requires LastCall(step, roomFirst, src, rooms).stop != TargetFull
    ensures Convert(step, roomFirst, src, room).stop != TargetFull
    ensures var last, whole := LastCall(step, roomFirst, src, rooms), Convert(step, roomFirst, src, room);
            var start := LastStart(step, roomFirst, src, rooms);
            last.Result() == whole.Result() <==>
              !(whole.at.used == |src| && AnyIn(src[..start], bad) && !AnyIn(src[start..], bad))
  {
    hide Go, Restarted, LastCall, LastStart, Marks;
    Resumable(step, roomFirst, src, rooms, room);
    ResumedResult(step, roomFirst, src, rooms);
    var r, last, whole := Restarted(step, roomFirst, src, rooms), LastCall(step, roomFirst, src, rooms),
        Convert(step, roomFirst, src, room);
    var lastRoom := LastCallIs(step, roomFirst, src, rooms);
    var start := LastStart(step, roomFirst, src, rooms);
    FlaggedIs(step, roomFirst, src, room, Start(), bad);
    FlaggedIs(step, roomFirst, src[start..], lastRoom, Start(), bad);
    EndIsUsedUp(step, roomFirst, src, room, Start());
    if whole.at.used == |src| {
      assert src[0..|src|] == src[..start] + src[start..];
      assert src[start..][0..last.at.used] == src[start..];
      AnyInBoth(src[..start], src[start..], bad);
    }
  }

  // ----- units that stop a conversion -----

  /** A step takes one unit, and stops just at these. */
  ghost predicate StopsAt<S(!new), T>(step: seq<S> -> Step<T>, stops: S -> bool) {
    forall s: seq<S> | s != [] :: StopsHere(step(s), s, stops)
  }

  ghost predicate StopsHere<S, T>(e: Step<T>, s: seq<S>, stops: S -> bool)
    requires s != []
  {
    if stops(s[0]) then e.Halt? else e.Emit? && e.len == 1
  }

  /** Given room, the source is used up just when none of them is in it. */
  lemma {:induction false} UsedUp<S(!new), T>(
    step: seq<S> -> Step<T>, roomFirst: bool, src: seq<S>, room: nat, at: State<T>, stops: S -> bool)
    requires Productive(step) && StopsAt(step, stops) && at.used <= |src|
    ensures var r := Go(step, roomFirst, src, room, at);
            r.stop != TargetFull ==> (r.at.used == |src| <==> !AnyIn(src[at.used..], stops))
    decreases |src| - at.used
  {
    if at.used < |src| {
      var rest := src[at.used..];
      var e := step(rest);
      assert StopsHere(e, rest, stops);
      assert rest[0] == src[at.used];
      if e.Emit? {
        UsedUp(step, roomFirst, src, room, at.After(e), stops);
        assert rest == [src[at.used]] + src[at.used + 1..];
        AnyInBoth([src[at.used]], src[at.used + 1..], stops);
        assert !AnyIn([src[at.used]], stops);
      }
    }
  }

  // ----- the consumed prefix on its own -----

  /** Cutting the source at `end` changes none of the steps that stay within it. */
  ghost predicate CutsCleanly<S(!new), T>(step: seq<S> -> Step<T>, src: seq<S>, end: nat)
    requires end <= |src|
  {
    forall j | 0 <= j < end :: CutsAt(step, src, j, end)
  }

  ghost predicate CutsAt<S, T>(step: seq<S> -> Step<T>, src: seq<S>, j: nat, end: nat)
    requires j < end <= |src|
  {
    var e := step(src[j..]);
    e.Emit? && j + e.len <= end ==> step(src[j..end]) == e
  }

  /** What was written is the conversion of what was consumed. */
  lemma {:induction false} Prefix<S(!new), T>(
    step: seq<S> -> Step<T>, roomFirst: bool, src: seq<S>, room: nat, at: State<T>, r: Outcome<T>)
    requires Productive(step) && at.used <= |src| && r == Go(step, roomFirst, src, room, at)
    requires CutsCleanly(step, src, r.at.used)
    ensures Go(step, roomFirst, src[..r.at.used], room, at) == Outcome(r.at, SourceEnd)
    decreases |src| - at.used
  {
    if at.used < r.at.used {
      assert CutsAt(step, src, at.used, r.at.used);
      assert src[..r.at.used][at.used..] == src[at.used..r.at.used];
      Prefix(step, roomFirst, src, room, at.After(step(src[at.used..])), r);
    }
  }

  // ----- how much room is enough -----

  /** At most `k` target units for each source unit. */
  ghost predicate Bounded<S(!new), T>(step: seq<S> -> Step<T>, k: nat) {
    forall s: seq<S> | s != [] :: BoundedAt(step(s), k)
  }

  ghost predicate BoundedAt<T>(e: Step<T>, k: nat) {
    e.Emit? ==> |e.units| <= k * e.len
  }

  lemma {:induction false} RoomSuffices<S(!new), T>(
    step: seq<S> -> Step<T>, roomFirst: bool, src: seq<S>, k: nat, room: nat, at: State<T>)
    requires Productive(step) && Bounded(step, k) && k > 0 && at.used <= |src|
    requires |at.units| + k * (|src| - at.used) <= room
    ensures Go(step, roomFirst, src, room, at).stop != TargetFull
    decreases |src| - at.used
  {
    if at.used < |src| {
      assert k * (|src| - at.used) >= k by { Times(k, 1, |src| - at.used - 1); }
      var e := step(src[at.used..]);
      if e.Emit? {
        assert ProductiveAt(e, src[at.used..]) && BoundedAt(e, k);
        Times(k, e.len, |src| - at.used - e.len);
        RoomSuffices(step, roomFirst, src, k, room, at.After(e));
      }
    }
  }

  lemma {:induction false} Times(k: nat, a: nat, b: nat)
    ensures k * (a + b) == k * a + k * b && k * b >= 0
  {
  }
}
