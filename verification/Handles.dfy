/** HandleManager of handlemanager.cpp: handles of prepared statements and cursors, and the ids that clients see. */
module Handles {
  import opened Options

  const MAX_ID: nat := 0xFFFF_FFFF

  // ----- keys -----

  datatype Handle = Handle(prepared: nat, cursor: nat)

  /** The comparison of the map's keys. */
  predicate Less(x: Handle, y: Handle) {
    if x.prepared < y.prepared && x.cursor <= y.cursor then true
    else if x.cursor < y.cursor then true
    else false
  }

  /** It orders by cursor, then by prepared statement. */
  lemma {:induction false} LessIsLexicographic(x: Handle, y: Handle)
    ensures Less(x, y) <==> x.cursor < y.cursor || (x.cursor == y.cursor && x.prepared < y.prepared)
  {
  }

  /** So two keys are one entry of the map only if they are equal. */
  lemma {:induction false} LessIsTotal(x: Handle, y: Handle, z: Handle)
    ensures !Less(x, x)
    ensures Less(x, y) && Less(y, z) ==> Less(x, z)
    ensures !Less(x, y) && !Less(y, x) <==> x == y
  {
    LessIsLexicographic(x, y);
  }

  // ----- ids -----

  /** The id `k` places behind `last`; behind the greatest 32-bit number comes 1. */
  function At(last: nat, k: nat): (r: nat)
    requires 1 <= last <= MAX_ID && k <= MAX_ID
    ensures 1 <= r <= MAX_ID
  {
    if last + k <= MAX_ID then last + k else last + k - MAX_ID
  }

  /** How far `id` is behind `last`. */
  function Distance(last: nat, id: nat): (k: nat)
    requires 1 <= last <= MAX_ID && 1 <= id <= MAX_ID
    ensures k < MAX_ID && At(last, k) == id
  {
    if id >= last then id - last else id + MAX_ID - last
  }

  /** The first unused id behind `last`, or none. */
  ghost predicate Allocated(last: nat, flags: set<nat>, id: Option<nat>)
    requires 1 <= last <= MAX_ID
  {
    match id
    case None => forall k | 1 <= k < MAX_ID :: At(last, k) in flags
    case Some(i) =>
      && 1 <= i <= MAX_ID && i != last && i !in flags
      && forall k | 1 <= k < Distance(last, i) :: At(last, k) in flags
  }

  /** There is none just when every id but the last one is used. */
  lemma {:induction false} NoneLeft(last: nat, flags: set<nat>, id: Option<nat>)
    requires 1 <= last <= MAX_ID && Allocated(last, flags, id)
    ensures id.None? <==> forall i | 1 <= i <= MAX_ID && i != last :: i in flags
  {
    if id.None? {
      forall i | 1 <= i <= MAX_ID && i != last
        ensures i in flags
      {
        assert At(last, Distance(last, i)) in flags;
      }
    }
  }

  lemma {:induction false} OnlyOne(last: nat, flags: set<nat>, id: Option<nat>, id': Option<nat>)
    requires 1 <= last <= MAX_ID && Allocated(last, flags, id) && Allocated(last, flags, id')
    ensures id == id'
  {
    NoneLeft(last, flags, id);
    NoneLeft(last, flags, id');
    if id.Some? && id'.Some? {
      var j, k := Distance(last, id.value), Distance(last, id'.value);
      assert At(last, j) == id.value && At(last, k) == id'.value;
    }
  }

  // ----- the manager -----

  datatype Backend = Backend(handle: Handle, hashCode: nat, pointer: Option<nat>)

  datatype State = State(entries: map<Handle, Backend>, flags: set<nat>, last: nat)

  predicate Has(h: Handle, id: nat) {
    id != 0 && (h.cursor == id || h.prepared == id)
  }

  /** The ids of live handles are flagged, and no two live handles share one. */
  ghost predicate Inv(s: State) {
    && 1 <= s.last <= MAX_ID
    && (forall h, id | h in s.entries && Has(h, id) :: id in s.flags)
    && (forall h, g, id | h in s.entries && g in s.entries && Has(h, id) && Has(g, id) :: h == g)
    && (forall h | h in s.entries && h.cursor != 0 :: h.cursor != h.prepared)
  }

  function Remove(s: State, h: Handle): State {
    s.(entries := s.entries - {h},
        flags := s.flags - (if h.cursor != 0 then {h.cursor} else {}) - (if h.prepared != 0 then {h.prepared} else {}))
  }

  function RemoveBaseCursor(s: State, cursor: nat): State {
    var s' := Remove(s, Handle(0, cursor));
    s'.(entries := map h | h in s'.entries && h.cursor != cursor :: s'.entries[h])
  }

  /** No other live handle has an id of `h`. */
  ghost predicate Sole(s: State, h: Handle) {
    forall g, id | g in s.entries && g != h && Has(h, id) :: !Has(g, id)
  }

  /** Removing a handle keeps the invariant just when its ids belong to no other live handle. */
  lemma {:induction false} RemoveKeeps(s: State, h: Handle)
    requires Inv(s)
    ensures Inv(Remove(s, h)) <==> Sole(s, h)
  {
    var s' := Remove(s, h);
    if !Sole(s, h) {
      var g, id :| g in s.entries && g != h && Has(h, id) && Has(g, id);
      assert g in s'.entries && Has(g, id) && id !in s'.flags;
    }
  }

  /**
   A cursor's id may be removed with every handle that has it as its cursor, unless it is the id of a prepared
   statement.
   */
  lemma {:induction false} RemoveBaseCursorKeeps(s: State, cursor: nat)
    requires Inv(s)
    ensures Inv(RemoveBaseCursor(s, cursor)) <==>
      cursor == 0 || forall g | g in s.entries && g.cursor != cursor :: g.prepared != cursor
  {
    var s' := RemoveBaseCursor(s, cursor);
    if cursor != 0 {
      if g :| g in s.entries && g.cursor != cursor && g.prepared == cursor {
        assert g in s'.entries && Has(g, cursor) && cursor !in s'.flags;
      }
    }
  }

  /**
   Removing by cursor frees the ids of what it removes just when nothing with that cursor, be it 0, is a prepared
   statement.
   */
  lemma {:induction false} RemoveBaseCursorFrees(s: State, cursor: nat)
    requires Inv(s)
    ensures var s' := RemoveBaseCursor(s, cursor);
      (forall h, id | h in s.entries && h !in s'.entries && Has(h, id) :: id !in s'.flags)
      <==> (forall h | h in s.entries && h.cursor == cursor :: h.prepared == 0)
  {
    var s' := RemoveBaseCursor(s, cursor);
    forall h | h in s.entries
      ensures h !in s'.entries <==> h.cursor == cursor
    {
    }
    if h :| h in s.entries && h.cursor == cursor && h.prepared != 0 {
      assert Has(h, h.prepared) && h.prepared in s'.flags;
    }
  }

  /** One live handle, of statement 2 and cursor 1. */
  function OneLive(): State {
    var h := Handle(2, 1);
    State(map[h := Backend(h, 0, None)], {1, 2}, 2)
  }

  /** Removing a handle that shares its cursor leaves the live handle with an id that is free. */
  lemma {:induction false} SharedIdFreed()
    ensures Inv(OneLive()) && !Inv(Remove(OneLive(), Handle(0, 1)))
    ensures var s' := Remove(OneLive(), Handle(0, 1)); Handle(2, 1) in s'.entries && 1 !in s'.flags
  {
    var s := OneLive();
    assert Has(Handle(2, 1), 1) && s.entries.Keys == {Handle(2, 1)};
    assert Remove(s, Handle(0, 1)).entries.Keys == {Handle(2, 1)};
  }

  /** Removing by cursor 2 frees the id of the statement. */
  lemma {:induction false} StatementFreed()
    ensures Inv(OneLive()) && !Inv(RemoveBaseCursor(OneLive(), 2))
    ensures var s' := RemoveBaseCursor(OneLive(), 2); Handle(2, 1) in s'.entries && 2 !in s'.flags
  {
    var s := OneLive();
    assert Has(Handle(2, 1), 2) && s.entries.Keys == {Handle(2, 1)};
  }

  /** Removing by cursor 1 removes the handle, and the id of its statement stays flagged for good. */
  lemma {:induction false} StatementLeaks()
    ensures Inv(OneLive())
    ensures var s' := RemoveBaseCursor(OneLive(), 1); s'.entries == map[] && s'.flags == {2}
  {
    var s := OneLive();
    assert s.entries.Keys == {Handle(2, 1)};
    var s' := RemoveBaseCursor(s, 1);
    assert s'.entries.Keys == {};
  }

  class HandleManager {
    var entries: map<Handle, Backend>
    var flags: set<nat>
    var last: nat

    ghost function View(): State
      reads this
    {
      State(entries, flags, last)
    }

    constructor ()
      ensures View() == State(map[], {}, 1) && Inv(View())
    {
      entries, flags, last := map[], {}, 1;
    }

    method GetGlobalHandleId() returns (id: Option<nat>)
      requires 1 <= last <= MAX_ID
      modifies this`flags, this`last
      ensures Allocated(old(last), old(flags), id)
      ensures flags == old(flags) + (if id.Some? then {id.value} else {})
      ensures last == if id.Some? then id.value else old(last)
    {
      var oldLast := last;
      ghost var k := 0;
      while true
        invariant k < MAX_ID && 1 <= last <= MAX_ID && last == At(oldLast, k) && flags == old(flags)
        invariant forall j | 1 <= j <= k :: At(oldLast, j) in flags
        decreases MAX_ID - k
      {
        last := if last + 1 > MAX_ID then 0 else last + 1;
        if last <= 0 {
          last := 1;
        }
        k := k + 1;
        if last == oldLast {
          return None;
        }
        if last !in flags {
          flags := flags + {last};
          return Some(last);
        }
      }
    }

    /**
     Adds a handle under ids of its own, where the server's handle has them, or under the ids given. If only
     the second id cannot be had, the first stays flagged.
     */
    method AddHandle(backend: Backend, front: Handle, useGlobalId: bool) returns (rc: int, front': Handle)
      requires 1 <= last <= MAX_ID
      modifies this
      ensures 1 <= last <= MAX_ID && (rc == 0 || rc == -1)
      ensures entries == if rc == 0 then old(entries)[front' := backend] else old(entries)
      ensures !useGlobalId ==> rc == 0 && front' == front && flags == old(flags) && last == old(last)
      ensures useGlobalId && backend.handle.cursor == 0 ==> front'.cursor == front.cursor
      ensures useGlobalId && backend.handle.prepared == 0 ==> front'.prepared == front.prepared
      ensures useGlobalId && backend.handle.cursor != 0 && rc == 0 ==>
            Allocated(old(last), old(flags), Some(front'.cursor))
      ensures useGlobalId && backend.handle.cursor != 0 && Allocated(old(last), old(flags), None) ==>
            rc == -1 && flags == old(flags)
      ensures useGlobalId && rc == 0 && backend.handle.prepared != 0 ==>
        if backend.handle.cursor == 0 then Allocated(old(last), old(flags), Some(front'.prepared))
        else Allocated(front'.cursor, old(flags) + {front'.cursor}, Some(front'.prepared))
      ensures useGlobalId && rc == 0 ==> flags == old(flags) + NewIds(backend, front')
      ensures useGlobalId && rc == -1 ==>
        if backend.handle.cursor != 0 && !Allocated(old(last), old(flags), None)
        then Allocated(old(last), old(flags), Some(front'.cursor)) && flags == old(flags) + {front'.cursor}
        else flags == old(flags)
      ensures old(Inv(View())) && useGlobalId && front == Handle(0, 0) ==> Inv(View())
    {
      front' := front;
      ghost var s := View();
      if useGlobalId {
        if backend.handle.cursor != 0 {
          var id := GetGlobalHandleId();
          if id.None? {
            return -1, front';
          }
          NotNone(old(last), old(flags), id);
          front' := front'.(cursor := id.value);
          FlagKeeps(s, id.value, id.value);
        }
        if backend.handle.prepared != 0 {
          var id := GetGlobalHandleId();
          if id.None? {
            return -1, front';
          }
          front' := front'.(prepared := id.value);
        }
      }
      if useGlobalId && front == Handle(0, 0) {
        AddKeeps(s, backend, front', last);
      }
      entries := entries[front' := backend];
      return 0, front';
    }

    method GetBackendHandle(front: Handle) returns (rc: int, backend: Option<Backend>)
      ensures rc == if front in entries then 0 else -1
      ensures backend == if front in entries then Some(entries[front]) else None
    {
      if front in entries {
        return 0, Some(entries[front]);
      }
      return -1, None;
    }

    /** The first handle, in the order of the map, whose server handle and connection these are. */
    method GetFrontHandle(prepared: nat, cursor: nat, server: Option<nat>) returns (front: Option<Handle>)
      ensures front.None? ==> forall h | h in entries :: !Fits(entries[h], prepared, cursor, server)
      ensures front.Some? ==> front.value in entries && Fits(entries[front.value], prepared, cursor, server)
      ensures front.Some? ==> forall h | h in entries
            && Fits(entries[h], prepared, cursor, server) :: h == front.value || Less(front.value, h)
    {
      front := None;
      var left := entries.Keys;
      while left != {}
        invariant left <= entries.Keys
        invariant front.None? ==> forall h | h in entries && h !in left :: !Fits(entries[h], prepared, cursor, server)
        invariant front.Some? ==> front.value in entries && Fits(entries[front.value], prepared, cursor, server)
        invariant front.Some? ==>
          forall h | h in entries && h !in left
              && Fits(entries[h], prepared, cursor, server) :: h == front.value || Less(front.value, h)
      {
        var h :| h in left;
        if Fits(entries[h], prepared, cursor, server) && (front.None? || Less(h, front.value)) {
          front := Some(h);
        }
        left := left - {h};
      }
    }

    method RemoveHandle(front: Handle)
      modifies this`entries, this`flags
      ensures View() == Remove(old(View()), front)
      ensures old(Inv(View()) && Sole(View(), front)) ==> Inv(View())
    {
      if Inv(View()) {
        RemoveKeeps(View(), front);
      }
      entries := entries - {front};
      if front.cursor != 0 {
        flags := flags - {front.cursor};
      }
      if front.prepared != 0 {
        flags := flags - {front.prepared};
      }
    }

    method RemoveHandleBasePrepared(prepared: nat)
      modifies this`entries, this`flags
      ensures View() == Remove(old(View()), Handle(prepared, 0))
    {
      RemoveHandle(Handle(prepared, 0));
    }

    method RemoveHandleBaseCursor(cursor: nat)
      modifies this`entries, this`flags
      ensures View() == RemoveBaseCursor(old(View()), cursor)
    {
      RemoveHandle(Handle(0, cursor));
      ghost var all := entries;
      var left := entries.Keys;
      while left != {}
        invariant left <= all.Keys && entries.Keys <= all.Keys && flags == Remove(old(View()), Handle(0, cursor)).flags
        invariant forall h | h in all :: h in entries <==> h in left || h.cursor != cursor
        invariant forall h | h in entries :: entries[h] == all[h]
      {
        var h :| h in left;
        if h.cursor == cursor {
          entries := entries - {h};
        }
        left := left - {h};
      }
    }
  }

  predicate Fits(b: Backend, prepared: nat, cursor: nat, server: Option<nat>) {
    b.handle.cursor == cursor && b.handle.prepared == prepared && b.pointer == server
  }

  function NewIds(backend: Backend, front: Handle): set<nat> {
    (if backend.handle.cursor != 0 then {front.cursor} else {})
        + (if backend.handle.prepared != 0 then {front.prepared} else {})
  }

  lemma {:induction false} NotNone(last: nat, flags: set<nat>, id: Option<nat>)
    requires 1 <= last <= MAX_ID && Allocated(last, flags, id) && id.Some?
    ensures !Allocated(last, flags, None)
  {
    if Allocated(last, flags, None) {
      OnlyOne(last, flags, id, None);
    }
  }

  lemma {:induction false} FlagKeeps(s: State, id: nat, last: nat)
    requires Inv(s) ==> 1 <= last <= MAX_ID
    ensures Inv(s) ==> Inv(s.(flags := s.flags + {id}, last := last))
  {
  }

  /** Ids that nothing is flagged with may be given to a new handle. */
  lemma {:induction false} AddKeeps(s: State, backend: Backend, h: Handle, last: nat)
    requires 1 <= last <= MAX_ID
    requires h.cursor != 0 ==> h.cursor !in s.flags && h.cursor != h.prepared
    requires h.prepared != 0 ==> h.prepared !in s.flags
    ensures Inv(s) ==>
      Inv(State(s.entries[h := backend], s.flags + (if h.cursor != 0 then {h.cursor} else {})
          + (if h.prepared != 0 then {h.prepared} else {}), last))
  {
  }

  // ----- runs -----

  datatype Op =
    | Add(backend: Backend, h: Handle, last: nat)
    | AddFails(flag: Option<nat>, last: nat)
    | RemoveOne(h: Handle)
    | RemoveCursor(cursor: nat)

  /** New handles get ids that nothing is flagged with; a handle is removed by an id that is its own. */
  ghost predicate Enabled(s: State, op: Op) {
    match op
    case Add(_, h, last) =>
      && 1 <= last <= MAX_ID && (h.cursor != 0 ==> h.cursor !in s.flags && h.cursor != h.prepared)
      && (h.prepared != 0 ==> h.prepared !in s.flags)
    case AddFails(_, last) => 1 <= last <= MAX_ID
    case RemoveOne(h) => Sole(s, h)
    case RemoveCursor(cursor) => forall g | g in s.entries && g.cursor != cursor :: g.prepared != cursor
  }

  function Ids(h: Handle): set<nat> {
    (if h.cursor != 0 then {h.cursor} else {}) + (if h.prepared != 0 then {h.prepared} else {})
  }

  function Apply(s: State, op: Op): State {
    match op
    case Add(backend, h, last) => State(s.entries[h := backend], s.flags + Ids(h), last)
    case AddFails(flag, last) => s.(flags := if flag.Some? then s.flags + {flag.value} else s.flags, last := last)
    case RemoveOne(h) => Remove(s, h)
    case RemoveCursor(cursor) => RemoveBaseCursor(s, cursor)
  }

  function Run(ops: seq<Op>): State
    decreases |ops|
  {
    if ops == [] then State(map[], {}, 1) else Apply(Run(ops[..|ops| - 1]), ops[|ops| - 1])
  }

  ghost predicate Runs(ops: seq<Op>)
    decreases |ops|
  {
    ops != [] ==> Runs(ops[..|ops| - 1]) && Enabled(Run(ops[..|ops| - 1]), ops[|ops| - 1])
  }

  /** Over every run, live handles have flagged ids of their own. */
  lemma {:induction false} RunKeeps(ops: seq<Op>)
    requires Runs(ops)
    ensures Inv(Run(ops))
    decreases |ops|
  {
    if ops != [] {
      var s, op := Run(ops[..|ops| - 1]), ops[|ops| - 1];
      RunKeeps(ops[..|ops| - 1]);
      match op
      case Add(backend, h, last) => AddKeeps(s, backend, h, last);
        assert s.flags + (if h.cursor != 0 then {h.cursor} else {})
            + (if h.prepared != 0 then {h.prepared} else {}) == s.flags + Ids(h);
      case AddFails(flag, last) => FlagKeeps(s, if flag.Some? then flag.value else 0, last);
      case RemoveOne(h) => RemoveKeeps(s, h);
      case RemoveCursor(cursor) => RemoveBaseCursorKeeps(s, cursor);
    }
  }
}
