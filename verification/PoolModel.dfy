/**
 The pool of server connections of protocol/connectionpool.cpp: idle connections in one deque for each key,
 the ones in use under their file descriptors, and what each operation makes of them.
 */
module PoolModel {
  import opened Options

  const U64: int := 0x1_0000_0000_0000_0000

  /**
   Two sockets may have had the same descriptor at different times. The key is the hash of address, port and
   arguments.
   */
  datatype Socket = Socket(id: nat, fd: nat, key: nat)

  /** `checked`: the socket comes with a function that tells whether it is still alive. */
  datatype SockInfo = SockInfo(socket: Socket, start: int, checked: bool)

  datatype Settings = Settings(check: int, release: int, checkActive: bool)

  /** `saved` and `freed` are all the sockets the pool was ever given, and those it has freed. */
  datatype Pool = Pool(idle: map<nat, seq<SockInfo>>, used: map<nat, SockInfo>, now: int, saved: set<Socket>,
      freed: set<Socket>)

  // ----- looking for idle connections to free -----

  /** The difference of two 64-bit times. */
  function Age(now: int, start: int): int {
    (now - start) % U64
  }

  /** The rule for one connection; `alive` are the sockets that answer when they are checked. */
  predicate Drop(si: SockInfo, now: int, cfg: Settings, alive: set<Socket>) {
    Age(now, si.start) > cfg.check
    && (Age(now, si.start) > cfg.release || (si.checked && cfg.checkActive && si.socket !in alive))
  }

  /** The rule, applied to every connection. */
  function FullScan(d: seq<SockInfo>, now: int, cfg: Settings, alive: set<Socket>): seq<SockInfo> {
    if d == [] then []
    else (if Drop(d[0], now, cfg, alive) then [] else [d[0]]) + FullScan(d[1..], now, cfg, alive)
  }

  /** The same, but stopping at the first connection that was used lately. */
  function EarlyExit(d: seq<SockInfo>, now: int, cfg: Settings, alive: set<Socket>): seq<SockInfo> {
    if d == [] then []
    else if Age(now, d[0].start) <= cfg.check then d
    else (if Drop(d[0], now, cfg, alive) then [] else [d[0]]) + EarlyExit(d[1..], now, cfg, alive)
  }

  predicate Sorted(d: seq<SockInfo>) {
    forall i, j | 0 <= i < j < |d| :: d[i].start <= d[j].start
  }

  predicate Timely(d: seq<SockInfo>, now: int) {
    forall i | 0 <= i < |d| :: 0 <= d[i].start <= now
  }

  lemma {:induction false} AllFresh(d: seq<SockInfo>, now: int, cfg: Settings, alive: set<Socket>)
    requires forall i | 0 <= i < |d| :: Age(now, d[i].start) <= cfg.check
    ensures FullScan(d, now, cfg, alive) == d
  {
    if d != [] {
      AllFresh(d[1..], now, cfg, alive);
    }
  }

  /** In a deque sorted by time of use, nothing behind the first connection used lately is to be freed. */
  lemma {:induction false} EarlyExitIsEnough(d: seq<SockInfo>, now: int, cfg: Settings, alive: set<Socket>)
    requires Sorted(d) && Timely(d, now) && now < U64
    ensures EarlyExit(d, now, cfg, alive) == FullScan(d, now, cfg, alive)
  {
    if d != [] {
      if Age(now, d[0].start) <= cfg.check {
        forall i | 0 <= i < |d|
          ensures Age(now, d[i].start) <= cfg.check
        {
          assert d[0].start <= d[i].start;
        }
        AllFresh(d, now, cfg, alive);
      } else {
        EarlyExitIsEnough(d[1..], now, cfg, alive);
      }
    }
  }

  /** Nothing that should go stands behind a connection used lately. */
  predicate NoneHidden(d: seq<SockInfo>, now: int, cfg: Settings, alive: set<Socket>) {
    forall i, j | 0 <= i < j < |d| && Age(now, d[i].start) <= cfg.check :: !Drop(d[j], now, cfg, alive)
  }

  lemma {:induction false} NoneHiddenBehind(d: seq<SockInfo>, now: int, cfg: Settings, alive: set<Socket>)
    requires d != [] && Age(now, d[0].start) > cfg.check
    ensures NoneHidden(d, now, cfg, alive) <==> NoneHidden(d[1..], now, cfg, alive)
  {
    hide Age, Drop;
    var t := d[1..];
    if NoneHidden(d, now, cfg, alive) {
      forall i, j | 0 <= i < j < |t| && Age(now, t[i].start) <= cfg.check
        ensures !Drop(t[j], now, cfg, alive)
      {
        assert t[i] == d[i + 1] && t[j] == d[j + 1];
      }
    }
    if NoneHidden(t, now, cfg, alive) {
      forall i, j | 0 <= i < j < |d| && Age(now, d[i].start) <= cfg.check
        ensures !Drop(d[j], now, cfg, alive)
      {
        assert d[i] == t[i - 1] && d[j] == t[j - 1];
      }
    }
  }

  /** Without the order, the early exit is right exactly then. */
  lemma {:induction false} EarlyExitExactly(d: seq<SockInfo>, now: int, cfg: Settings, alive: set<Socket>)
    ensures EarlyExit(d, now, cfg, alive) == FullScan(d, now, cfg, alive) <==> NoneHidden(d, now, cfg, alive)
  {
    if d != [] {
      NothingDropped(d, now, cfg, alive);
      if Age(now, d[0].start) <= cfg.check {
        assert !Drop(d[0], now, cfg, alive);
      } else {
        EarlyExitExactly(d[1..], now, cfg, alive);
        NoneHiddenBehind(d, now, cfg, alive);
        var x := if Drop(d[0], now, cfg, alive) then [] else [d[0]];
        SamePrefix(x, EarlyExit(d[1..], now, cfg, alive), FullScan(d[1..], now, cfg, alive));
      }
    }
  }

  lemma {:induction false} SamePrefix<T>(x: seq<T>, s: seq<T>, t: seq<T>)
    ensures x + s == x + t <==> s == t
  {
    if x + s == x + t {
      assert s == (x + s)[|x|..] == (x + t)[|x|..] == t;
    }
  }

  lemma {:induction false} ScanShorter(d: seq<SockInfo>, now: int, cfg: Settings, alive: set<Socket>)
    ensures |FullScan(d, now, cfg, alive)| <= |d|
  {
    if d != [] {
      ScanShorter(d[1..], now, cfg, alive);
    }
  }

  lemma {:induction false} NothingDropped(d: seq<SockInfo>, now: int, cfg: Settings, alive: set<Socket>)
    ensures FullScan(d, now, cfg, alive) == d <==> forall j | 0 <= j < |d| :: !Drop(d[j], now, cfg, alive)
  {
    if d != [] {
      ScanShorter(d[1..], now, cfg, alive);
      NothingDropped(d[1..], now, cfg, alive);
      assert d == [d[0]] + d[1..];
    }
  }

  // ----- operations -----

  function Deque(idle: map<nat, seq<SockInfo>>, key: nat): seq<SockInfo> {
    if key in idle then idle[key] else []
  }

  /** The connection used last goes out first. */
  function Get(p: Pool, key: nat): (r: (Option<Socket>, Pool)) {
    var d := Deque(p.idle, key);
    if d == [] then (None, p)
    else
      var si := d[|d| - 1];
      (Some(si.socket), p.(idle := p.idle[key := d[..|d| - 1]], used := p.used[si.socket.fd := si.(start := p.now)]))
  }

  function Put(p: Pool, s: Socket): (r: (bool, Pool)) {
    if s.fd !in p.used then (false, p)
    else
      var si := p.used[s.fd].(start := p.now);
      (true, p.(idle := p.idle[s.key := Deque(p.idle, s.key) + [si]], used := p.used - {s.fd}))
  }

  /** An idle connection is saved as if it had not been used for ever. */
  function Save(p: Pool, s: Socket, checked: bool, using: bool): Pool {
    var p' := p.(saved := p.saved + {s});
    if using then p'.(used := p.used[s.fd := SockInfo(s, p.now, checked)])
    else p'.(idle := p.idle[s.key := [SockInfo(s, 0, checked)] + Deque(p.idle, s.key)])
  }

  function Release(p: Pool, s: Socket): Pool {
    if s.fd !in p.used then p else p.(used := p.used - {s.fd}, freed := p.freed + {p.used[s.fd].socket})
  }

  function Scanned(idle: map<nat, seq<SockInfo>>, now: int, cfg: Settings, alive: set<Socket>): map<nat,
      seq<SockInfo>> {
    map k | k in idle :: EarlyExit(idle[k], now, cfg, alive)
  }

  function Sockets(d: seq<SockInfo>): set<Socket> {
    set i | 0 <= i < |d| :: d[i].socket
  }

  function Freed(idle: map<nat, seq<SockInfo>>, now: int, cfg: Settings, alive: set<Socket>): set<Socket> {
    set k, s | k in idle && s in Sockets(idle[k]) - Sockets(EarlyExit(idle[k], now, cfg, alive)) :: s
  }

  /** Before and after the scan the clock is read. */
  function Check(p: Pool, before: int, after: int, cfg: Settings, alive: set<Socket>): Pool {
    p.(idle := Scanned(p.idle, before, cfg, alive), freed := p.freed + Freed(p.idle, before, cfg, alive), now := after)
  }

  // ----- ownership and order -----

  /** `si` is at home in the deque of `key`, and nowhere else. */
  predicate AtHome(p: Pool, key: nat, si: SockInfo) {
    si.socket.key == key && si.socket in p.saved && si.socket !in p.freed && si.socket.fd !in p.used
  }

  predicate DistinctFds(d: seq<SockInfo>) {
    forall i, j | 0 <= i < j < |d| :: d[i].socket.fd != d[j].socket.fd
  }

  predicate DequeOk(p: Pool, key: nat, d: seq<SockInfo>) {
    (forall i | 0 <= i < |d| :: AtHome(p, key, d[i])) && DistinctFds(d) && Sorted(d) && Timely(d, p.now)
  }

  /** Deques of different keys share no descriptor. */
  predicate NoneShared(d: seq<SockInfo>, e: seq<SockInfo>) {
    forall i, j | 0 <= i < |d| && 0 <= j < |e| :: d[i].socket.fd != e[j].socket.fd
  }

  predicate InUse(p: Pool, s: Socket) {
    s.fd in p.used && p.used[s.fd].socket == s
  }

  predicate IsIdle(p: Pool, s: Socket) {
    s in Sockets(Deque(p.idle, s.key))
  }

  predicate UsedOk(p: Pool) {
    forall fd | fd in p.used :: p.used[fd].socket.fd == fd && p.used[fd].socket in p.saved
        && p.used[fd].socket !in p.freed
  }

  ghost predicate Inv(p: Pool) {
    && 0 <= p.now < U64
    && (forall k | k in p.idle :: DequeOk(p, k, p.idle[k]))
    && (forall k, l | k in p.idle && l in p.idle && k != l :: NoneShared(p.idle[k], p.idle[l]))
    && UsedOk(p) && p.freed <= p.saved
    && (forall s | s in p.saved :: s in p.freed || InUse(p, s) || IsIdle(p, s))
  }

  /** Every socket saved is in one deque, or in use under its own descriptor, or freed; and only one of these. */
  lemma {:induction false} OneOwner(p: Pool, s: Socket)
    requires Inv(p) && s in p.saved
    ensures (s in p.freed && !InUse(p, s) && !IsIdle(p, s)) || (s !in p.freed && InUse(p, s) && !IsIdle(p, s))
         || (s !in p.freed && !InUse(p, s) && IsIdle(p, s))
    ensures forall k, i, l, j | k in p.idle && l in p.idle && 0 <= i < |p.idle[k]| && 0 <= j < |p.idle[l]|
              && p.idle[k][i].socket == s == p.idle[l][j].socket :: k == l && i == j
  {
    if IsIdle(p, s) {
      var i :| 0 <= i < |p.idle[s.key]| && p.idle[s.key][i].socket == s;
      assert AtHome(p, s.key, p.idle[s.key][i]);
    }
    forall k, i, l, j | k in p.idle && l in p.idle && 0 <= i < |p.idle[k]| && 0 <= j < |p.idle[l]|
              && p.idle[k][i].socket == s == p.idle[l][j].socket
      ensures k == l && i == j
    {
      assert AtHome(p, k, p.idle[k][i]) && AtHome(p, l, p.idle[l][j]);
    }
  }

  // ----- what every operation keeps -----

  /** Facts about one connection in a deque of the pool. */
  lemma {:induction false} Placed(p: Pool, key: nat, i: nat)
    requires Inv(p) && key in p.idle && i < |p.idle[key]|
    ensures AtHome(p, key, p.idle[key][i]) && 0 <= p.idle[key][i].start <= p.now
  {
    assert DequeOk(p, key, p.idle[key]);
  }

  lemma {:induction false} GetKeeps(p: Pool, key: nat)
    requires Inv(p)
    ensures Inv(Get(p, key).1)
  {
    var d := Deque(p.idle, key);
    if d != [] {
      var si := d[|d| - 1];
      var p' := Get(p, key).1;
      Placed(p, key, |d| - 1);
      forall k | k in p'.idle
        ensures DequeOk(p', k, p'.idle[k])
      {
        assert DequeOk(p, k, p.idle[k]);
        if k != key {
          assert NoneShared(p.idle[k], d);
        }
      }
      forall k, l | k in p'.idle && l in p'.idle && k != l
        ensures NoneShared(p'.idle[k], p'.idle[l])
      {
        assert NoneShared(p.idle[k], p.idle[l]);
      }
      forall s | s in p'.saved
        ensures s in p'.freed || InUse(p', s) || IsIdle(p', s)
      {
        StillIdle(p, key, s);
      }
    }
  }

  lemma {:induction false} StillIdle(p: Pool, key: nat, s: Socket)
    requires Inv(p) && Deque(p.idle, key) != [] && s in p.saved
    ensures var p' := Get(p, key).1; s in p'.freed || InUse(p', s) || IsIdle(p', s)
  {
    var d := Deque(p.idle, key);
    var p' := Get(p, key).1;
    Placed(p, key, |d| - 1);
    if IsIdle(p, s) {
      var e := p.idle[s.key];
      var i :| 0 <= i < |e| && e[i].socket == s;
      if s.key == key && i < |d| - 1 {
        assert p'.idle[key][i] == e[i];
      }
    }
  }

  /** The socket is the one in use under its descriptor, if there is one. */
  predicate Current(p: Pool, s: Socket) {
    s.fd in p.used ==> p.used[s.fd].socket == s
  }

  lemma {:induction false} PutKeeps(p: Pool, s: Socket)
    requires Inv(p) && Current(p, s)
    ensures Inv(Put(p, s).1)
  {
    if s.fd in p.used {
      var p' := Put(p, s).1;
      PutDeques(p, s);
      hide DequeOk;
      forall k, l | k in p'.idle && l in p'.idle && k != l
        ensures NoneShared(p'.idle[k], p'.idle[l])
      {
        assert k in p.idle ==> DequeOk(p, k, p.idle[k]);
        assert l in p.idle ==> DequeOk(p, l, p.idle[l]);
        assert k in p.idle && l in p.idle ==> NoneShared(p.idle[k], p.idle[l]);
      }
      forall x | x in p'.saved
        ensures x in p'.freed || InUse(p', x) || IsIdle(p', x)
      {
        PutStays(p, s, x);
      }
    }
  }

  lemma {:induction false} PutDeques(p: Pool, s: Socket)
    requires Inv(p) && Current(p, s) && s.fd in p.used
    ensures var p' := Put(p, s).1; forall k | k in p'.idle :: DequeOk(p', k, p'.idle[k])
  {
    var p' := Put(p, s).1;
    var d := Deque(p.idle, s.key);
    var si := p.used[s.fd].(start := p.now);
    forall k | k in p'.idle
      ensures DequeOk(p', k, p'.idle[k])
    {
      if k != s.key {
        assert DequeOk(p, k, p.idle[k]);
      } else {
        assert d == [] || DequeOk(p, k, d);
        assert p'.idle[k] == d + [si];
      }
    }
  }

  lemma {:induction false} PutStays(p: Pool, s: Socket, x: Socket)
    requires Inv(p) && Current(p, s) && s.fd in p.used && x in p.saved
    ensures var p' := Put(p, s).1; x in p'.freed || InUse(p', x) || IsIdle(p', x)
  {
    var p' := Put(p, s).1;
    var d := Deque(p.idle, x.key);
    if x == s {
      assert p'.idle[s.key][|d|].socket == s;
    } else if IsIdle(p, x) {
      var i :| 0 <= i < |d| && d[i].socket == x;
      assert p'.idle[x.key][i] == d[i];
    }
  }

  /** Nothing in the pool has the descriptor, and the socket is new. */
  predicate Unknown(p: Pool, s: Socket) {
    s !in p.saved && s.fd !in p.used && forall k, i | k in p.idle
        && 0 <= i < |p.idle[k]| :: p.idle[k][i].socket.fd != s.fd
  }

  lemma {:induction false} SaveUsing(p: Pool, s: Socket, checked: bool)
    requires Inv(p) && Unknown(p, s)
    ensures Inv(Save(p, s, checked, true))
  {
    var p' := Save(p, s, checked, true);
    forall k | k in p'.idle
      ensures DequeOk(p', k, p'.idle[k])
    {
      assert DequeOk(p, k, p.idle[k]);
    }
    forall x | x in p'.saved
      ensures x in p'.freed || InUse(p', x) || IsIdle(p', x)
    {
      SaveStays(p, s, checked, true, x);
    }
  }

  lemma {:induction false} SaveIdle(p: Pool, s: Socket, checked: bool)
    requires Inv(p) && Unknown(p, s)
    ensures Inv(Save(p, s, checked, false))
  {
    var p' := Save(p, s, checked, false);
    forall k | k in p'.idle
      ensures DequeOk(p', k, p'.idle[k])
    {
      SavedDeque(p, s, checked, k);
    }
    hide DequeOk, UsedOk;
    forall k, l | k in p'.idle && l in p'.idle && k != l
      ensures NoneShared(p'.idle[k], p'.idle[l])
    {
      assert k in p.idle && l in p.idle ==> NoneShared(p.idle[k], p.idle[l]);
    }
    SaveIdleUsed(p, s, checked);
    forall x | x in p'.saved
      ensures x in p'.freed || InUse(p', x) || IsIdle(p', x)
    {
      SaveStays(p, s, checked, false, x);
    }
  }

  lemma {:induction false} SaveIdleUsed(p: Pool, s: Socket, checked: bool)
    requires Inv(p) && Unknown(p, s)
    ensures UsedOk(Save(p, s, checked, false))
  {
  }

  lemma {:induction false} SavedDeque(p: Pool, s: Socket, checked: bool, k: nat)
    requires Inv(p) && Unknown(p, s) && (k in p.idle || k == s.key)
    ensures var p' := Save(p, s, checked, false); DequeOk(p', k, p'.idle[k])
  {
    var p' := Save(p, s, checked, false);
    var d := Deque(p.idle, k);
    assert k in p.idle ==> DequeOk(p, k, d);
    forall i | 0 <= i < |d|
      ensures AtHome(p', k, d[i]) && d[i].socket.fd != s.fd && 0 <= d[i].start <= p.now
    {
      Placed(p, k, i);
    }
    hide Inv, Unknown;
  }

  lemma {:induction false} SaveKeeps(p: Pool, s: Socket, checked: bool, using: bool)
    requires Inv(p) && Unknown(p, s)
    ensures Inv(Save(p, s, checked, using))
  {
    hide Inv;
    if using {
      SaveUsing(p, s, checked);
    } else {
      SaveIdle(p, s, checked);
    }
  }

  lemma {:induction false} SaveStays(p: Pool, s: Socket, checked: bool, using: bool, x: Socket)
    requires Inv(p) && Unknown(p, s) && (x == s || x in p.saved)
    ensures var p' := Save(p, s, checked, using); x in p'.freed || InUse(p', x) || IsIdle(p', x)
  {
    var p' := Save(p, s, checked, using);
    var d := Deque(p.idle, x.key);
    if x == s {
      assert !using ==> p'.idle[s.key][0].socket == s;
    } else if IsIdle(p, x) {
      var i :| 0 <= i < |d| && d[i].socket == x;
      assert p'.idle[x.key][if !using && x.key == s.key then i + 1 else i] == d[i];
    }
  }

  lemma {:induction false} ReleaseKeeps(p: Pool, s: Socket)
    requires Inv(p) && Current(p, s)
    ensures Inv(Release(p, s))
  {
    var p' := Release(p, s);
    forall k | k in p'.idle
      ensures DequeOk(p', k, p'.idle[k])
    {
      assert DequeOk(p, k, p.idle[k]);
    }
    forall x | x in p'.saved
      ensures x in p'.freed || InUse(p', x) || IsIdle(p', x)
    {
      assert x in p.freed || InUse(p, x) || IsIdle(p, x);
    }
  }

  lemma {:induction false} ScanTakes(d: seq<SockInfo>, now: int, cfg: Settings, alive: set<Socket>)
    ensures forall x | x in EarlyExit(d, now, cfg, alive) :: x in d
  {
    if d != [] {
      ScanTakes(d[1..], now, cfg, alive);
    }
  }

  /** What stays in a deque stays in order. */
  lemma {:induction false} ScanSorted(d: seq<SockInfo>, now: int, cfg: Settings, alive: set<Socket>)
    requires Sorted(d)
    ensures Sorted(EarlyExit(d, now, cfg, alive))
  {
    if d != [] {
      ScanSorted(d[1..], now, cfg, alive);
      ScanTakes(d[1..], now, cfg, alive);
      var t := EarlyExit(d[1..], now, cfg, alive);
      forall i | 0 <= i < |t|
        ensures d[0].start <= t[i].start
      {
        assert t[i] in t && t[i] in d[1..];
      }
    }
  }

  lemma {:induction false} ScanDistinct(d: seq<SockInfo>, now: int, cfg: Settings, alive: set<Socket>)
    requires DistinctFds(d)
    ensures DistinctFds(EarlyExit(d, now, cfg, alive))
  {
    if d != [] {
      ScanDistinct(d[1..], now, cfg, alive);
      ScanTakes(d[1..], now, cfg, alive);
      var t := EarlyExit(d[1..], now, cfg, alive);
      forall i | 0 <= i < |t|
        ensures d[0].socket.fd != t[i].socket.fd
      {
        assert t[i] in t && t[i] in d[1..];
      }
    }
  }

  lemma {:induction false} FreedWas(p: Pool, k: nat, s: Socket, now: int, cfg: Settings, alive: set<Socket>)
    requires Inv(p) && s in Freed(p.idle, now, cfg, alive)
    ensures IsIdle(p, s) && s !in Sockets(EarlyExit(p.idle[s.key], now, cfg, alive))
  {
    var l :| l in p.idle && s in Sockets(p.idle[l]) - Sockets(EarlyExit(p.idle[l], now, cfg, alive));
    var i :| 0 <= i < |p.idle[l]| && p.idle[l][i].socket == s;
    Placed(p, l, i);
  }

  lemma {:induction false} CheckedDeque(p: Pool, k: nat, before: int, after: int, cfg: Settings, alive: set<Socket>)
    requires Inv(p) && p.now <= before <= after && k in p.idle
    ensures DequeOk(Check(p, before, after, cfg, alive), k, EarlyExit(p.idle[k], before, cfg, alive))
  {
    var p' := Check(p, before, after, cfg, alive);
    var d := p.idle[k];
    var e := EarlyExit(d, before, cfg, alive);
    ScanTakes(d, before, cfg, alive);
    assert DequeOk(p, k, d);
    ScanSorted(d, before, cfg, alive);
    ScanDistinct(d, before, cfg, alive);
    hide EarlyExit, Freed;
    forall i | 0 <= i < |e|
      ensures AtHome(p', k, e[i]) && 0 <= e[i].start <= p.now
    {
      assert e[i] in e && e[i] in d;
      var j :| 0 <= j < |d| && d[j] == e[i];
      Placed(p, k, j);
      assert e[i].socket in Sockets(e);
      if e[i].socket in Freed(p.idle, before, cfg, alive) {
        FreedWas(p, k, e[i].socket, before, cfg, alive);
      }
    }
  }

  lemma {:induction false} CheckKeeps(p: Pool, before: int, after: int, cfg: Settings, alive: set<Socket>)
    requires Inv(p) && p.now <= before <= after < U64
    ensures Inv(Check(p, before, after, cfg, alive))
  {
    var p' := Check(p, before, after, cfg, alive);
    hide EarlyExit, Freed;
    forall k | k in p'.idle
      ensures DequeOk(p', k, p'.idle[k])
    {
      CheckedDeque(p, k, before, after, cfg, alive);
    }
    forall k, l | k in p'.idle && l in p'.idle && k != l
      ensures NoneShared(p'.idle[k], p'.idle[l])
    {
      ScanTakes(p.idle[k], before, cfg, alive);
      ScanTakes(p.idle[l], before, cfg, alive);
      assert NoneShared(p.idle[k], p.idle[l]);
    }
    CheckUsed(p, before, after, cfg, alive);
    hide DequeOk, UsedOk;
    forall x | x in p'.saved
      ensures x in p'.freed || InUse(p', x) || IsIdle(p', x)
    {
      CheckStays(p, before, after, cfg, alive, x);
    }
  }

  lemma {:induction false} CheckUsed(p: Pool, before: int, after: int, cfg: Settings, alive: set<Socket>)
    requires Inv(p)
    ensures var p' := Check(p, before, after, cfg, alive); UsedOk(p') && p'.freed <= p'.saved
  {
    hide EarlyExit, Freed;
    forall s | s in Freed(p.idle, before, cfg, alive)
      ensures s in p.saved && s.fd !in p.used
    {
      FreedWas(p, s.key, s, before, cfg, alive);
      var i :| 0 <= i < |p.idle[s.key]| && p.idle[s.key][i].socket == s;
      Placed(p, s.key, i);
    }
  }

  lemma {:induction false} CheckStays(p: Pool, before: int, after: int, cfg: Settings, alive: set<Socket>, x: Socket)
    requires Inv(p) && x in p.saved
    ensures var p' := Check(p, before, after, cfg, alive); x in p'.freed || InUse(p', x) || IsIdle(p', x)
  {
    hide EarlyExit;
    if IsIdle(p, x) {
      var d := p.idle[x.key];
      var e := EarlyExit(d, before, cfg, alive);
      assert x in Sockets(d);
      assert x in Sockets(e) || x in Sockets(d) - Sockets(e);
    }
  }

  // ----- runs -----

  datatype Op =
    | OpGet(key: nat)
    | OpPut(s: Socket)
    | OpSave(s: Socket, checked: bool, using: bool)
    | OpRelease(s: Socket)
    | OpCheck(before: int, after: int, cfg: Settings, alive: set<Socket>)

  function Apply(p: Pool, op: Op): Pool {
    match op
    case OpGet(key) => Get(p, key).1
    case OpPut(s) => Put(p, s).1
    case OpSave(s, checked, using) => Save(p, s, checked, using)
    case OpRelease(s) => Release(p, s)
    case OpCheck(before, after, cfg, alive) => Check(p, before, after, cfg, alive)
  }

  /**
   New sockets have descriptors that nothing live has, connections are given back by their holders, and the clock does
   not run back.
   */
  ghost predicate Enabled(p: Pool, op: Op) {
    match op
    case OpGet(_) => true
    case OpPut(s) => Current(p, s)
    case OpSave(s, _, _) => Unknown(p, s)
    case OpRelease(s) => Current(p, s)
    case OpCheck(before, after, _, _) => p.now <= before <= after < U64
  }

  function RunOps(p: Pool, ops: seq<Op>): Pool
    decreases |ops|
  {
    if ops == [] then p else Apply(RunOps(p, ops[..|ops| - 1]), ops[|ops| - 1])
  }

  ghost predicate Runs(p: Pool, ops: seq<Op>)
    decreases |ops|
  {
    ops != [] ==> Runs(p, ops[..|ops| - 1]) && Enabled(RunOps(p, ops[..|ops| - 1]), ops[|ops| - 1])
  }

  lemma {:induction false} ApplyKeeps(p: Pool, op: Op)
    requires Inv(p) && Enabled(p, op)
    ensures Inv(Apply(p, op))
  {
    hide Inv, Unknown;
    match op
    case OpGet(key) => GetKeeps(p, key);
    case OpPut(s) => PutKeeps(p, s);
    case OpSave(s, checked, using) => SaveKeeps(p, s, checked, using);
    case OpRelease(s) => ReleaseKeeps(p, s);
    case OpCheck(before, after, cfg, alive) => CheckKeeps(p, before, after, cfg, alive);
  }

  /** Over every run, ownership and order are kept. */
  lemma {:induction false} RunKeeps(now: int, ops: seq<Op>)
    requires 0 <= now < U64 && Runs(Pool(map[], map[], now, {}, {}), ops)
    ensures Inv(RunOps(Pool(map[], map[], now, {}, {}), ops))
    decreases |ops|
  {
    if ops != [] {
      RunKeeps(now, ops[..|ops| - 1]);
      ApplyKeeps(RunOps(Pool(map[], map[], now, {}, {}), ops[..|ops| - 1]), ops[|ops| - 1]);
    }
    hide Enabled, Apply;
  }

  /** So in every run, the scan that stops early frees just the connections that the rule frees. */
  lemma {:induction false} ScanIsRight(now: int, ops: seq<Op>, key: nat, before: int, cfg: Settings, alive: set<Socket>)
    requires 0 <= now < U64 && Runs(Pool(map[], map[], now, {}, {}), ops)
    requires var p := RunOps(Pool(map[], map[], now, {}, {}), ops); key in p.idle && p.now <= before < U64
    ensures var p := RunOps(Pool(map[], map[], now, {}, {}), ops);
      EarlyExit(p.idle[key], before, cfg, alive) == FullScan(p.idle[key], before, cfg, alive)
  {
    RunKeeps(now, ops);
    var p := RunOps(Pool(map[], map[], now, {}, {}), ops);
    assert DequeOk(p, key, p.idle[key]);
    EarlyExitIsEnough(p.idle[key], before, cfg, alive);
  }

  // ----- giving up a connection -----

  /** Gives a socket back; it stays with the connection if the pool does not know it. */
  function GiveBack(p: Pool, s: Option<Socket>): (r: (bool, Option<Socket>, Pool)) {
    if s.None? then (true, None, p)
    else
      var r := Put(p, s.value);
      (r.0, if r.0 then None else s, r.1)
  }

  function ReleaseIf(p: Pool, s: Option<Socket>): Pool {
    if s.None? then p else Release(p, s.value)
  }

  /**
   Back to the pool, unless the connection ended in an error or inside a transaction; what the pool does not take back
   is released.
   */
  function ReleaseBoth(p: Pool, master: Option<Socket>, slave: Option<Socket>, error: bool): Pool {
    if error then ReleaseIf(ReleaseIf(p, master), slave)
    else
      var m := GiveBack(p, master);
      var s := GiveBack(m.2, slave);
      if m.0 && s.0 then s.2 else ReleaseIf(ReleaseIf(s.2, m.1), s.1)
  }

  ghost predicate CurrentIf(p: Pool, s: Option<Socket>) {
    s.Some? ==> Current(p, s.value)
  }

  /** Afterwards neither socket is in use. */
  lemma {:induction false} NoneLeftInUse(p: Pool, master: Option<Socket>, slave: Option<Socket>, error: bool)
    ensures var p' := ReleaseBoth(p, master, slave, error);
      && (master.Some? ==> master.value.fd !in p'.used)
      && (slave.Some? ==> slave.value.fd !in p'.used)
      && (forall fd | fd in p'.used :: fd in p.used && p'.used[fd] == p.used[fd])
  {
  }

  /** After an error the sockets that were in use are freed, and no idle connection is added. */
  lemma {:induction false} ErrorFrees(p: Pool, master: Option<Socket>, slave: Option<Socket>)
    requires CurrentIf(p, master) && CurrentIf(p, slave)
    ensures var p' := ReleaseBoth(p, master, slave, true);
      && p'.idle == p.idle
      && p'.freed == p.freed + (set s | s in {master, slave} && s.Some? && InUse(p, s.value) :: s.value)
  {
    var p' := ReleaseBoth(p, master, slave, true);
    forall s
      ensures s in p'.freed <==> s in p.freed || (Some(s) in {master, slave} && InUse(p, s))
    {
    }
  }

  /** Otherwise nothing is freed; whatever was in use is idle, at the end of the deque of its key, as used just now. */
  lemma {:induction false} OtherwiseIdle(p: Pool, master: Option<Socket>, slave: Option<Socket>)
    requires CurrentIf(p, master) && CurrentIf(p, slave)
    ensures var p' := ReleaseBoth(p, master, slave, false);
      && p'.freed == p.freed
      && (slave.Some? && InUse(p, slave.value) && master != slave ==>
            var d := Deque(p'.idle, slave.value.key); d != [] && d[|d| - 1] == p.used[slave.value.fd].(start := p.now))
      && (master.Some? && InUse(p, master.value) ==>
            exists i :: 0 <= i < |Deque(p'.idle, master.value.key)|
                && Deque(p'.idle, master.value.key)[i] == p.used[master.value.fd].(start := p.now))
  {
    var m := GiveBack(p, master);
    var s := GiveBack(m.2, slave);
    if master.Some? && InUse(p, master.value) {
      var d := Deque(p.idle, master.value.key);
      assert Deque(m.2.idle, master.value.key)[|d|] == p.used[master.value.fd].(start := p.now);
      assert Deque(s.2.idle, master.value.key)[|d|] == Deque(m.2.idle, master.value.key)[|d|];
    }
  }

  lemma {:induction false} ReleaseBothKeeps(p: Pool, master: Option<Socket>, slave: Option<Socket>, error: bool)
    requires Inv(p) && CurrentIf(p, master) && CurrentIf(p, slave)
    ensures Inv(ReleaseBoth(p, master, slave, error))
  {
    hide Inv;
    if error {
      ReleaseIfKeeps(p, master);
      ReleaseIfKeeps(ReleaseIf(p, master), slave);
    } else {
      GiveBackKeeps(p, master);
      var m := GiveBack(p, master);
      GiveBackKeeps(m.2, slave);
      var s := GiveBack(m.2, slave);
      ReleaseIfKeeps(s.2, m.1);
      ReleaseIfKeeps(ReleaseIf(s.2, m.1), s.1);
    }
  }

  lemma {:induction false} ReleaseIfKeeps(p: Pool, s: Option<Socket>)
    requires Inv(p) && CurrentIf(p, s)
    ensures Inv(ReleaseIf(p, s))
  {
    hide Inv;
    if s.Some? {
      ReleaseKeeps(p, s.value);
    }
  }

  lemma {:induction false} GiveBackKeeps(p: Pool, s: Option<Socket>)
    requires Inv(p) && CurrentIf(p, s)
    ensures Inv(GiveBack(p, s).2)
  {
    hide Inv;
    if s.Some? {
      PutKeeps(p, s.value);
    }
  }
}
