/** ConnectionPool of protocol/connectionpool.cpp and the release of protocol/protocolbase.cpp, in place. */
module Pool {
  import opened Options
  import opened PoolModel

  class ConnectionPool {
    var idle: map<nat, seq<SockInfo>>
    var used: map<nat, SockInfo>
    var now: int
    var cfg: Settings
    ghost var saved: set<Socket>
    ghost var freed: set<Socket>

    ghost function View(): PoolModel.Pool
      reads this
    {
      PoolModel.Pool(idle, used, now, saved, freed)
    }

    constructor (clock: int)
      requires 0 <= clock < U64
      ensures View() == PoolModel.Pool(map[], map[], clock, {}, {}) && Inv(View())
    {
      idle, used, now, cfg, saved, freed := map[], map[], clock, Settings(1000, 60000, false), {}, {};
    }

    /** Frees a connection, which may be done only once. */
    method Free(ghost s: Socket)
      requires s !in freed
      modifies this`freed
      ensures freed == old(freed) + {s}
    {
      freed := freed + {s};
    }

    method GetBackendConnect(key: nat) returns (ns: Option<Socket>)
      modifies this`idle, this`used
      ensures (ns, View()) == Get(old(View()), key)
      ensures old(Inv(View())) ==> Inv(View())
    {
      if Inv(View()) {
        GetKeeps(View(), key);
      }
      if key !in idle || idle[key] == [] {
        return None;
      }
      var d := idle[key];
      var si := d[|d| - 1];
      idle := idle[key := d[..|d| - 1]];
      used := used[si.socket.fd := si.(start := now)];
      return Some(si.socket);
    }

    method SetBackendConnect(s: Socket) returns (rc: int)
      modifies this`idle, this`used
      ensures (rc == 0, View()) == Put(old(View()), s) && (rc == 0 || rc == -1)
      ensures old(Inv(View()) && Current(View(), s)) ==> Inv(View())
    {
      if Inv(View()) && Current(View(), s) {
        PutKeeps(View(), s);
      }
      if |used| == 0 {
        return -1;
      }
      if s.fd !in used {
        return -1;
      }
      var d := if s.key in idle then idle[s.key] else [];
      idle := idle[s.key := d + [used[s.fd].(start := now)]];
      used := used - {s.fd};
      return 0;
    }

    method SaveBackendConnect(s: Socket, checked: bool, isUsing: bool)
      modifies this`idle, this`used, this`saved
      ensures View() == Save(old(View()), s, checked, isUsing)
      ensures old(Inv(View()) && Unknown(View(), s)) ==> Inv(View())
    {
      if Inv(View()) && Unknown(View(), s) {
        SaveKeeps(View(), s, checked, isUsing);
      }
      saved := saved + {s};
      if isUsing {
        used := used[s.fd := SockInfo(s, now, checked)];
      } else {
        var d := if s.key in idle then idle[s.key] else [];
        idle := idle[s.key := [SockInfo(s, 0, checked)] + d];
      }
    }

    method ReleaseBackendSocket(s: Socket)
      requires Inv(View())
      modifies this`used, this`freed
      ensures View() == Release(old(View()), s)
      ensures old(Current(View(), s)) ==> Inv(View())
    {
      if Current(View(), s) {
        ReleaseKeeps(View(), s);
      }
      if |used| == 0 || s.fd !in used {
        return;
      }
      Free(used[s.fd].socket);
      used := used - {s.fd};
    }

    /** Goes through one deque, taking out what the rule frees, up to the first connection used lately. */
    method ScanDeque(key: nat, alive: set<Socket>)
      requires key in idle && DistinctFds(idle[key]) && Sockets(idle[key]) !! freed
      modifies this`idle, this`freed
      ensures var d := old(idle)[key]; var e := EarlyExit(d, now, cfg, alive);
        idle == old(idle)[key := e] && freed == old(freed) + (Sockets(d) - Sockets(e))
    {
      hide EarlyExit, Drop, DistinctFds, Sockets;
      ghost var d := idle[key];
      var sid := idle[key];
      var rit := 0;
      assert sid[..0] + EarlyExit(sid[0..], now, cfg, alive) == EarlyExit(d, now, cfg, alive) by {
        assert sid[0..] == sid;
      }
      while rit < |sid|
        invariant 0 <= rit <= |sid| && DistinctFds(sid) && Sockets(sid) <= Sockets(d)
        invariant idle == old(idle) && freed == old(freed) + (Sockets(d) - Sockets(sid))
        invariant EarlyExit(d, now, cfg, alive) == sid[..rit] + EarlyExit(sid[rit..], now, cfg, alive)
        decreases |sid| - rit
      {
        var si := sid[rit];
        DropIs(si, now, cfg, alive);
        if Age(now, si.start) <= cfg.check {
          ScanStops(sid, rit, now, cfg, alive);
          break;
        }
        ScanStep(sid, rit, now, cfg, alive);
        if Age(now, si.start) > cfg.release || (si.checked && cfg.checkActive && si.socket !in alive) {
          Erased(sid, rit);
          Free(si.socket);
          sid := sid[..rit] + sid[rit + 1..];
        } else {
          rit := rit + 1;
        }
      }
      ScanOver(sid, rit, now, cfg, alive);
      idle := idle[key := sid];
    }

    method ScanAll(ghost p: PoolModel.Pool, alive: set<Socket>)
      requires Inv(p) && idle == p.idle && freed == p.freed
      modifies this`idle, this`freed
      ensures idle == Scanned(p.idle, now, cfg, alive) && freed == p.freed + Freed(p.idle, now, cfg, alive)
    {
      hide Inv, EarlyExit, FreedOf, Freed;
      var left := idle.Keys;
      FreedNone(p.idle, now, cfg, alive);
      assert p.idle.Keys - left == {};
      while left != {}
        invariant left <= p.idle.Keys == idle.Keys
        invariant forall k | k in p.idle ::
              idle[k] == if k in left then p.idle[k] else EarlyExit(p.idle[k], now, cfg, alive)
        invariant freed == p.freed + FreedOf(p.idle, p.idle.Keys - left, now, cfg, alive)
      {
        var key :| key in left;
        NotFreedYet(p, key, left, now, cfg, alive);
        ScanDeque(key, alive);
        FreedMore(p.idle, p.idle.Keys - left, key, now, cfg, alive);
        assert p.idle.Keys - (left - {key}) == (p.idle.Keys - left) + {key};
        left := left - {key};
      }
      assert p.idle.Keys - left == p.idle.Keys;
      FreedAll(p.idle, now, cfg, alive);
    }

    /** The clock is read before and after. */
    method CheckConnectActive(before: int, after: int, alive: set<Socket>)
      requires Inv(View()) && now <= before <= after < U64
      modifies this`idle, this`now, this`freed
      ensures View() == Check(old(View()), before, after, cfg, alive) && Inv(View())
      ensures forall k | k in old(idle) :: idle[k] == FullScan(old(idle)[k], before, cfg, alive)
    {
      CheckKeeps(View(), before, after, cfg, alive);
      AllFullScans(View(), before, cfg, alive);
      hide Inv, Scanned, Freed, EarlyExit, FullScan;
      now := before;
      ScanAll(old(View()), alive);
      now := after;
    }

    method SetIdleTimeoutCheck(second: int)
      modifies this`cfg
      ensures cfg == old(cfg).(check := second * 1000)
    {
      cfg := cfg.(check := second * 1000);
    }

    method SetIdleTimeoutRelease(second: int)
      modifies this`cfg
      ensures cfg == old(cfg).(release := second * 1000)
    {
      cfg := cfg.(release := second * 1000);
    }
  }

  lemma {:induction false} EarlierTimely(d: seq<SockInfo>, now: int, later: int)
    requires Timely(d, now) && now <= later
    ensures Timely(d, later)
  {
  }

  lemma {:induction false} AllFullScans(p: PoolModel.Pool, now: int, cfg: Settings, alive: set<Socket>)
    requires Inv(p) && p.now <= now < U64
    ensures var idle := Scanned(p.idle, now, cfg, alive);
      forall k | k in p.idle :: k in idle && idle[k] == FullScan(p.idle[k], now, cfg, alive)
  {
    forall k | k in p.idle
      ensures EarlyExit(p.idle[k], now, cfg, alive) == FullScan(p.idle[k], now, cfg, alive)
    {
      assert DequeOk(p, k, p.idle[k]);
      EarlierTimely(p.idle[k], p.now, now);
      EarlyExitIsEnough(p.idle[k], now, cfg, alive);
    }
  }

  lemma {:induction false} DropIs(si: SockInfo, now: int, cfg: Settings, alive: set<Socket>)
    ensures var age := Age(now, si.start);
      Drop(si, now, cfg, alive)
          == (age > cfg.check && (age > cfg.release || (si.checked && cfg.checkActive && si.socket !in alive)))
  {
    hide Age;
  }

  lemma {:induction false} ScanStops(d: seq<SockInfo>, i: nat, now: int, cfg: Settings, alive: set<Socket>)
    requires i < |d| && Age(now, d[i].start) <= cfg.check
    ensures d[..i] + EarlyExit(d[i..], now, cfg, alive) == d
  {
    hide Age;
  }

  lemma {:induction false} ScanStep(d: seq<SockInfo>, i: nat, now: int, cfg: Settings, alive: set<Socket>)
    requires i < |d| && Age(now, d[i].start) > cfg.check
    ensures var e := d[..i] + d[i + 1..];
      d[..i] + EarlyExit(d[i..], now, cfg, alive) ==
      if Drop(d[i], now, cfg, alive) then e[..i] + EarlyExit(e[i..], now, cfg, alive)
      else d[..i + 1] + EarlyExit(d[i + 1..], now, cfg, alive)
  {
    hide Drop, Age;
    var e := d[..i] + d[i + 1..];
    var t := EarlyExit(d[i + 1..], now, cfg, alive);
    assert EarlyExit(d[i..], now, cfg, alive) == (if Drop(d[i], now, cfg, alive) then [] else [d[i]]) + t by {
      assert d[i..][0] == d[i] && d[i..][1..] == d[i + 1..];
    }
    hide EarlyExit;
    if Drop(d[i], now, cfg, alive) {
      assert e[..i] == d[..i] && e[i..] == d[i + 1..] && [] + t == t;
    } else {
      assert d[..i + 1] + t == d[..i] + ([d[i]] + t);
    }
  }

  lemma {:induction false} ScanOver(d: seq<SockInfo>, i: nat, now: int, cfg: Settings, alive: set<Socket>)
    requires i <= |d|
    ensures i == |d| ==> d[..i] + EarlyExit(d[i..], now, cfg, alive) == d
  {
  }

  lemma {:induction false} Erased(d: seq<SockInfo>, i: nat)
    requires i < |d| && DistinctFds(d)
    ensures var e := d[..i] + d[i + 1..];
      DistinctFds(e) && Sockets(e) == Sockets(d) - {d[i].socket} && d[i].socket in Sockets(d)
  {
    var e := d[..i] + d[i + 1..];
    forall j | 0 <= j < |d| && j != i
      ensures d[j].socket in Sockets(e)
    {
      assert e[if j < i then j else j - 1] == d[j];
    }
    forall j | 0 <= j < |e|
      ensures e[j] == d[if j < i then j else j + 1]
    {
    }
  }

  ghost function FreedOf(idle: map<nat, seq<SockInfo>>, keys: set<nat>, now: int, cfg: Settings,
      alive: set<Socket>): set<Socket>
    requires keys <= idle.Keys
  {
    set k, s | k in keys && s in Sockets(idle[k]) - Sockets(EarlyExit(idle[k], now, cfg, alive)) :: s
  }

  lemma {:induction false} FreedMore(idle: map<nat, seq<SockInfo>>, keys: set<nat>, key: nat, now: int, cfg: Settings,
      alive: set<Socket>)
    requires keys <= idle.Keys && key in idle
    ensures FreedOf(idle, keys + {key}, now, cfg, alive) ==
      FreedOf(idle, keys, now, cfg, alive) + (Sockets(idle[key]) - Sockets(EarlyExit(idle[key], now, cfg, alive)))
  {
  }

  lemma {:induction false} FreedNone(idle: map<nat, seq<SockInfo>>, now: int, cfg: Settings, alive: set<Socket>)
    ensures FreedOf(idle, {}, now, cfg, alive) == {}
  {
  }

  lemma {:induction false} FreedAll(idle: map<nat, seq<SockInfo>>, now: int, cfg: Settings, alive: set<Socket>)
    ensures FreedOf(idle, idle.Keys, now, cfg, alive) == Freed(idle, now, cfg, alive)
  {
  }

  lemma {:induction false} NotFreedYet(p: PoolModel.Pool, key: nat, left: set<nat>, now: int, cfg: Settings,
      alive: set<Socket>)
    requires Inv(p) && key in left && left <= p.idle.Keys
    ensures DistinctFds(p.idle[key])
    ensures Sockets(p.idle[key]) !! (p.freed + FreedOf(p.idle, p.idle.Keys - left, now, cfg, alive))
  {
    assert DequeOk(p, key, p.idle[key]);
    forall s | s in Sockets(p.idle[key])
      ensures s !in p.freed && s !in FreedOf(p.idle, p.idle.Keys - left, now, cfg, alive)
    {
      OfItsKey(p, key, s);
      FreedKeys(p, p.idle.Keys - left, now, cfg, alive);
    }
  }

  lemma {:induction false} OfItsKey(p: PoolModel.Pool, key: nat, s: Socket)
    requires Inv(p) && key in p.idle && s in Sockets(p.idle[key])
    ensures s.key == key && s !in p.freed
  {
    var i :| 0 <= i < |p.idle[key]| && p.idle[key][i].socket == s;
    Placed(p, key, i);
  }

  lemma {:induction false} FreedKeys(p: PoolModel.Pool, keys: set<nat>, now: int, cfg: Settings, alive: set<Socket>)
    requires Inv(p) && keys <= p.idle.Keys
    ensures forall s | s in FreedOf(p.idle, keys, now, cfg, alive) :: s.key in keys
  {
    forall k, s | k in keys && s in Sockets(p.idle[k])
      ensures s.key == k
    {
      OfItsKey(p, k, s);
    }
  }

  /** The sockets to servers that a connection holds. */
  class Connection {
    var masters: Option<Socket>
    var slavers: Option<Socket>

    /**
     Gives up both, to the pool that they come from. `error` if the connection ended in an error, or the status
     of the query is an error; `inTransaction` if a transaction is not finished.
     */
    method ReleaseBackendConnect(pool: ConnectionPool, error: bool, inTransaction: bool)
      requires Inv(pool.View()) && CurrentIf(pool.View(), masters) && CurrentIf(pool.View(), slavers)
      modifies this, pool`idle, pool`used, pool`freed
      ensures masters == None == slavers
      ensures pool.View() == ReleaseBoth(old(pool.View()), old(masters), old(slavers), error || inTransaction)
      ensures Inv(pool.View())
    {
      ReleaseBothKeeps(pool.View(), masters, slavers, error || inTransaction);
      hide Inv, Put, Release;
      var failed := error || inTransaction;
      if !failed {
        GiveBackKeeps(pool.View(), masters);
        StaysCurrent(pool.View(), masters, slavers);
        if masters.Some? {
          var rc := pool.SetBackendConnect(masters.value);
          if rc != 0 {
            failed := true;
          } else {
            masters := None;
          }
        }
        GiveBackKeeps(pool.View(), slavers);
        StaysCurrent(pool.View(), slavers, masters);
        if slavers.Some? {
          var rc := pool.SetBackendConnect(slavers.value);
          if rc != 0 {
            failed := true;
          } else {
            slavers := None;
          }
        }
      }
      if failed {
        ReleaseIfKeeps(pool.View(), masters);
        if masters.Some? {
          pool.ReleaseBackendSocket(masters.value);
        }
        if slavers.Some? {
          pool.ReleaseBackendSocket(slavers.value);
        }
      }
      masters, slavers := None, None;
    }
  }

  /** Giving one socket back does not put another in use. */
  lemma {:induction false} StaysCurrent(p: PoolModel.Pool, s: Option<Socket>, t: Option<Socket>)
    requires CurrentIf(p, t)
    ensures CurrentIf(GiveBack(p, s).2, t)
  {
  }
}
