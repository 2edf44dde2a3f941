/**
 The transport connection pool of connection_pool.go: leasing through wrappers
 that return a connection at most once, health marks, idle clean-up and `Close`.
 */
module TransportPool {
  import opened Common

  type ConnId = nat

  type WrapperId = nat

  /** `PooledConnection`. */
  datatype Conn = Conn(lastUsed: real, inUse: bool, healthy: bool, createdAt: real)

  /** `pooledConnectionWrapper.Close` first wins the compare-and-swap, then returns the connection. */
  datatype Phase = Open | Closing | Returned

  datatype Wrapper = Wrapper(conn: ConnId, phase: Phase)

  datatype Config = Config(maxConnections: nat, maxIdleTime: real, maxConnectionAge: real, healthChecks: bool)

  /**
   `conns` are all connections ever dialled, `closedConns` the `Close` calls the
   pool made on them, `leasedAtClose` how many were in use when it was closed.
   */
  datatype Pool = Pool(
    config: Config, connections: seq<ConnId>, activeCount: int, closed: bool,
    conns: map<ConnId, Conn>, wrappers: map<WrapperId, Wrapper>,
    closedConns: seq<ConnId>, leasedAtClose: nat)

  function NewPool(config: Config): Pool {
    Pool(config, [], 0, false, map[], map[], [], 0)
  }

  datatype Event =
    | Get(w: WrapperId, c: ConnId, dialOk: bool, ping: ConnId -> bool, now: real)
    | WrapperClose(w: WrapperId)
    | Return(w: WrapperId, now: real)
    | WriteError(w: WrapperId)
    | Cleanup(now: real)
    | Close

  /** `isConnectionHealthy`; `ping` answers for connections that can be pinged. */
  predicate IsHealthy(cfg: Config, conn: Conn, pingOk: bool, now: real) {
    now - conn.lastUsed <= cfg.maxIdleTime && now - conn.createdAt <= cfg.maxConnectionAge && pingOk
  }

  function SetConn(p: Pool, c: ConnId, conn: Conn): Pool {
    p.(conns := p.conns[c := conn])
  }

  /** The search loop of `Get` over the connections still to look at: marks and the find. */
  function Scan(p: Pool, todo: seq<ConnId>, ping: ConnId -> bool, now: real): (Pool, Option<ConnId>)
    requires forall c :: c in todo ==> c in p.conns
    decreases |todo|
  {
    if todo == [] then (p, None)
    else
      var c, conn := todo[0], p.conns[todo[0]];
      if conn.inUse || !conn.healthy then Scan(p, todo[1..], ping, now)
      else if p.config.healthChecks && !IsHealthy(p.config, conn, ping(c), now) then
        Scan(SetConn(p, c, conn.(healthy := false)), todo[1..], ping, now)
      else (p, Some(c))
  }

  /** Lease an idle connection through a new wrapper. */
  function Lease(p: Pool, w: WrapperId, c: ConnId, now: real): Pool
    requires c in p.conns
  {
    SetConn(p, c, p.conns[c].(inUse := true, lastUsed := now))
      .(activeCount := p.activeCount + 1, wrappers := p.wrappers[w := Wrapper(c, Open)])
  }

  /** Add a freshly dialled connection, already leased. */
  function AddDialled(p: Pool, w: WrapperId, c: ConnId, now: real): Pool {
    SetConn(p, c, Conn(now, true, true, now))
      .(connections := p.connections + [c], activeCount := p.activeCount + 1,
        wrappers := p.wrappers[w := Wrapper(c, Open)])
  }

  function GetStep(p: Pool, w: WrapperId, c: ConnId, dialOk: bool, ping: ConnId -> bool, now: real): Pool
    requires Known(p)
  {
    if p.closed then p
    else
      ScanKeepsKeys(p, p.connections, ping, now);
      var (marked, found) := Scan(p, p.connections, ping, now);
      if found.Some? then Lease(marked, w, found.value, now)
      else if |p.connections| < p.config.maxConnections && dialOk then AddDialled(marked, w, c, now)
      else marked
  }

  /** `Return` of the wrapper's connection. */
  function ReturnStep(p: Pool, w: WrapperId, now: real): Pool
    requires w in p.wrappers && p.wrappers[w].conn in p.conns
  {
    var c := p.wrappers[w].conn;
    var q := p.(wrappers := p.wrappers[w := Wrapper(c, Returned)]);
    if !p.conns[c].inUse then q
    else SetConn(q, c, p.conns[c].(inUse := false, lastUsed := now)).(activeCount := p.activeCount - 1)
  }

  predicate Removable(p: Pool, c: ConnId, now: real)
    requires c in p.conns
  {
    !p.conns[c].inUse && (!p.conns[c].healthy || now - p.conns[c].lastUsed > p.config.maxIdleTime)
  }

  /** `cleanup` with `todo` still to look at and `p.connections` what is kept so far. */
  function Sweep(p: Pool, todo: seq<ConnId>, now: real): Pool
    requires forall c :: c in todo ==> c in p.conns
    decreases |todo|
  {
    if todo == [] then p
    else if Removable(p, todo[0], now) then
      Sweep(p.(closedConns := p.closedConns + [todo[0]]), todo[1..], now)
    else Sweep(p.(connections := p.connections + [todo[0]]), todo[1..], now)
  }

  /** The connections in use. */
  function InUse(p: Pool): set<ConnId> {
    set c | c in p.conns && p.conns[c].inUse
  }

  function CloseStep(p: Pool): Pool {
    if p.closed then p
    else
      p.(closed := true, closedConns := p.closedConns + p.connections, connections := [], activeCount := 0,
         leasedAtClose := |InUse(p)|)
  }

  ghost predicate Known(p: Pool) {
    && (forall c :: c in p.connections ==> c in p.conns)
    && (forall w :: w in p.wrappers ==> p.wrappers[w].conn in p.conns)
  }

  lemma {:induction false} ScanKeepsKeys(p: Pool, todo: seq<ConnId>, ping: ConnId -> bool, now: real)
    requires forall c :: c in todo ==> c in p.conns
    ensures var (q, found) := Scan(p, todo, ping, now);
            && q == p.(conns := q.conns) && q.conns.Keys == p.conns.Keys
            && (forall c :: c in p.conns ==> q.conns[c] == p.conns[c] || q.conns[c] == p.conns[c].(healthy := false))
            && (found.Some? ==> found.value in todo && found.value in p.conns && !p.conns[found.value].inUse)
    decreases |todo|
  {
    if todo == [] {
    } else {
      var c, conn := todo[0], p.conns[todo[0]];
      if conn.inUse || !conn.healthy {
        ScanKeepsKeys(p, todo[1..], ping, now);
      } else if p.config.healthChecks && !IsHealthy(p.config, conn, ping(c), now) {
        ScanKeepsKeys(SetConn(p, c, conn.(healthy := false)), todo[1..], ping, now);
      }
    }
  }

  ghost predicate Enabled(p: Pool, e: Event) {
    && Known(p)
    && match e
       case Get(w, c, _, _, _) => w !in p.wrappers && c !in p.conns
       case WrapperClose(w) => w in p.wrappers
       case Return(w, _) => w in p.wrappers && p.wrappers[w].phase.Closing?
       case WriteError(w) => w in p.wrappers
       case Cleanup(_) => true
       case Close => true
  }

  ghost function Next(p: Pool, e: Event): Pool
    requires Enabled(p, e)
  {
    match e
    case Get(w, c, dialOk, ping, now) => GetStep(p, w, c, dialOk, ping, now)
    case WrapperClose(w) =>
      if p.wrappers[w].phase.Open? then p.(wrappers := p.wrappers[w := p.wrappers[w].(phase := Closing)]) else p
    case Return(w, now) => ReturnStep(p, w, now)
    case WriteError(w) => SetConn(p, p.wrappers[w].conn, p.conns[p.wrappers[w].conn].(healthy := false))
    case Cleanup(now) => if p.closed then p else Sweep(p.(connections := []), p.connections, now)
    case Close => CloseStep(p)
  }

  // ---- Invariants ----

  ghost predicate NoDup(s: seq<ConnId>) {
    forall i, j :: 0 <= i < j < |s| ==> s[i] != s[j]
  }

  /** A dialled connection is in the pool or has been closed, once, and never both. */
  ghost predicate Placed(p: Pool) {
    && NoDup(p.connections) && NoDup(p.closedConns)
    && (forall c :: c in p.connections ==> c in p.conns && c !in p.closedConns)
    && (forall c :: c in p.closedConns ==> c in p.conns)
    && (forall c :: c in p.conns ==> c in p.connections || c in p.closedConns)
    && (p.closed ==> p.connections == [])
    && (!p.closed ==> forall c :: c in p.closedConns ==> !p.conns[c].inUse)
  }

  /** The wrapper has not returned its connection yet. */
  predicate Holds(p: Pool, w: WrapperId) {
    w in p.wrappers && !p.wrappers[w].phase.Returned?
  }

  /** Each connection in use has exactly one wrapper that has not returned it. */
  ghost predicate Leased(p: Pool) {
    && (forall w :: w in p.wrappers ==> p.wrappers[w].conn in p.conns)
    && (forall w :: Holds(p, w) ==> p.conns[p.wrappers[w].conn].inUse)
    && (forall v, w :: Holds(p, v) && Holds(p, w) && v != w ==> p.wrappers[v].conn != p.wrappers[w].conn)
    && (forall c :: c in p.conns && p.conns[c].inUse ==> exists w :: Holds(p, w) && p.wrappers[w].conn == c)
  }

  /** The active count: exact while open, off by the leases outstanding at `Close` afterwards. */
  ghost predicate Counted(p: Pool) {
    p.activeCount == |InUse(p)| - if p.closed then p.leasedAtClose else 0
  }

  ghost predicate Sound(p: Pool) {
    Placed(p) && Leased(p) && Counted(p) && |p.connections| <= p.config.maxConnections
  }

  /** Marking connections unhealthy does not matter to any of this. */
  lemma MarksKeepSound(p: Pool, q: Pool)
    requires Sound(p) && q == p.(conns := q.conns) && q.conns.Keys == p.conns.Keys
    requires forall c :: c in p.conns ==> q.conns[c] == p.conns[c] || q.conns[c] == p.conns[c].(healthy := false)
    ensures Sound(q)
  {
    assert InUse(q) == InUse(p);
    forall c | c in q.conns && q.conns[c].inUse
      ensures exists w :: Holds(q, w) && q.wrappers[w].conn == c
    {
      var w :| Holds(p, w) && p.wrappers[w].conn == c;
      assert Holds(q, w);
    }
  }

  lemma LeaseKeepsLeased(p: Pool, q: Pool, w: WrapperId, c: ConnId)
    requires Leased(p) && w !in p.wrappers && (c in p.conns ==> !p.conns[c].inUse)
    requires q.wrappers == p.wrappers[w := Wrapper(c, Open)]
    requires c in q.conns && q.conns[c].inUse && q.conns == p.conns[c := q.conns[c]]
    ensures Leased(q)
  {
    forall d | d in q.conns && q.conns[d].inUse
      ensures exists v :: Holds(q, v) && q.wrappers[v].conn == d
    {
      if d == c {
        assert Holds(q, w) && q.wrappers[w].conn == c;
      } else {
        var v :| Holds(p, v) && p.wrappers[v].conn == d;
        assert Holds(q, v) && q.wrappers[v] == p.wrappers[v];
      }
    }
  }

  lemma LeaseKeeps(p: Pool, w: WrapperId, c: ConnId, now: real)
    requires Sound(p) && !p.closed && w !in p.wrappers && c in p.connections && !p.conns[c].inUse
    ensures Sound(Lease(p, w, c, now))
  {
    var q := Lease(p, w, c, now);
    assert InUse(q) == InUse(p) + {c};
    LeaseKeepsLeased(p, q, w, c);
  }

  lemma AddKeepsPlaced(p: Pool, c: ConnId, conn: Conn)
    requires Placed(p) && !p.closed && c !in p.conns
    ensures Placed(SetConn(p, c, conn).(connections := p.connections + [c]))
  {
    var connections := p.connections + [c];
    assert forall d :: d in connections <==> d in p.connections || d == c;
  }

  lemma AddDialledKeeps(p: Pool, w: WrapperId, c: ConnId, now: real)
    requires Sound(p) && !p.closed && w !in p.wrappers && c !in p.conns
    requires |p.connections| < p.config.maxConnections
    ensures Sound(AddDialled(p, w, c, now))
  {
    var q := AddDialled(p, w, c, now);
    assert InUse(q) == InUse(p) + {c};
    AddKeepsPlaced(p, c, Conn(now, true, true, now));
    LeaseKeepsLeased(p, q, w, c);
  }

  lemma GetKeeps(p: Pool, w: WrapperId, c: ConnId, dialOk: bool, ping: ConnId -> bool, now: real)
    requires Sound(p) && Enabled(p, Get(w, c, dialOk, ping, now))
    ensures Sound(GetStep(p, w, c, dialOk, ping, now))
  {
    if !p.closed {
      ScanKeepsKeys(p, p.connections, ping, now);
      var (marked, found) := Scan(p, p.connections, ping, now);
      MarksKeepSound(p, marked);
      if found.Some? {
        LeaseKeeps(marked, w, found.value, now);
      } else if |p.connections| < p.config.maxConnections && dialOk {
        AddDialledKeeps(marked, w, c, now);
      }
    }
  }

  lemma ReturnKeepsLeased(p: Pool, q: Pool, w: WrapperId, c: ConnId)
    requires Leased(p) && Holds(p, w) && c == p.wrappers[w].conn
    requires q.wrappers == p.wrappers[w := Wrapper(c, Returned)]
    requires c in q.conns && !q.conns[c].inUse && q.conns == p.conns[c := q.conns[c]]
    ensures Leased(q)
  {
    forall v | Holds(q, v) ensures Holds(p, v) && v != w && q.wrappers[v] == p.wrappers[v] {}
    forall d | d in q.conns && q.conns[d].inUse
      ensures exists v :: Holds(q, v) && q.wrappers[v].conn == d
    {
      var v :| Holds(p, v) && p.wrappers[v].conn == d;
      assert Holds(q, v) && q.wrappers[v] == p.wrappers[v];
    }
  }

  lemma ReturnKeeps(p: Pool, w: WrapperId, now: real)
    requires Sound(p) && w in p.wrappers && p.wrappers[w].phase.Closing?
    ensures Sound(ReturnStep(p, w, now))
  {
    var c := p.wrappers[w].conn;
    var q := ReturnStep(p, w, now);
    assert Holds(p, w);
    assert InUse(q) == InUse(p) - {c};
    ReturnKeepsLeased(p, q, w, c);
  }

  lemma WrapperCloseKeeps(p: Pool, w: WrapperId, q: Pool)
    requires Sound(p) && w in p.wrappers && p.wrappers[w].phase.Open?
    requires q == p.(wrappers := p.wrappers[w := p.wrappers[w].(phase := Closing)])
    ensures Sound(q)
  {
    assert InUse(q) == InUse(p);
    forall d | d in q.conns && q.conns[d].inUse
      ensures exists v :: Holds(q, v) && q.wrappers[v].conn == d
    {
      var v :| Holds(p, v) && p.wrappers[v].conn == d;
      assert Holds(q, v) && q.wrappers[v].conn == d;
    }
  }

  /** Closing one idle connection, wherever it stands in the list. */
  lemma DropKeepsPlaced(p: Pool, before: seq<ConnId>, c: ConnId, rest: seq<ConnId>)
    requires p.connections == before + [c] + rest && Placed(p) && !p.closed && !p.conns[c].inUse
    ensures Placed(p.(connections := before + rest, closedConns := p.closedConns + [c]))
  {
    var q := p.(connections := before + rest, closedConns := p.closedConns + [c]);
    DropKeepsNoDup(before, c, rest);
    assert p.connections[|before|] == c;
    assert c in p.connections && c !in p.closedConns;
    AppendKeepsNoDup(p.closedConns, c);
    forall x ensures x in p.connections <==> x in q.connections || x == c {
      ConcatMembers(before, c, rest, x);
    }
    assert forall x :: x in q.closedConns <==> x in p.closedConns || x == c;
  }

  lemma AppendKeepsNoDup(s: seq<ConnId>, c: ConnId)
    requires NoDup(s) && c !in s
    ensures NoDup(s + [c])
  {
  }

  lemma ConcatMembers(before: seq<ConnId>, c: ConnId, rest: seq<ConnId>, x: ConnId)
    ensures x in before + [c] + rest <==> x in before + rest || x == c
  {
    assert (before + [c] + rest)[|before|] == c;
  }

  lemma DropKeepsNoDup(before: seq<ConnId>, c: ConnId, rest: seq<ConnId>)
    requires NoDup(before + [c] + rest)
    ensures NoDup(before + rest) && c !in before + rest
  {
    var all, left := before + [c] + rest, before + rest;
    assert forall i :: 0 <= i < |left| ==> left[i] == all[if i < |before| then i else i + 1];
    assert all[|before|] == c;
  }

  lemma {:induction false} SweepKeepsPlaced(p: Pool, todo: seq<ConnId>, now: real)
    requires Placed(p.(connections := p.connections + todo)) && !p.closed
    ensures forall c :: c in todo ==> c in p.conns
    ensures var q := Sweep(p, todo, now);
            && Placed(q) && |q.connections| <= |p.connections| + |todo|
            && q == p.(connections := q.connections, closedConns := q.closedConns)
    decreases |todo|
  {
    if todo == [] {
      assert p.connections + todo == p.connections;
    } else {
      var c := todo[0];
      var whole := p.(connections := p.connections + todo);
      assert forall x :: x in todo ==> x in whole.connections;
      assert p.connections + [c] + todo[1..] == p.connections + todo;
      if Removable(p, c, now) {
        DropKeepsPlaced(whole, p.connections, c, todo[1..]);
        SweepKeepsPlaced(p.(closedConns := p.closedConns + [c]), todo[1..], now);
      } else {
        SweepKeepsPlaced(p.(connections := p.connections + [c]), todo[1..], now);
      }
    }
  }

  lemma CleanupKeeps(p: Pool, now: real)
    requires Sound(p) && !p.closed
    ensures Sound(Sweep(p.(connections := []), p.connections, now))
  {
    assert [] + p.connections == p.connections;
    SweepKeepsPlaced(p.(connections := []), p.connections, now);
    SameLeases(p, Sweep(p.(connections := []), p.connections, now));
  }

  /** Leases and their count depend on connections and wrappers alone. */
  lemma SameLeases(p: Pool, q: Pool)
    requires Leased(p) && Counted(p)
    requires q.conns == p.conns && q.wrappers == p.wrappers && q.activeCount == p.activeCount
    requires q.closed == p.closed && q.leasedAtClose == p.leasedAtClose
    ensures Leased(q) && Counted(q)
  {
    assert InUse(q) == InUse(p);
    forall w ensures Holds(q, w) <==> Holds(p, w) {}
    forall c | c in q.conns && q.conns[c].inUse
      ensures exists w :: Holds(q, w) && q.wrappers[w].conn == c
    {
      var w :| Holds(p, w) && p.wrappers[w].conn == c;
      assert Holds(q, w);
    }
  }

  lemma NoDupConcat(a: seq<ConnId>, b: seq<ConnId>)
    requires NoDup(a) && NoDup(b) && forall c :: c in b ==> c !in a
    ensures NoDup(a + b)
  {
    var s := a + b;
    forall i, j | 0 <= i < j < |s| ensures s[i] != s[j] {
      if i < |a| <= j {
        assert s[j] in b && s[i] in a;
      }
    }
  }

  lemma CloseKeeps(p: Pool)
    requires Sound(p)
    ensures Sound(CloseStep(p))
  {
    var q := CloseStep(p);
    assert InUse(q) == InUse(p);
    if !p.closed {
      assert forall c :: c in q.closedConns <==> c in p.closedConns || c in p.connections;
      NoDupConcat(p.closedConns, p.connections);
    }
    forall w | Holds(q, w) ensures Holds(p, w) {}
    forall c | c in q.conns && q.conns[c].inUse
      ensures exists w :: Holds(q, w) && q.wrappers[w].conn == c
    {
      var w :| Holds(p, w) && p.wrappers[w].conn == c;
      assert Holds(q, w);
    }
  }

  lemma StepKeepsSound(p: Pool, e: Event)
    requires Sound(p) && Enabled(p, e)
    ensures Sound(Next(p, e))
  {
    match e
    case Get(w, c, dialOk, ping, now) => GetKeeps(p, w, c, dialOk, ping, now);
    case WrapperClose(w) =>
      if p.wrappers[w].phase.Open? {
        WrapperCloseKeeps(p, w, Next(p, e));
      }
    case Return(w, now) => ReturnKeeps(p, w, now);
    case WriteError(w) => MarksKeepSound(p, Next(p, e));
    case Cleanup(now) =>
      if !p.closed {
        CleanupKeeps(p, now);
      }
    case Close => CloseKeeps(p);
  }

  // ---- Runs ----

  ghost function After(p: Pool, es: seq<Event>): Pool {
    if es == [] then p
    else
      var before := After(p, Front(es));
      if Enabled(before, Last(es)) then Next(before, Last(es)) else before
  }

  ghost predicate Legal(p: Pool, es: seq<Event>) {
    es == [] || (Legal(p, Front(es)) && Enabled(After(p, Front(es)), Last(es)))
  }

  lemma {:induction false} RunSound(config: Config, es: seq<Event>)
    requires Legal(NewPool(config), es)
    ensures Sound(After(NewPool(config), es))
    ensures After(NewPool(config), es).config == config
  {
    if es == [] {
      assert InUse(NewPool(config)) == {};
    } else {
      var before := After(NewPool(config), Front(es));
      RunSound(config, Front(es));
      StepKeepsSound(before, Last(es));
      assert Next(before, Last(es)).config == config by {
        if Last(es).Get? {
          ScanKeepsKeys(before, before.connections, Last(es).ping, Last(es).now);
        }
        if Last(es).Cleanup? && !before.closed {
          assert [] + before.connections == before.connections;
          SweepKeepsPlaced(before.(connections := []), before.connections, Last(es).now);
        }
      }
    }
  }

  /**
   While the pool is open, in every run: the active count is the number of
   connections in use, each of which has exactly one wrapper that has not
   returned it, and the pool holds at most the configured number.
   */
  lemma OpenPoolSafety(config: Config, es: seq<Event>)
    requires Legal(NewPool(config), es) && !After(NewPool(config), es).closed
    ensures var p := After(NewPool(config), es);
            && p.activeCount == |InUse(p)| && |p.connections| <= config.maxConnections
            && (forall c :: c in InUse(p) ==> exists w :: Holds(p, w) && p.wrappers[w].conn == c)
            && (forall v, w :: Holds(p, v) && Holds(p, w) && p.wrappers[v].conn == p.wrappers[w].conn ==> v == w)
  {
    RunSound(config, es);
  }

  /**
   Over the whole run the pool closes a dialled connection at most once, and once
   the pool is closed every connection it ever dialled has been closed exactly once.
   */
  lemma ClosedExactlyOnce(config: Config, es: seq<Event>)
    requires Legal(NewPool(config), es)
    ensures var p := After(NewPool(config), es);
            && NoDup(p.closedConns)
            && (forall c :: c in p.closedConns ==> c in p.conns)
            && (p.closed ==> forall c :: c in p.conns ==> c in p.closedConns)
  {
    RunSound(config, es);
  }

  /**
   After `Close` the active count is minus the number of leases returned since, so
   it is still right exactly when none that was outstanding has come back.
   */
  lemma CountAfterClose(config: Config, es: seq<Event>)
    requires Legal(NewPool(config), es) && After(NewPool(config), es).closed
    ensures var p := After(NewPool(config), es);
            && p.activeCount == |InUse(p)| - p.leasedAtClose
            && (p.activeCount == 0 <==> |InUse(p)| == p.leasedAtClose)
  {
    RunSound(config, es);
  }

  /** A lease returned after `Close` drives the count below zero. */
  lemma ReturnAfterCloseUnbalances(p: Pool, w: WrapperId, now: real)
    requires Sound(p) && !p.closed && w in p.wrappers && p.wrappers[w].phase.Closing?
    ensures ReturnStep(CloseStep(p), w, now).activeCount == -1
  {
    assert Holds(p, w);
  }

  // ---- What Get and the clean-up choose ----

  /**
   Idle, not marked, and with health checks: used and dialled recently enough, and
   answering the ping.
   */
  predicate Usable(p: Pool, c: ConnId, ping: ConnId -> bool, now: real)
    requires c in p.conns
  {
    && !p.conns[c].inUse && p.conns[c].healthy
    && (p.config.healthChecks ==>
          && now <= p.conns[c].lastUsed + p.config.maxIdleTime
          && now <= p.conns[c].createdAt + p.config.maxConnectionAge && ping(c))
  }

  /** What looking at the first connections does: the idle healthy ones among them are marked. */
  ghost predicate Marked(p: Pool, q: Pool, looked: seq<ConnId>) {
    && q.conns.Keys == p.conns.Keys && q == p.(conns := q.conns)
    && forall c :: c in p.conns ==>
         q.conns[c] == if c in looked && !p.conns[c].inUse then p.conns[c].(healthy := false) else p.conns[c]
  }

  /** The scan takes the first usable connection and marks the idle ones before it. */
  lemma {:induction false} ScanFinds(p: Pool, todo: seq<ConnId>, ping: ConnId -> bool, now: real) returns (k: nat)
    requires forall c :: c in todo ==> c in p.conns
    ensures var (q, found) := Scan(p, todo, ping, now);
            && k <= |todo| && (forall j :: 0 <= j < k ==> !Usable(p, todo[j], ping, now))
            && found == (if k == |todo| then None else Some(todo[k]))
            && (k < |todo| ==> Usable(p, todo[k], ping, now))
            && Marked(p, q, todo[..k])
    decreases |todo|
  {
    if todo == [] || Usable(p, todo[0], ping, now) {
      k := 0;
    } else {
      var c, rest := todo[0], todo[1..];
      var p' := if p.conns[c].inUse || !p.conns[c].healthy then p else SetConn(p, c, p.conns[c].(healthy := false));
      var j := ScanFinds(p', rest, ping, now);
      k := j + 1;
      assert todo[..k] == [c] + rest[..j];
      UsableElsewhere(p, p', c, rest, ping, now);
    }
  }

  /** A connection that is not usable stays so when marked, and marking it does not matter to others. */
  lemma UsableElsewhere(p: Pool, p': Pool, c: ConnId, rest: seq<ConnId>, ping: ConnId -> bool, now: real)
    requires c in p.conns && !Usable(p, c, ping, now) && forall d :: d in rest ==> d in p.conns
    requires p' == p || p' == SetConn(p, c, p.conns[c].(healthy := false))
    ensures forall d :: d in rest ==> d in p'.conns && (Usable(p', d, ping, now) <==> Usable(p, d, ping, now))
  {
  }

  /**
   `Get` on an open pool leases the first usable connection if there is one,
   otherwise the one it dials if there is room and dialling works, otherwise
   nothing.
   */
  lemma GetOutcome(p: Pool, w: WrapperId, c: ConnId, dialOk: bool, ping: ConnId -> bool, now: real) returns (k: nat)
    requires Enabled(p, Get(w, c, dialOk, ping, now)) && !p.closed
    ensures k <= |p.connections| && forall j :: 0 <= j < k ==> !Usable(p, p.connections[j], ping, now)
    ensures var q := GetStep(p, w, c, dialOk, ping, now);
            if k < |p.connections| then
              && Usable(p, p.connections[k], ping, now) && q.connections == p.connections
              && w in q.wrappers && q.wrappers[w] == Wrapper(p.connections[k], Open)
            else if |p.connections| < p.config.maxConnections && dialOk then
              w in q.wrappers && q.wrappers[w] == Wrapper(c, Open) && q.connections == p.connections + [c]
            else q.wrappers == p.wrappers && q.connections == p.connections && q.activeCount == p.activeCount
  {
    k := ScanFinds(p, p.connections, ping, now);
  }

  lemma {:induction false} SweepSplits(p: Pool, todo: seq<ConnId>, now: real)
    requires forall c :: c in todo ==> c in p.conns
    ensures var q := Sweep(p, todo, now);
            && (forall c :: c in q.connections <==> c in p.connections || (c in todo && !Removable(p, c, now)))
            && (forall c :: c in q.closedConns <==> c in p.closedConns || (c in todo && Removable(p, c, now)))
    decreases |todo|
  {
    if todo == [] {
    } else {
      var c, rest := todo[0], todo[1..];
      SweepSplits(if Removable(p, c, now) then p.(closedConns := p.closedConns + [c])
                  else p.(connections := p.connections + [c]), rest, now);
      assert forall x :: x in todo <==> x == c || x in rest;
    }
  }

  /** What a clean-up leaves, in order. */
  function Remaining(p: Pool, todo: seq<ConnId>, now: real): seq<ConnId>
    requires forall c :: c in todo ==> c in p.conns
  {
    if todo == [] then []
    else (if Removable(p, todo[0], now) then [] else [todo[0]]) + Remaining(p, todo[1..], now)
  }

  lemma {:induction false} RemainingSame(p: Pool, q: Pool, todo: seq<ConnId>, now: real)
    requires p.conns == q.conns && p.config == q.config && forall c :: c in todo ==> c in p.conns
    ensures Remaining(p, todo, now) == Remaining(q, todo, now)
  {
    if todo == [] {
    } else {
      RemainingSame(p, q, todo[1..], now);
    }
  }

  lemma {:induction false} SweepInOrder(p: Pool, todo: seq<ConnId>, now: real)
    requires forall c :: c in todo ==> c in p.conns
    ensures Sweep(p, todo, now).connections == p.connections + Remaining(p, todo, now)
    decreases |todo|
  {
    if todo == [] {
      assert p.connections + [] == p.connections;
    } else {
      var c, rest := todo[0], todo[1..];
      var p' := if Removable(p, c, now) then p.(closedConns := p.closedConns + [c])
                else p.(connections := p.connections + [c]);
      SweepInOrder(p', rest, now);
      RemainingSame(p, p', rest, now);
      assert p.connections + [c] + Remaining(p, rest, now) == p.connections + ([c] + Remaining(p, rest, now));
    }
  }

  /** A clean-up closes the connections nobody holds that are unhealthy or idle for too long, and no other. */
  lemma CleanupCloses(p: Pool, now: real)
    requires Enabled(p, Cleanup(now)) && !p.closed
    ensures var q := Next(p, Cleanup(now));
            && (forall c :: c in q.connections <==> c in p.connections && !Removable(p, c, now))
            && (forall c :: c in q.closedConns <==> c in p.closedConns || (c in p.connections && Removable(p, c, now)))
            && q.connections == Remaining(p, p.connections, now)
  {
    SweepSplits(p.(connections := []), p.connections, now);
    SweepInOrder(p.(connections := []), p.connections, now);
    RemainingSame(p, p.(connections := []), p.connections, now);
    assert [] + Remaining(p, p.connections, now) == Remaining(p, p.connections, now);
  }

  // ---- Use, age and health by the history ----

  /** The event hands out `c`. */
  ghost predicate HandsOut(p: Pool, e: Event, c: ConnId)
    requires Enabled(p, e)
  {
    e.Get? && e.w in Next(p, e).wrappers && Next(p, e).wrappers[e.w].conn == c
  }

  /** The event returns `c` while it is in use. */
  ghost predicate TakesBack(p: Pool, e: Event, c: ConnId)
    requires Enabled(p, e)
  {
    e.Return? && p.wrappers[e.w].conn == c && p.conns[c].inUse
  }

  /** The event finds `c` wanting: a write on it fails, or `Get` comes across it idle and not usable. */
  ghost predicate FindsWanting(p: Pool, e: Event, c: ConnId)
    requires Enabled(p, e)
  {
    || (e.WriteError? && p.wrappers[e.w].conn == c)
    || (e.Get? && !p.closed && c in p.conns && !p.conns[c].inUse &&
        exists j :: && 0 <= j < |p.connections| && p.connections[j] == c
                    && forall i :: 0 <= i <= j ==> !Usable(p, p.connections[i], e.ping, e.now))
  }

  lemma GetConns(p: Pool, e: Event, c: ConnId)
    requires Enabled(p, e) && e.Get? && c in Next(p, e).conns
    ensures c !in p.conns ==> HandsOut(p, e, c) && Next(p, e).conns[c] == Conn(e.now, true, true, e.now)
    ensures c in p.conns ==>
              var was, now := p.conns[c], Next(p, e).conns[c];
              && now.createdAt == was.createdAt
              && now.lastUsed == (if HandsOut(p, e, c) then e.now else was.lastUsed)
              && now.healthy == (was.healthy && !FindsWanting(p, e, c))
  {
    if !p.closed {
      var k := ScanFinds(p, p.connections, e.ping, e.now);
      ScanKeepsKeys(p, p.connections, e.ping, e.now);
      if c in p.conns && !p.conns[c].inUse {
        LookedAt(p, p.connections, k, c, e.ping, e.now);
      }
    }
  }

  /** Looked at in vain is: among the first, all of them unusable. */
  lemma LookedAt(p: Pool, s: seq<ConnId>, k: nat, c: ConnId, ping: ConnId -> bool, now: real)
    requires k <= |s| && (forall d :: d in s ==> d in p.conns)
    requires (forall j :: 0 <= j < k ==> !Usable(p, s[j], ping, now)) && (k < |s| ==> Usable(p, s[k], ping, now))
    ensures c in s[..k] <==>
            exists j :: 0 <= j < |s| && s[j] == c && forall i :: 0 <= i <= j ==> !Usable(p, s[i], ping, now)
  {
  }

  lemma {:induction false} SweepKeepsConns(p: Pool, todo: seq<ConnId>, now: real)
    requires forall c :: c in todo ==> c in p.conns
    ensures Sweep(p, todo, now).conns == p.conns && Sweep(p, todo, now).config == p.config
    decreases |todo|
  {
    if todo == [] {
    } else {
      SweepKeepsConns(if Removable(p, todo[0], now) then p.(closedConns := p.closedConns + [todo[0]])
                      else p.(connections := p.connections + [todo[0]]), todo[1..], now);
    }
  }

  lemma ConnStep(p: Pool, e: Event, c: ConnId)
    requires Enabled(p, e) && c in Next(p, e).conns
    ensures c !in p.conns ==> HandsOut(p, e, c) && e.Get? && Next(p, e).conns[c] == Conn(e.now, true, true, e.now)
    ensures c in p.conns ==>
              var was, now := p.conns[c], Next(p, e).conns[c];
              && now.createdAt == was.createdAt
              && now.lastUsed == (if HandsOut(p, e, c) || TakesBack(p, e, c) then e.now else was.lastUsed)
              && now.healthy == (was.healthy && !FindsWanting(p, e, c))
  {
    if e.Get? {
      GetConns(p, e, c);
    } else if e.Cleanup? && !p.closed {
      SweepKeepsConns(p.(connections := []), p.connections, e.now);
    }
  }

  /** When `c` was dialled. */
  ghost function DialledAt(p: Pool, es: seq<Event>, c: ConnId): Option<real>
    requires Legal(p, es)
  {
    if es == [] then None
    else if c !in After(p, Front(es)).conns && HandsOut(After(p, Front(es)), Last(es), c) then Some(Last(es).now)
    else DialledAt(p, Front(es), c)
  }

  /** When `c` was last handed out or returned. */
  ghost function UsedAt(p: Pool, es: seq<Event>, c: ConnId): Option<real>
    requires Legal(p, es)
  {
    if es == [] then None
    else if HandsOut(After(p, Front(es)), Last(es), c) || TakesBack(After(p, Front(es)), Last(es), c) then
      Some(Last(es).now)
    else UsedAt(p, Front(es), c)
  }

  /** Some event since it was dialled found `c` wanting. */
  ghost predicate Wanting(p: Pool, es: seq<Event>, c: ConnId)
    requires Legal(p, es)
  {
    && es != [] && c in After(p, Front(es)).conns
    && (Wanting(p, Front(es), c) || FindsWanting(After(p, Front(es)), Last(es), c))
  }

  /**
   In every run a connection was last used when it was last handed out or returned,
   made when it was dialled, and is healthy if and only if nothing found it wanting.
   */
  lemma {:induction false} RunConns(p: Pool, es: seq<Event>, c: ConnId)
    requires Legal(p, es) && p.conns == map[] && c in After(p, es).conns
    ensures DialledAt(p, es, c) == Some(After(p, es).conns[c].createdAt)
    ensures UsedAt(p, es, c) == Some(After(p, es).conns[c].lastUsed)
    ensures After(p, es).conns[c].healthy <==> !Wanting(p, es, c)
  {
    var before := After(p, Front(es));
    ConnStep(before, Last(es), c);
    if c in before.conns {
      RunConns(p, Front(es), c);
    }
  }

  /**
   In every run a clean-up of an open pool keeps a connection if and only if it is
   in use, or nothing found it wanting and it was used recently enough.
   */
  lemma KeptByCleanupIff(config: Config, es: seq<Event>, c: ConnId, now: real)
    requires Legal(NewPool(config), es) && !After(NewPool(config), es).closed
    requires c in After(NewPool(config), es).connections
    ensures var p := After(NewPool(config), es);
            && Enabled(p, Cleanup(now)) && c in p.conns && UsedAt(NewPool(config), es, c).Some?
            && (c in Next(p, Cleanup(now)).connections <==>
                p.conns[c].inUse ||
                (!Wanting(NewPool(config), es, c) && now <= UsedAt(NewPool(config), es, c).value + config.maxIdleTime))
  {
    RunSound(config, es);
    RunConns(NewPool(config), es, c);
    CleanupCloses(After(NewPool(config), es), now);
  }

  /**
   In every run of a pool with health checks, `Get` reuses only connections that
   nothing found wanting, used and dialled recently enough, and answering the ping.
   */
  lemma ReusedIsSound(config: Config, es: seq<Event>, w: WrapperId, c: ConnId, dialOk: bool,
                      ping: ConnId -> bool, now: real)
    requires Legal(NewPool(config), es) && !After(NewPool(config), es).closed && config.healthChecks
    requires Enabled(After(NewPool(config), es), Get(w, c, dialOk, ping, now))
    requires var q := GetStep(After(NewPool(config), es), w, c, dialOk, ping, now);
             w in q.wrappers && q.wrappers[w].conn != c
    ensures var d := GetStep(After(NewPool(config), es), w, c, dialOk, ping, now).wrappers[w].conn;
            var used, dialled := UsedAt(NewPool(config), es, d), DialledAt(NewPool(config), es, d);
            && !Wanting(NewPool(config), es, d) && ping(d)
            && used.Some? && now <= used.value + config.maxIdleTime
            && dialled.Some? && now <= dialled.value + config.maxConnectionAge
  {
    RunSound(config, es);
    var p := After(NewPool(config), es);
    var k := GetOutcome(p, w, c, dialOk, ping, now);
    RunConns(NewPool(config), es, p.connections[k]);
  }

  // ---- Statistics ----

  /** The idle connections of a list, in order. */
  function IdleOf(conns: map<ConnId, Conn>, s: seq<ConnId>): seq<ConnId>
    requires forall c :: c in s ==> c in conns
  {
    if s == [] then []
    else IdleOf(conns, Front(s)) + if conns[Last(s)].inUse then [] else [Last(s)]
  }

  /** The connections of a list not marked unhealthy, in order. */
  function HealthyOf(conns: map<ConnId, Conn>, s: seq<ConnId>): seq<ConnId>
    requires forall c :: c in s ==> c in conns
  {
    if s == [] then []
    else HealthyOf(conns, Front(s)) + if conns[Last(s)].healthy then [Last(s)] else []
  }

  /** The busy connections of a list. */
  function BusyOf(conns: map<ConnId, Conn>, s: seq<ConnId>): set<ConnId>
    requires forall c :: c in s ==> c in conns
  {
    if s == [] then {}
    else BusyOf(conns, Front(s)) + if conns[Last(s)].inUse then {Last(s)} else {}
  }

  lemma {:induction false} BusyMembers(conns: map<ConnId, Conn>, s: seq<ConnId>)
    requires forall c :: c in s ==> c in conns
    ensures forall c :: c in BusyOf(conns, s) <==> c in s && conns[c].inUse
  {
    if s == [] {
    } else {
      BusyMembers(conns, Front(s));
      assert forall c :: c in s <==> c in Front(s) || c == Last(s);
    }
  }

  lemma {:induction false} CountSplit(conns: map<ConnId, Conn>, s: seq<ConnId>)
    requires NoDup(s) && forall c :: c in s ==> c in conns
    ensures |IdleOf(conns, s)| + |BusyOf(conns, s)| == |s|
  {
    if s == [] {
    } else {
      CountSplit(conns, Front(s));
      BusyMembers(conns, Front(s));
      assert Last(s) !in Front(s);
    }
  }

  /** While the pool is open, active plus idle is the total. */
  lemma ActivePlusIdle(p: Pool)
    requires Sound(p) && !p.closed
    ensures p.activeCount + |IdleOf(p.conns, p.connections)| == |p.connections|
  {
    CountSplit(p.conns, p.connections);
    BusyMembers(p.conns, p.connections);
    assert InUse(p) == BusyOf(p.conns, p.connections);
  }

  // ---- The object ----

  class ConnectionPool {
    const config: Config
    var connections: seq<ConnId>
    var activeCount: int
    var closed: bool
    /** The `PooledConnection` objects dialled so far. */
    var conns: map<ConnId, Conn>
    ghost var wrappers: map<WrapperId, Wrapper>
    ghost var closedConns: seq<ConnId>
    ghost var leasedAtClose: nat

    ghost function State(): Pool
      reads this
    {
      Pool(config, connections, activeCount, closed, conns, wrappers, closedConns, leasedAtClose)
    }

    constructor (config: Config)
      ensures State() == NewPool(config)
    {
      this.config := config;
      connections, activeCount, closed := [], 0, false;
      conns, wrappers, closedConns, leasedAtClose := map[], map[], [], 0;
    }

    /** The loop of `Get` that looks for an idle healthy connection. */
    method FindIdle(ping: ConnId -> bool, now: real) returns (found: Option<ConnId>)
      requires Known(State())
      modifies this`conns
      ensures (State(), found) == Scan(old(State()), connections, ping, now)
    {
      var i := 0;
      assert connections[0..] == connections;
      ScanKeepsKeys(State(), connections, ping, now);
      while i < |connections|
        invariant 0 <= i <= |connections|
        invariant forall c :: c in connections ==> c in conns
        invariant Scan(State(), connections[i..], ping, now) == Scan(old(State()), connections, ping, now)
      {
        var c := connections[i];
        assert connections[i..][0] == c && connections[i..][1..] == connections[i + 1..];
        if !conns[c].inUse && conns[c].healthy {
          if config.healthChecks && !IsHealthy(config, conns[c], ping(c), now) {
            conns := conns[c := conns[c].(healthy := false)];
          } else {
            return Some(c);
          }
        }
        i := i + 1;
      }
      return None;
    }

    /** `Get`; `dialled` is what the transport would dial, None its error. */
    method Get(ghost w: WrapperId, dialled: Option<ConnId>, ping: ConnId -> bool, now: real)
      returns (conn: Option<ConnId>)
      requires Known(State()) && w !in wrappers && (dialled.Some? ==> dialled.value !in conns)
      modifies this
      ensures State() == GetStep(old(State()), w, if dialled.Some? then dialled.value else 0, dialled.Some?, ping, now)
      ensures conn.Some? ==> w in wrappers && wrappers[w] == Wrapper(conn.value, Open)
      ensures conn.None? ==> wrappers == old(wrappers) && connections == old(connections)
    {
      if closed {
        return None;
      }
      ScanKeepsKeys(State(), connections, ping, now);
      var found := FindIdle(ping, now);
      if found.Some? {
        var c := found.value;
        conns := conns[c := conns[c].(inUse := true, lastUsed := now)];
        activeCount := activeCount + 1;
        wrappers := wrappers[w := Wrapper(c, Open)];
        return found;
      }
      if |connections| < config.maxConnections && dialled.Some? {
        conns := conns[dialled.value := Conn(now, true, true, now)];
        connections := connections + [dialled.value];
        activeCount := activeCount + 1;
        wrappers := wrappers[w := Wrapper(dialled.value, Open)];
        return dialled;
      }
      return None;
    }

    /** `Return`, called once by the wrapper `w` that leased `c`. */
    method Return(ghost w: WrapperId, c: ConnId, now: real)
      requires w in wrappers && wrappers[w].conn == c && c in conns
      modifies this
      ensures State() == ReturnStep(old(State()), w, now)
    {
      wrappers := wrappers[w := Wrapper(c, Returned)];
      if conns[c].inUse {
        conns := conns[c := conns[c].(inUse := false, lastUsed := now)];
        activeCount := activeCount - 1;
      }
    }

    method Close()
      modifies this
      ensures State() == CloseStep(old(State()))
    {
      if closed {
        return;
      }
      closed := true;
      leasedAtClose := |InUse(old(State()))|;
      var i := 0;
      while i < |connections|
        invariant 0 <= i <= |connections|
        invariant closedConns == old(closedConns) + connections[..i]
        modifies this`closedConns
      {
        closedConns := closedConns + [connections[i]];
        i := i + 1;
      }
      assert connections[..i] == connections;
      connections := [];
      activeCount := 0;
    }

    method Cleanup(now: real)
      requires Known(State())
      modifies this
      ensures State() == Next(old(State()), Event.Cleanup(now))
    {
      if closed {
        return;
      }
      var newConnections: seq<ConnId> := [];
      var i := 0;
      assert connections[0..] == connections;
      while i < |connections|
        invariant 0 <= i <= |connections|
        invariant forall c :: c in connections ==> c in conns
        invariant Sweep(State().(connections := newConnections), connections[i..], now) ==
                  Sweep(old(State()).(connections := []), old(connections), now)
        modifies this`closedConns
      {
        var c := connections[i];
        assert connections[i..][0] == c && connections[i..][1..] == connections[i + 1..];
        var shouldRemove := !conns[c].healthy;
        if !conns[c].inUse && now - conns[c].lastUsed > config.maxIdleTime {
          shouldRemove := true;
        }
        if shouldRemove && !conns[c].inUse {
          closedConns := closedConns + [c];
        } else {
          newConnections := newConnections + [c];
        }
        i := i + 1;
      }
      connections := newConnections;
    }

    /** `Stats`: total, active, idle and healthy counts. */
    method Stats() returns (total: nat, active: int, idle: nat, healthy: nat)
      requires Known(State())
      ensures total == |connections| && active == activeCount
      ensures idle == |IdleOf(conns, connections)| && healthy == |HealthyOf(conns, connections)|
      ensures Sound(State()) && !closed ==> active + idle == total
    {
      total, active, idle, healthy := |connections|, activeCount, 0, 0;
      var i := 0;
      while i < |connections|
        invariant 0 <= i <= |connections|
        invariant forall c :: c in connections ==> c in conns
        invariant idle == |IdleOf(conns, connections[..i])| && healthy == |HealthyOf(conns, connections[..i])|
      {
        assert Front(connections[..i + 1]) == connections[..i];
        if conns[connections[i]].healthy {
          healthy := healthy + 1;
        }
        if !conns[connections[i]].inUse {
          idle := idle + 1;
        }
        i := i + 1;
      }
      assert connections[..i] == connections;
      if Sound(State()) && !closed {
        ActivePlusIdle(State());
      }
    }
  }

  /** `pooledConnectionWrapper`: however often it is closed, it returns its connection once. */
  class PooledConnectionWrapper {
    const pool: ConnectionPool
    const conn: ConnId
    ghost const w: WrapperId
    var closed: bool

    constructor (pool: ConnectionPool, conn: ConnId, ghost w: WrapperId)
      ensures this.pool == pool && this.conn == conn && this.w == w && !closed
    {
      this.pool, this.conn, this.w, closed := pool, conn, w, false;
    }

    method Close(now: real)
      requires w in pool.wrappers && pool.wrappers[w].conn == conn && conn in pool.conns
      modifies this, pool
      ensures closed
      ensures pool.State() == if old(closed) then old(pool.State()) else ReturnStep(old(pool.State()), w, now)
    {
      if closed {
        return;
      }
      closed := true;
      pool.Return(w, conn, now);
    }
  }
}
