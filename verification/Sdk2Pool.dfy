/**
 The SDK2 connection pool before `Close`: leases, the idle list, discarding by
 age, and the open-connection cap that several getters check before they create.
 */
module Sdk2Pool {
  import opened Common

  type ConnId = nat

  type Getter = nat

  type LeaseId = nat

  /** `pooledConn`, without the connection itself. */
  datatype Conn = Conn(createdAt: real, lastUsed: real, inUse: bool)

  /** One handing-out of a connection: the holder keeps the bare pointer, also after returning it. */
  datatype Lease = Lease(conn: ConnId, returned: bool)

  /**
   The pool under its lock. `conns` are the connections ever registered, `closed`
   the `Close` calls made on them in order, `creating` the getters between the
   cap check and the registration of the connection they dial, `leases` what was
   handed out to whom.
   */
  datatype Pool = Pool(
    maxIdleConns: int, maxOpenConns: int, connMaxLifetime: real, connMaxIdleTime: real,
    idle: seq<ConnId>, active: set<ConnId>, numOpen: int,
    maxIdleClosed: nat, maxIdleTimeClosed: nat, maxLifetimeClosed: nat,
    conns: map<ConnId, Conn>, closed: seq<ConnId>, creating: set<Getter>, leases: map<LeaseId, Lease>)

  function NewPool(maxIdle: int, maxOpen: int, lifetime: real, idleTime: real): Pool {
    Pool(maxIdle, maxOpen, lifetime, idleTime, [], {}, 0, 0, 0, 0, map[], [], {}, map[])
  }

  datatype Event =
    | GetIdle(l: LeaseId, now: real)
    | CheckCap(g: Getter)
    | Create(g: Getter, l: LeaseId, c: ConnId, now: real)
    | CreateFails(g: Getter)
    | Put(l: LeaseId, now: real)
    | CleanExpired(now: real)
    | SetMaxIdle(n: int)

  /** `getIdleConn`: the most recently returned connection, if any. */
  function GetIdleStep(p: Pool, l: LeaseId, now: real): Pool
    requires p.idle != [] ==> Last(p.idle) in p.conns
  {
    if p.idle == [] then p
    else
      var c := Last(p.idle);
      p.(idle := Front(p.idle), active := p.active + {c}, leases := p.leases[l := Lease(c, false)],
         conns := p.conns[c := p.conns[c].(inUse := true, lastUsed := now)])
  }

  /** `canOpenNewConn`. */
  function CheckCapStep(p: Pool, g: Getter): Pool {
    if p.numOpen < p.maxOpenConns then p.(creating := p.creating + {g}) else p
  }

  /** The locked part of `createConn`. */
  function CreateStep(p: Pool, g: Getter, l: LeaseId, c: ConnId, now: real): Pool {
    p.(active := p.active + {c}, numOpen := p.numOpen + 1, leases := p.leases[l := Lease(c, false)],
       conns := p.conns[c := Conn(now, now, true)], creating := p.creating - {g})
  }

  datatype Reason = Lifetime | IdleTime | TooMany

  /** `shouldDiscardConn`; a non-positive limit is no limit. */
  function ShouldDiscard(p: Pool, conn: Conn, now: real): Option<Reason> {
    if p.connMaxLifetime > 0.0 && now - conn.createdAt > p.connMaxLifetime then Some(Lifetime)
    else if p.connMaxIdleTime > 0.0 && now - conn.lastUsed > p.connMaxIdleTime then Some(IdleTime)
    else None
  }

  /** `closeConnLocked`, with the statistic that goes with the reason. */
  function CloseConn(p: Pool, c: ConnId, why: Reason): Pool {
    p.(closed := p.closed + [c], numOpen := p.numOpen - 1,
       maxLifetimeClosed := p.maxLifetimeClosed + if why.Lifetime? then 1 else 0,
       maxIdleTimeClosed := p.maxIdleTimeClosed + if why.IdleTime? then 1 else 0,
       maxIdleClosed := p.maxIdleClosed + if why.TooMany? then 1 else 0)
  }

  /** A leased connection comes off the active set. */
  function Unlease(p: Pool, c: ConnId): Pool
    requires c in p.conns
  {
    p.(active := p.active - {c}, conns := p.conns[c := p.conns[c].(inUse := false)])
  }

  /** `putConn`. */
  function PutConnStep(p: Pool, c: ConnId, now: real): Pool
    requires c in p.conns
  {
    if !p.conns[c].inUse then p
    else
      var back := Unlease(p, c);
      var why := ShouldDiscard(p, p.conns[c], now);
      if why.Some? then CloseConn(back, c, why.value)
      else if |p.idle| >= p.maxIdleConns then CloseConn(back, c, TooMany)
      else back.(idle := p.idle + [c])
  }

  function MarkReturned(p: Pool, l: LeaseId): Pool
    requires l in p.leases
  {
    p.(leases := p.leases[l := p.leases[l].(returned := true)])
  }

  /** The holder of lease `l`, or whoever still has its pointer, closes the connection. */
  function PutStep(p: Pool, l: LeaseId, now: real): Pool
    requires l in p.leases && p.leases[l].conn in p.conns
  {
    PutConnStep(MarkReturned(p, l), p.leases[l].conn, now)
  }

  /** `cleanExpiredConns` with `todo` still to look at and `p.idle` what is kept so far. */
  function Sweep(p: Pool, todo: seq<ConnId>, now: real): Pool
    requires forall c :: c in todo ==> c in p.conns
    decreases |todo|
  {
    if todo == [] then p
    else
      var why := ShouldDiscard(p, p.conns[todo[0]], now);
      if why.Some? then Sweep(CloseConn(p, todo[0], why.value), todo[1..], now)
      else Sweep(p.(idle := p.idle + [todo[0]]), todo[1..], now)
  }

  lemma SweepOne(p: Pool, todo: seq<ConnId>, now: real)
    requires todo != [] && forall c :: c in todo ==> c in p.conns
    ensures var why := ShouldDiscard(p, p.conns[todo[0]], now);
            Sweep(p, todo, now) ==
            Sweep(if why.Some? then CloseConn(p, todo[0], why.value) else p.(idle := p.idle + [todo[0]]),
                  todo[1..], now)
  {
  }

  /** The trimming loop of `SetMaxIdleConns`, as far as it can go. */
  function Trim(p: Pool, n: int): Pool
    decreases |p.idle|
  {
    if |p.idle| <= n || p.idle == [] then p
    else Trim(CloseConn(p, Last(p.idle), TooMany).(idle := Front(p.idle)), n)
  }

  predicate Enabled(p: Pool, e: Event) {
    match e
    case GetIdle(l, _) => l !in p.leases && (p.idle != [] ==> Last(p.idle) in p.conns)
    case CheckCap(g) => g !in p.creating
    case Create(g, l, c, _) => g in p.creating && l !in p.leases && c !in p.conns
    case CreateFails(g) => g in p.creating
    case Put(l, _) => l in p.leases && p.leases[l].conn in p.conns
    case CleanExpired(_) => forall c :: c in p.idle ==> c in p.conns
    case SetMaxIdle(_) => true
  }

  function Next(p: Pool, e: Event): Pool
    requires Enabled(p, e)
  {
    match e
    case GetIdle(l, now) => GetIdleStep(p, l, now)
    case CheckCap(g) => CheckCapStep(p, g)
    case Create(g, l, c, now) => CreateStep(p, g, l, c, now)
    case CreateFails(g) => p.(creating := p.creating - {g})
    case Put(l, now) => PutStep(p, l, now)
    case CleanExpired(now) => Sweep(p.(idle := []), p.idle, now)
    case SetMaxIdle(n) => Trim(p.(maxIdleConns := n), n)
  }

  // ---- The accounting invariant ----

  ghost predicate NoDup(s: seq<ConnId>) {
    forall i, j :: 0 <= i < j < |s| ==> s[i] != s[j]
  }

  /** Every connection is in exactly one place: idle, leased, or closed. */
  ghost predicate Placed(p: Pool) {
    && NoDup(p.idle) && NoDup(p.closed)
    && (forall c :: c in p.idle ==> c in p.conns && c !in p.active && c !in p.closed)
    && (forall c :: c in p.active ==> c in p.conns && c !in p.closed)
    && (forall c :: c in p.closed ==> c in p.conns)
    && (forall c :: c in p.conns ==> c in p.idle || c in p.active || c in p.closed)
    && (forall c :: c in p.conns ==> (p.conns[c].inUse <==> c in p.active))
    && (forall l :: l in p.leases ==> p.leases[l].conn in p.conns)
  }

  /** The counters agree with what is where. */
  ghost predicate Balanced(p: Pool) {
    && p.numOpen == |p.idle| + |p.active|
    && |p.conns| == p.numOpen + |p.closed|
    && |p.closed| == p.maxIdleClosed + p.maxIdleTimeClosed + p.maxLifetimeClosed
  }

  ghost predicate Accounted(p: Pool) {
    Placed(p) && Balanced(p)
  }

  ghost predicate IdleBounded(p: Pool) {
    |p.idle| == 0 || |p.idle| <= p.maxIdleConns
  }

  lemma UpdateSize(m: map<ConnId, Conn>, c: ConnId, v: Conn)
    ensures |m[c := v]| == |m| + if c in m then 0 else 1
  {
    var bigger := m[c := v];
    assert bigger.Keys == m.Keys + {c};
  }

  /** Closing one idle connection, wherever it stands in the list. */
  lemma CloseIdleKeeps(p: Pool, before: seq<ConnId>, c: ConnId, rest: seq<ConnId>, why: Reason)
    requires p.idle == before + [c] + rest && Accounted(p)
    ensures Accounted(CloseConn(p, c, why).(idle := before + rest))
  {
    var q := CloseConn(p, c, why).(idle := before + rest);
    assert p.idle[|before|] == c;
    assert forall x :: x in p.idle <==> x in before || x == c || x in rest;
    assert forall i :: 0 <= i < |before| ==> p.idle[i] == before[i];
    assert forall i :: 0 <= i < |rest| ==> p.idle[|before| + 1 + i] == rest[i];
    assert c !in q.idle by {
      assert forall i :: 0 <= i < |q.idle| ==>
          q.idle[i] == p.idle[if i < |before| then i else i + 1];
    }
    assert NoDup(q.idle) by {
      assert forall i :: 0 <= i < |q.idle| ==>
          q.idle[i] == p.idle[if i < |before| then i else i + 1];
    }
  }

  lemma UnleaseKeeps(p: Pool, c: ConnId, q: Pool)
    requires Accounted(p) && c in p.active
    requires q == Unlease(p, c).(idle := p.idle + [c])
    ensures Accounted(q)
  {
    UpdateSize(p.conns, c, p.conns[c].(inUse := false));
    assert forall x :: x in q.idle <==> x in p.idle || x == c;
  }

  lemma DiscardKeeps(p: Pool, c: ConnId, why: Reason)
    requires Accounted(p) && c in p.active
    ensures Accounted(CloseConn(Unlease(p, c), c, why))
  {
    var queued := Unlease(p, c).(idle := p.idle + [c]);
    UnleaseKeeps(p, c, queued);
    assert queued.idle == p.idle + [c] + [] && p.idle + [] == p.idle;
    CloseIdleKeeps(queued, p.idle, c, [], why);
    assert CloseConn(Unlease(p, c), c, why) == CloseConn(queued, c, why).(idle := p.idle);
  }

  lemma PutKeeps(p: Pool, c: ConnId, now: real)
    requires Accounted(p) && c in p.conns
    ensures Accounted(PutConnStep(p, c, now))
    ensures IdleBounded(p) ==> IdleBounded(PutConnStep(p, c, now))
  {
    if p.conns[c].inUse {
      var why := ShouldDiscard(p, p.conns[c], now);
      if why.Some? || |p.idle| >= p.maxIdleConns {
        DiscardKeeps(p, c, if why.Some? then why.value else TooMany);
      } else {
        UnleaseKeeps(p, c, Unlease(p, c).(idle := p.idle + [c]));
      }
    }
  }

  lemma {:induction false} SweepKeeps(p: Pool, todo: seq<ConnId>, now: real)
    requires Accounted(p.(idle := p.idle + todo))
    ensures forall c :: c in todo ==> c in p.conns
    ensures Accounted(Sweep(p, todo, now))
    ensures |Sweep(p, todo, now).idle| <= |p.idle| + |todo|
    ensures Sweep(p, todo, now).maxIdleConns == p.maxIdleConns
    decreases |todo|
  {
    if todo == [] {
      assert p.idle + todo == p.idle;
    } else {
      var c := todo[0];
      var whole := p.(idle := p.idle + todo);
      assert forall x :: x in todo ==> x in whole.idle;
      assert p.idle + [c] + todo[1..] == p.idle + todo;
      var why := ShouldDiscard(p, p.conns[c], now);
      if why.Some? {
        CloseIdleKeeps(whole, p.idle, c, todo[1..], why.value);
        SweepKeeps(CloseConn(p, c, why.value), todo[1..], now);
      } else {
        SweepKeeps(p.(idle := p.idle + [c]), todo[1..], now);
      }
    }
  }

  lemma {:induction false} TrimKeeps(p: Pool, n: int)
    requires Accounted(p)
    ensures Accounted(Trim(p, n))
    ensures |Trim(p, n).idle| == 0 || |Trim(p, n).idle| <= n
    ensures Trim(p, n).maxIdleConns == p.maxIdleConns
    decreases |p.idle|
  {
    if !(|p.idle| <= n || p.idle == []) {
      assert p.idle == Front(p.idle) + [Last(p.idle)] + [] && Front(p.idle) + [] == Front(p.idle);
      CloseIdleKeeps(p, Front(p.idle), Last(p.idle), [], TooMany);
      TrimKeeps(CloseConn(p, Last(p.idle), TooMany).(idle := Front(p.idle)), n);
    }
  }

  lemma GetIdleKeeps(p: Pool, l: LeaseId, now: real)
    requires Accounted(p)
    ensures (p.idle != [] ==> Last(p.idle) in p.conns) && Accounted(GetIdleStep(p, l, now))
  {
    if p.idle != [] {
      var c := Last(p.idle);
      assert c in p.idle;
      UpdateSize(p.conns, c, p.conns[c].(inUse := true, lastUsed := now));
      assert p.idle == Front(p.idle) + [c];
      assert c !in Front(p.idle);
    }
  }

  lemma CreateKeeps(p: Pool, g: Getter, l: LeaseId, c: ConnId, now: real)
    requires Accounted(p) && c !in p.conns
    ensures Accounted(CreateStep(p, g, l, c, now))
  {
    UpdateSize(p.conns, c, Conn(now, now, true));
  }

  lemma StepKeepsAccounts(p: Pool, e: Event)
    requires Accounted(p) && IdleBounded(p) && Enabled(p, e)
    ensures Accounted(Next(p, e)) && IdleBounded(Next(p, e))
  {
    match e
    case GetIdle(l, now) => GetIdleKeeps(p, l, now);
    case CheckCap(_) =>
    case Create(g, l, c, now) => CreateKeeps(p, g, l, c, now);
    case CreateFails(_) =>
    case Put(l, now) => PutKeeps(MarkReturned(p, l), p.leases[l].conn, now);
    case CleanExpired(now) => CleanKeeps(p, now);
    case SetMaxIdle(n) => TrimKeeps(p.(maxIdleConns := n), n);
  }

  lemma CleanKeeps(p: Pool, now: real)
    requires Accounted(p) && IdleBounded(p) && forall c :: c in p.idle ==> c in p.conns
    ensures Accounted(Sweep(p.(idle := []), p.idle, now)) && IdleBounded(Sweep(p.(idle := []), p.idle, now))
  {
    assert [] + p.idle == p.idle;
    SweepKeeps(p.(idle := []), p.idle, now);
  }

  // ---- Runs ----

  function After(p: Pool, es: seq<Event>): Pool {
    if es == [] then p
    else
      var before := After(p, Front(es));
      if Enabled(before, Last(es)) then Next(before, Last(es)) else before
  }

  ghost predicate Legal(p: Pool, es: seq<Event>) {
    es == [] || (Legal(p, Front(es)) && Enabled(After(p, Front(es)), Last(es)))
  }

  /**
   Conservation over every run: a connection is idle, active or closed and never
   two of these, and is closed at most once; the open count is idle plus active;
   every connection ever registered is open or counted under exactly one reason
   for closing; the idle list respects its limit.
   */
  lemma {:induction false} Conservation(maxIdle: int, maxOpen: int, lifetime: real, idleTime: real, es: seq<Event>)
    requires Legal(NewPool(maxIdle, maxOpen, lifetime, idleTime), es)
    ensures Accounted(After(NewPool(maxIdle, maxOpen, lifetime, idleTime), es))
    ensures IdleBounded(After(NewPool(maxIdle, maxOpen, lifetime, idleTime), es))
  {
    if es == [] {
    } else {
      Conservation(maxIdle, maxOpen, lifetime, idleTime, Front(es));
      StepKeepsAccounts(After(NewPool(maxIdle, maxOpen, lifetime, idleTime), Front(es)), Last(es));
    }
  }

  // ---- Who holds what ----

  predicate Outstanding(p: Pool, l: LeaseId) {
    l in p.leases && !p.leases[l].returned
  }

  /** No two leases that are still out are of the same connection. */
  ghost predicate NoSharedLease(p: Pool) {
    forall l, m :: Outstanding(p, l) && Outstanding(p, m) && l != m ==> p.leases[l].conn != p.leases[m].conn
  }

  /** The active connections are those with a lease still out, one each. */
  ghost predicate Held(p: Pool) {
    && NoSharedLease(p)
    && (forall l :: Outstanding(p, l) ==> p.leases[l].conn in p.active)
    && (forall c :: c in p.active ==> exists l :: Outstanding(p, l) && p.leases[l].conn == c)
  }

  /** The return is by a holder, or comes when nobody has the connection. */
  predicate Timely(p: Pool, l: LeaseId)
    requires l in p.leases && p.leases[l].conn in p.conns
  {
    !p.leases[l].returned || !p.conns[p.leases[l].conn].inUse
  }

  lemma LeaseKeepsHeld(p: Pool, q: Pool, l: LeaseId, c: ConnId)
    requires Held(p) && l !in p.leases && c !in p.active
    requires q.active == p.active + {c} && q.leases == p.leases[l := Lease(c, false)]
    ensures Held(q)
  {
    assert Outstanding(q, l);
    forall d | d in q.active ensures exists m :: Outstanding(q, m) && q.leases[m].conn == d {
      if d != c {
        var m :| Outstanding(p, m) && p.leases[m].conn == d;
        assert Outstanding(q, m) && q.leases[m] == p.leases[m];
      }
    }
    forall m | Outstanding(q, m) && m != l ensures Outstanding(p, m) && q.leases[m] == p.leases[m] {}
  }

  lemma ReturnKeepsHeld(p: Pool, q: Pool, l: LeaseId)
    requires Held(p) && Outstanding(p, l)
    requires q.active == p.active - {p.leases[l].conn}
    requires q.leases == p.leases[l := p.leases[l].(returned := true)]
    ensures Held(q)
  {
    forall m | Outstanding(q, m) ensures Outstanding(p, m) && m != l && q.leases[m] == p.leases[m] {}
    forall d | d in q.active ensures exists m :: Outstanding(q, m) && q.leases[m].conn == d {
      var m :| Outstanding(p, m) && p.leases[m].conn == d;
      assert Outstanding(q, m) && q.leases[m] == p.leases[m];
    }
  }

  /** What a return does to the holders, whatever becomes of the connection. */
  lemma PutActive(p: Pool, l: LeaseId, now: real)
    requires l in p.leases && p.leases[l].conn in p.conns
    ensures PutStep(p, l, now).leases == MarkReturned(p, l).leases
    ensures PutStep(p, l, now).active ==
            if p.conns[p.leases[l].conn].inUse then p.active - {p.leases[l].conn} else p.active
  {
  }

  /**
   A return keeps the books on holders exactly when the lease is still out or its
   connection is in nobody's hands: a second return of a lease whose connection
   has been handed out again takes it from the new holder.
   */
  lemma PutKeepsHeldIff(p: Pool, l: LeaseId, now: real)
    requires Accounted(p) && Held(p) && l in p.leases
    ensures Held(PutStep(p, l, now)) <==> Timely(p, l)
  {
    var c, q := p.leases[l].conn, PutStep(p, l, now);
    PutActive(p, l, now);
    if Outstanding(p, l) {
      ReturnKeepsHeld(p, q, l);
    } else if p.conns[c].inUse {
      var m :| Outstanding(p, m) && p.leases[m].conn == c;
      assert Outstanding(q, m) && q.leases[m].conn == c && c !in q.active;
    } else {
      assert q.leases == p.leases && q.active == p.active;
      SameHolders(p, q);
    }
  }

  lemma SameHolders(p: Pool, q: Pool)
    requires Held(p) && q.leases == p.leases && q.active == p.active
    ensures Held(q)
  {
    forall l ensures Outstanding(q, l) <==> Outstanding(p, l) {}
    forall c | c in q.active ensures exists l :: Outstanding(q, l) && q.leases[l].conn == c {
      var l :| Outstanding(p, l) && p.leases[l].conn == c;
      assert Outstanding(q, l);
    }
  }

  lemma {:induction false} SweepKeepsHolders(p: Pool, todo: seq<ConnId>, now: real)
    requires forall c :: c in todo ==> c in p.conns
    ensures Sweep(p, todo, now).leases == p.leases && Sweep(p, todo, now).active == p.active
    ensures Sweep(p, todo, now).conns == p.conns
    decreases |todo|
  {
    if todo == [] {
    } else {
      var why := ShouldDiscard(p, p.conns[todo[0]], now);
      SweepKeepsHolders(if why.Some? then CloseConn(p, todo[0], why.value) else p.(idle := p.idle + [todo[0]]),
                        todo[1..], now);
    }
  }

  lemma {:induction false} TrimKeepsHolders(p: Pool, n: int)
    ensures Trim(p, n).leases == p.leases && Trim(p, n).active == p.active && Trim(p, n).conns == p.conns
    decreases |p.idle|
  {
    if |p.idle| <= n || p.idle == [] {
    } else {
      TrimKeepsHolders(CloseConn(p, Last(p.idle), TooMany).(idle := Front(p.idle)), n);
    }
  }

  /** Whether the event leaves every lease with its holder. */
  predicate StepTimely(p: Pool, e: Event)
    requires Enabled(p, e)
  {
    e.Put? ==> Timely(p, e.l)
  }

  lemma StepKeepsHeldIff(p: Pool, e: Event)
    requires Accounted(p) && Held(p) && Enabled(p, e)
    ensures Held(Next(p, e)) <==> StepTimely(p, e)
  {
    match e
    case GetIdle(l, now) =>
      if p.idle != [] {
        assert Last(p.idle) in p.idle;
        LeaseKeepsHeld(p, Next(p, e), l, Last(p.idle));
      }
    case CheckCap(_) => SameHolders(p, Next(p, e));
    case Create(g, l, c, now) => LeaseKeepsHeld(p, Next(p, e), l, c);
    case CreateFails(_) => SameHolders(p, Next(p, e));
    case Put(l, now) => PutKeepsHeldIff(p, l, now);
    case CleanExpired(now) =>
      SweepKeepsHolders(p.(idle := []), p.idle, now);
      SameHolders(p, Next(p, e));
    case SetMaxIdle(n) =>
      TrimKeepsHolders(p.(maxIdleConns := n), n);
      SameHolders(p, Next(p, e));
  }

  /** Held, now and after every earlier event. */
  ghost predicate HeldThroughout(p: Pool, es: seq<Event>) {
    Held(After(p, es)) && (es != [] ==> HeldThroughout(p, Front(es)))
  }

  ghost predicate TimelyThroughout(p: Pool, es: seq<Event>)
    requires Legal(p, es)
  {
    es != [] ==> TimelyThroughout(p, Front(es)) && StepTimely(After(p, Front(es)), Last(es))
  }

  /**
   Lease exclusivity of a run, exactly: at every moment each active connection has
   one holder and every holder's connection is active, if and only if no lease was
   returned while its connection was in other hands.
   */
  lemma {:induction false} HeldThroughoutIff(maxIdle: int, maxOpen: int, lifetime: real, idleTime: real, es: seq<Event>)
    requires Legal(NewPool(maxIdle, maxOpen, lifetime, idleTime), es)
    ensures var p := NewPool(maxIdle, maxOpen, lifetime, idleTime);
            HeldThroughout(p, es) <==> TimelyThroughout(p, es)
  {
    var p := NewPool(maxIdle, maxOpen, lifetime, idleTime);
    if es == [] {
    } else {
      HeldThroughoutIff(maxIdle, maxOpen, lifetime, idleTime, Front(es));
      Conservation(maxIdle, maxOpen, lifetime, idleTime, Front(es));
      if HeldThroughout(p, Front(es)) {
        StepKeepsHeldIff(After(p, Front(es)), Last(es));
      }
    }
  }

  // ---- Exclusivity by how often holders return ----

  /** How often lease `l` is returned. */
  ghost function Returns(es: seq<Event>, l: LeaseId): nat {
    if es == [] then 0
    else Returns(Front(es), l) + if Last(es).Put? && Last(es).l == l then 1 else 0
  }

  ghost predicate ReturnsAtMost(es: seq<Event>, k: nat) {
    forall l :: Returns(es, l) <= k
  }

  lemma StepMarksReturned(p: Pool, e: Event, l: LeaseId)
    requires Enabled(p, e)
    ensures l in Next(p, e).leases && Next(p, e).leases[l].returned <==>
            (l in p.leases && p.leases[l].returned) || (e.Put? && e.l == l)
  {
    match e
    case CleanExpired(now) => SweepKeepsHolders(p.(idle := []), p.idle, now);
    case SetMaxIdle(n) => TrimKeepsHolders(p.(maxIdleConns := n), n);
    case _ =>
  }

  lemma {:induction false} RunMarksReturned(p: Pool, es: seq<Event>, l: LeaseId)
    requires Legal(p, es) && p.leases == map[]
    ensures l in After(p, es).leases && After(p, es).leases[l].returned <==> Returns(es, l) > 0
  {
    if es == [] {
    } else {
      RunMarksReturned(p, Front(es), l);
      StepMarksReturned(After(p, Front(es)), Last(es), l);
    }
  }

  lemma {:induction false} ReturnedOnceIsTimely(p: Pool, es: seq<Event>)
    requires Legal(p, es) && p.leases == map[] && ReturnsAtMost(es, 1)
    ensures TimelyThroughout(p, es)
  {
    if es == [] {
    } else {
      forall l ensures Returns(Front(es), l) <= 1 {
        assert Returns(es, l) <= 1;
      }
      ReturnedOnceIsTimely(p, Front(es));
      if Last(es).Put? {
        assert Returns(es, Last(es).l) <= 1;
        RunMarksReturned(p, Front(es), Last(es).l);
      }
    }
  }

  /** Nothing has been opened or handed out yet. */
  ghost predicate Untouched(p: Pool) {
    p.numOpen == 0 && p.idle == [] && p.creating == {} && p.conns == map[] && p.leases == map[]
  }

  /** Lease, return, lease again, return the first lease once more, lease again. */
  function ReturnTwice(): seq<Event> {
    [SetMaxIdle(1), CheckCap(0), Create(0, 0, 0, 0.0), Put(0, 0.0), GetIdle(1, 0.0), Put(0, 0.0), GetIdle(2, 0.0)]
  }

  lemma ReturnTwiceCounts(l: LeaseId)
    ensures Returns(ReturnTwice(), l) <= 2
  {
    var es := ReturnTwice();
    assert Front(es) == es[..6] && Front(es[..6]) == es[..5] && Front(es[..5]) == es[..4];
    assert Front(es[..4]) == es[..3] && Front(es[..3]) == es[..2] && Front(es[..2]) == es[..1] && Front(es[..1]) == [];
    assert Returns(es[..1], l) == 0 && Returns(es[..2], l) == 0 && Returns(es[..3], l) == 0;
    assert Returns(es[..4], l) <= 1 && Returns(es[..5], l) <= 1 && Returns(es[..6], l) <= 2;
  }

  /** Two holders of one connection, after a lease was returned twice. */
  lemma TwoHolders(maxIdle: int, maxOpen: int, lifetime: real, idleTime: real)
    requires maxOpen >= 1
    ensures var p := NewPool(maxIdle, maxOpen, lifetime, idleTime);
            Legal(p, ReturnTwice()) && !NoSharedLease(After(p, ReturnTwice()))
  {
    var p, es := NewPool(maxIdle, maxOpen, lifetime, idleTime), ReturnTwice();
    FirstLease(p);
    HandOver(p, es[..3], 0, 1);
    assert es[..3] + [es[3]] + [es[4]] == es[..5];
    HandOver(p, es[..5], 0, 2);
    assert es[..5] + [es[5]] + [es[6]] == es;
    assert Outstanding(After(p, es), 1) && Outstanding(After(p, es), 2);
  }

  lemma FirstLease(p: Pool)
    requires p.maxOpenConns >= 1 && Untouched(p)
    ensures var es := ReturnTwice()[..3];
            Legal(p, es) && OneActive(After(p, es), 0) && After(p, es).leases == map[0 := Lease(0, false)]
  {
    var es := ReturnTwice();
    assert [] + [es[0]] == es[..1] && es[..1] + [es[1]] == es[..2] && es[..2] + [es[2]] == es[..3];
    Extend(p, [], es[0]);
    Extend(p, es[..1], es[1]);
    assert After(p, es[..2]).creating == {0};
    Extend(p, es[..2], es[2]);
  }

  /** Connection 0 is active, none is idle, and `l` is a lease of it, returned or not. */
  ghost predicate OneActive(p: Pool, l: LeaseId) {
    && p.maxIdleConns == 1 && p.idle == [] && 0 in p.conns && p.conns[0] == Conn(0.0, 0.0, true)
    && l in p.leases && p.leases[l].conn == 0
  }

  lemma PutBack(p: Pool, l: LeaseId)
    requires OneActive(p, l)
    ensures PutStep(p, l, 0.0) == Unlease(MarkReturned(p, l), 0).(idle := [0])
  {
    var q := MarkReturned(p, l);
    assert ShouldDiscard(q, q.conns[0], 0.0) == None;
    assert q.idle + [0] == [0];
  }

  lemma LeaseAgain(q: Pool, l: LeaseId, m: LeaseId)
    requires q.idle == [0] && q.maxIdleConns == 1 && 0 in q.conns && q.conns[0] == Conn(0.0, 0.0, false)
    requires l in q.leases && q.leases[l].conn == 0 && m !in q.leases
    ensures OneActive(GetIdleStep(q, m, 0.0), l)
    ensures GetIdleStep(q, m, 0.0).leases == q.leases[m := Lease(0, false)]
  {
    assert Front([0]) == [];
  }

  /** Lease `l` is returned and lease `m` gets the connection. */
  lemma HandOver(p: Pool, es: seq<Event>, l: LeaseId, m: LeaseId)
    requires Legal(p, es) && OneActive(After(p, es), l) && m !in After(p, es).leases
    ensures var all := es + [Put(l, 0.0)] + [GetIdle(m, 0.0)];
            && Legal(p, all) && OneActive(After(p, all), l)
            && After(p, all).leases == After(p, es).leases[l := Lease(0, true)][m := Lease(0, false)]
  {
    PutBack(After(p, es), l);
    Extend(p, es, Put(l, 0.0));
    LeaseAgain(After(p, es + [Put(l, 0.0)]), l, m);
    Extend(p, es + [Put(l, 0.0)], GetIdle(m, 0.0));
  }

  /**
   Over all runs: no two leases that are out share a connection, if and only if
   holders return a lease at most once (or nothing can be opened at all).
   */
  lemma ExclusiveLeasesIff(maxIdle: int, maxOpen: int, lifetime: real, idleTime: real, k: nat)
    ensures (forall es :: Legal(NewPool(maxIdle, maxOpen, lifetime, idleTime), es) && ReturnsAtMost(es, k) ==>
               NoSharedLease(After(NewPool(maxIdle, maxOpen, lifetime, idleTime), es)))
            <==> (k <= 1 || maxOpen < 1)
  {
    var p := NewPool(maxIdle, maxOpen, lifetime, idleTime);
    if k <= 1 || maxOpen < 1 {
      forall es | Legal(p, es) && ReturnsAtMost(es, k) ensures NoSharedLease(After(p, es)) {
        if k <= 1 {
          assert ReturnsAtMost(es, 1);
          ReturnedOnceIsTimely(p, es);
          HeldThroughoutIff(maxIdle, maxOpen, lifetime, idleTime, es);
        } else {
          NothingOpened(p, es);
        }
      }
    } else {
      TwoHolders(maxIdle, maxOpen, lifetime, idleTime);
      forall l ensures Returns(ReturnTwice(), l) <= k {
        ReturnTwiceCounts(l);
      }
      assert ReturnsAtMost(ReturnTwice(), k);
    }
  }

  /** A pool that may open nothing hands nothing out. */
  lemma {:induction false} NothingOpened(p: Pool, es: seq<Event>)
    requires Legal(p, es) && p.maxOpenConns < 1 && p.numOpen == 0
    requires p.idle == [] && p.creating == {} && p.leases == map[]
    ensures var q := After(p, es);
            && q.leases == map[] && q.idle == [] && q.creating == {} && q.numOpen == 0
            && q.maxOpenConns == p.maxOpenConns
  {
    if es == [] {
    } else {
      NothingOpened(p, Front(es));
    }
  }

  // ---- What is discarded ----

  /** Older, or longer unused, than a positive limit allows. */
  predicate Expired(p: Pool, conn: Conn, now: real) {
    || (p.connMaxLifetime > 0.0 && conn.createdAt + p.connMaxLifetime < now)
    || (p.connMaxIdleTime > 0.0 && conn.lastUsed + p.connMaxIdleTime < now)
  }

  lemma {:induction false} SweepSplits(p: Pool, todo: seq<ConnId>, now: real)
    requires forall c :: c in todo ==> c in p.conns
    ensures var q := Sweep(p, todo, now);
            && (forall c :: c in q.idle <==> c in p.idle || (c in todo && !Expired(p, p.conns[c], now)))
            && (forall c :: c in q.closed <==> c in p.closed || (c in todo && Expired(p, p.conns[c], now)))
    decreases |todo|
  {
    if todo == [] {
    } else {
      var c, rest := todo[0], todo[1..];
      var p' := if Expired(p, p.conns[c], now) then CloseConn(p, c, ShouldDiscard(p, p.conns[c], now).value)
                else p.(idle := p.idle + [c]);
      SweepSplits(p', rest, now);
      assert forall x :: x in todo <==> x == c || x in rest;
    }
  }

  /** What a sweep leaves, in order. */
  function Unexpired(p: Pool, todo: seq<ConnId>, now: real): seq<ConnId>
    requires forall c :: c in todo ==> c in p.conns
  {
    if todo == [] then []
    else (if Expired(p, p.conns[todo[0]], now) then [] else [todo[0]]) + Unexpired(p, todo[1..], now)
  }

  lemma {:induction false} UnexpiredSame(p: Pool, q: Pool, todo: seq<ConnId>, now: real)
    requires p.conns == q.conns && p.connMaxLifetime == q.connMaxLifetime && p.connMaxIdleTime == q.connMaxIdleTime
    requires forall c :: c in todo ==> c in p.conns
    ensures Unexpired(p, todo, now) == Unexpired(q, todo, now)
  {
    if todo == [] {
    } else {
      UnexpiredSame(p, q, todo[1..], now);
    }
  }

  lemma {:induction false} SweepInOrder(p: Pool, todo: seq<ConnId>, now: real)
    requires forall c :: c in todo ==> c in p.conns
    ensures Sweep(p, todo, now).idle == p.idle + Unexpired(p, todo, now)
    decreases |todo|
  {
    if todo == [] {
      assert p.idle + [] == p.idle;
    } else {
      var c, rest := todo[0], todo[1..];
      var p' := if Expired(p, p.conns[c], now) then CloseConn(p, c, ShouldDiscard(p, p.conns[c], now).value)
                else p.(idle := p.idle + [c]);
      SweepInOrder(p', rest, now);
      UnexpiredSame(p, p', rest, now);
      assert p.idle + [c] + Unexpired(p, rest, now) == p.idle + ([c] + Unexpired(p, rest, now));
    }
  }

  /** A sweep closes the expired idle connections, and no other; the rest keep their order. */
  lemma CleanClosesExpired(p: Pool, now: real)
    requires Enabled(p, CleanExpired(now))
    ensures var q := Next(p, CleanExpired(now));
            && (forall c :: c in q.idle <==> c in p.idle && !Expired(p, p.conns[c], now))
            && (forall c :: c in q.closed <==> c in p.closed || (c in p.idle && Expired(p, p.conns[c], now)))
            && q.idle == Unexpired(p, p.idle, now)
  {
    SweepSplits(p.(idle := []), p.idle, now);
    SweepInOrder(p.(idle := []), p.idle, now);
    UnexpiredSame(p, p.(idle := []), p.idle, now);
    assert [] + Unexpired(p, p.idle, now) == Unexpired(p, p.idle, now);
  }

  /**
   What becomes of a connection in use that is put back: closed if it is expired or
   the idle list is full, under the first reason that applies, and kept otherwise.
   */
  lemma PutOutcome(p: Pool, l: LeaseId, now: real)
    requires Accounted(p) && l in p.leases && p.leases[l].conn in p.active
    ensures var c, q := p.leases[l].conn, PutStep(p, l, now);
            if Expired(p, p.conns[c], now) || |p.idle| >= p.maxIdleConns then
              && q.closed == p.closed + [c] && q.idle == p.idle && q.numOpen == p.numOpen - 1
              && (q.maxLifetimeClosed > p.maxLifetimeClosed <==>
                    p.connMaxLifetime > 0.0 && p.conns[c].createdAt + p.connMaxLifetime < now)
              && (q.maxIdleClosed > p.maxIdleClosed <==> !Expired(p, p.conns[c], now))
            else q.closed == p.closed && q.idle == p.idle + [c] && q.numOpen == p.numOpen
  {
  }

  /** In every run a getter passes the cap check exactly when fewer connections than the cap are idle or active. */
  lemma CapCheckIff(maxIdle: int, maxOpen: int, lifetime: real, idleTime: real, es: seq<Event>, g: Getter)
    requires Legal(NewPool(maxIdle, maxOpen, lifetime, idleTime), es)
    requires g !in After(NewPool(maxIdle, maxOpen, lifetime, idleTime), es).creating
    ensures var p := After(NewPool(maxIdle, maxOpen, lifetime, idleTime), es);
            g in CheckCapStep(p, g).creating <==> |p.idle| + |p.active| < p.maxOpenConns
  {
    Conservation(maxIdle, maxOpen, lifetime, idleTime, es);
  }

  // ---- Ages ----

  /** The event hands out connection `c`. */
  predicate HandsOut(p: Pool, e: Event, c: ConnId) {
    (e.Create? && e.c == c) || (e.GetIdle? && p.idle != [] && Last(p.idle) == c)
  }

  /** When `c` was dialled. */
  function DialledAt(es: seq<Event>, c: ConnId): Option<real> {
    if es == [] then None
    else if Last(es).Create? && Last(es).c == c then Some(Last(es).now)
    else DialledAt(Front(es), c)
  }

  /** When `c` was last handed out. */
  function HandedOutAt(p: Pool, es: seq<Event>, c: ConnId): Option<real> {
    if es == [] then None
    else if HandsOut(After(p, Front(es)), Last(es), c) then Some(Last(es).now)
    else HandedOutAt(p, Front(es), c)
  }

  lemma AgeStep(p: Pool, e: Event, c: ConnId)
    requires Enabled(p, e) && c in Next(p, e).conns
    ensures c in p.conns || (e.Create? && e.c == c)
    ensures Next(p, e).conns[c].createdAt == if e.Create? && e.c == c then e.now else p.conns[c].createdAt
    ensures Next(p, e).conns[c].lastUsed == if HandsOut(p, e, c) then e.now else p.conns[c].lastUsed
  {
    match e
    case CleanExpired(now) => SweepKeepsHolders(p.(idle := []), p.idle, now);
    case SetMaxIdle(n) => TrimKeepsHolders(p.(maxIdleConns := n), n);
    case _ =>
  }

  /** In every run the two times of a connection are when it was dialled and when it was last handed out. */
  lemma {:induction false} RunAges(p: Pool, es: seq<Event>, c: ConnId)
    requires Legal(p, es) && p.conns == map[] && c in After(p, es).conns
    ensures DialledAt(es, c) == Some(After(p, es).conns[c].createdAt)
    ensures HandedOutAt(p, es, c) == Some(After(p, es).conns[c].lastUsed)
  {
    var before := After(p, Front(es));
    AgeStep(before, Last(es), c);
    if c in before.conns {
      RunAges(p, Front(es), c);
    }
  }

  lemma {:induction false} LimitsKept(p: Pool, es: seq<Event>)
    requires Legal(p, es)
    ensures After(p, es).connMaxLifetime == p.connMaxLifetime && After(p, es).connMaxIdleTime == p.connMaxIdleTime
  {
    if es == [] {
    } else {
      LimitsKept(p, Front(es));
      LimitsStep(After(p, Front(es)), Last(es));
    }
  }

  lemma {:induction false} SweepKeepsLimits(p: Pool, todo: seq<ConnId>, now: real)
    requires forall c :: c in todo ==> c in p.conns
    ensures Sweep(p, todo, now).connMaxLifetime == p.connMaxLifetime
    ensures Sweep(p, todo, now).connMaxIdleTime == p.connMaxIdleTime
    decreases |todo|
  {
    if todo == [] {
    } else {
      var why := ShouldDiscard(p, p.conns[todo[0]], now);
      SweepKeepsLimits(if why.Some? then CloseConn(p, todo[0], why.value) else p.(idle := p.idle + [todo[0]]),
                       todo[1..], now);
    }
  }

  lemma LimitsStep(p: Pool, e: Event)
    requires Enabled(p, e)
    ensures Next(p, e).connMaxLifetime == p.connMaxLifetime && Next(p, e).connMaxIdleTime == p.connMaxIdleTime
  {
    match e
    case CleanExpired(now) => SweepKeepsLimits(p.(idle := []), p.idle, now);
    case SetMaxIdle(n) => TrimOutcome(p.(maxIdleConns := n), n);
    case _ =>
  }

  /** Lowering the idle limit closes the connections returned last, and as few as needed. */
  lemma {:induction false} TrimOutcome(p: Pool, n: int)
    ensures var q, k := Trim(p, n), if n < 0 then 0 else n;
            && q.idle == (if |p.idle| <= k then p.idle else p.idle[..k])
            && q.maxIdleClosed == p.maxIdleClosed + |p.idle| - |q.idle|
            && (forall c :: c in q.closed <==> c in p.closed || c in p.idle[|q.idle|..])
            && q.connMaxLifetime == p.connMaxLifetime && q.connMaxIdleTime == p.connMaxIdleTime
    decreases |p.idle|
  {
    if |p.idle| <= n || p.idle == [] {
    } else {
      var p' := CloseConn(p, Last(p.idle), TooMany).(idle := Front(p.idle));
      TrimOutcome(p', n);
      var q := Trim(p, n);
      assert p.idle[|q.idle|..] == Front(p.idle)[|q.idle|..] + [Last(p.idle)];
    }
  }

  /** Dialled longer ago than the lifetime, or last handed out longer ago than the idle time. */
  ghost predicate TooOld(p: Pool, es: seq<Event>, c: ConnId, now: real) {
    || (p.connMaxLifetime > 0.0 && DialledAt(es, c).Some? && DialledAt(es, c).value + p.connMaxLifetime < now)
    || (p.connMaxIdleTime > 0.0 && HandedOutAt(p, es, c).Some? && HandedOutAt(p, es, c).value + p.connMaxIdleTime < now)
  }

  lemma TooOldIsExpired(p: Pool, es: seq<Event>, c: ConnId, now: real)
    requires Legal(p, es) && p.conns == map[] && c in After(p, es).conns
    ensures TooOld(p, es, c, now) <==> Expired(After(p, es), After(p, es).conns[c], now)
  {
    RunAges(p, es, c);
    LimitsKept(p, es);
  }

  /** In every run a sweep closes an idle connection if and only if it is too old by its history. */
  lemma SweptIff(maxIdle: int, maxOpen: int, lifetime: real, idleTime: real, es: seq<Event>, c: ConnId, now: real)
    requires Legal(NewPool(maxIdle, maxOpen, lifetime, idleTime), es)
    requires c in After(NewPool(maxIdle, maxOpen, lifetime, idleTime), es).idle
    ensures var p := NewPool(maxIdle, maxOpen, lifetime, idleTime);
            && Enabled(After(p, es), CleanExpired(now))
            && (c in Next(After(p, es), CleanExpired(now)).closed <==> TooOld(p, es, c, now))
  {
    var p := NewPool(maxIdle, maxOpen, lifetime, idleTime);
    Conservation(maxIdle, maxOpen, lifetime, idleTime, es);
    CleanClosesExpired(After(p, es), now);
    TooOldIsExpired(p, es, c, now);
  }

  /**
   The idle time runs from when a connection was handed out, not from when it was
   returned: a returned connection is kept if and only if it was handed out, and
   dialled, recently enough and the idle list has room, however short it was idle.
   */
  lemma KeptOnReturnIff(maxIdle: int, maxOpen: int, lifetime: real, idleTime: real, es: seq<Event>,
                        l: LeaseId, now: real)
    requires Legal(NewPool(maxIdle, maxOpen, lifetime, idleTime), es)
    requires var p := After(NewPool(maxIdle, maxOpen, lifetime, idleTime), es);
             l in p.leases && p.leases[l].conn in p.active
    ensures var p0 := NewPool(maxIdle, maxOpen, lifetime, idleTime);
            var p := After(p0, es);
            && p.leases[l].conn in p.conns
            && (p.leases[l].conn in PutStep(p, l, now).idle <==>
                !TooOld(p0, es, p.leases[l].conn, now) && |p.idle| < p.maxIdleConns)
  {
    var p0 := NewPool(maxIdle, maxOpen, lifetime, idleTime);
    var p := After(p0, es);
    Conservation(maxIdle, maxOpen, lifetime, idleTime, es);
    PutOutcome(p, l, now);
    TooOldIsExpired(p0, es, p.leases[l].conn, now);
  }

  /** A connection in use all the time, closed for being idle. */
  lemma BusyIsClosedAsIdle()
    ensures var es := [CheckCap(0), Create(0, 0, 0, 0.0), Put(0, 2.0)];
            var p := NewPool(1, 1, 0.0, 1.0);
            Legal(p, es) && After(p, es).closed == [0] && After(p, es).maxIdleTimeClosed == 1
  {
    var p, es := NewPool(1, 1, 0.0, 1.0), [CheckCap(0), Create(0, 0, 0, 0.0), Put(0, 2.0)];
    assert [] + [es[0]] == es[..1] && es[..1] + [es[1]] == es[..2] && es[..2] + [es[2]] == es;
    Extend(p, [], es[0]);
    Extend(p, es[..1], es[1]);
    Extend(p, es[..2], es[2]);
  }

  // ---- The cap ----

  /** Only these getters take part in the run. */
  ghost predicate UsesOnly(es: seq<Event>, getters: set<Getter>) {
    forall i :: 0 <= i < |es| ==>
      && (es[i].CheckCap? ==> es[i].g in getters)
      && (es[i].Create? ==> es[i].g in getters)
  }

  ghost predicate Capped(p: Pool, maxOpen: int, getters: set<Getter>) {
    && p.maxOpenConns == maxOpen && p.creating <= getters
    && p.numOpen + |p.creating| <= maxOpen - 1 + |getters|
  }

  lemma SubsetSize(a: set<Getter>, b: set<Getter>)
    requires a <= b
    ensures |a| <= |b|
  {
    assert b == a + (b - a);
  }

  lemma {:induction false} SweepCloses(p: Pool, todo: seq<ConnId>, now: real)
    requires forall c :: c in todo ==> c in p.conns
    ensures Sweep(p, todo, now).numOpen <= p.numOpen
    ensures Sweep(p, todo, now).creating == p.creating
    ensures Sweep(p, todo, now).maxOpenConns == p.maxOpenConns
    decreases |todo|
  {
    if todo == [] {
    } else {
      var why := ShouldDiscard(p, p.conns[todo[0]], now);
      SweepCloses(if why.Some? then CloseConn(p, todo[0], why.value) else p.(idle := p.idle + [todo[0]]),
                  todo[1..], now);
    }
  }

  lemma {:induction false} TrimCloses(p: Pool, n: int)
    ensures Trim(p, n).numOpen <= p.numOpen
    ensures Trim(p, n).creating == p.creating
    ensures Trim(p, n).maxOpenConns == p.maxOpenConns
    decreases |p.idle|
  {
    if !(|p.idle| <= n || p.idle == []) {
      TrimCloses(CloseConn(p, Last(p.idle), TooMany).(idle := Front(p.idle)), n);
    }
  }

  lemma CappedStep(p: Pool, e: Event, maxOpen: int, getters: set<Getter>)
    requires Capped(p, maxOpen, getters) && Enabled(p, e)
    requires (e.CheckCap? ==> e.g in getters) && (e.Create? ==> e.g in getters)
    ensures Capped(Next(p, e), maxOpen, getters)
  {
    match e
    case CheckCap(g) => SubsetSize(p.creating + {g}, getters);
    case CleanExpired(now) => SweepCloses(p.(idle := []), p.idle, now);
    case SetMaxIdle(n) => TrimCloses(p.(maxIdleConns := n), n);
    case Put(l, now) => PutOpensNothing(p, l, now);
    case _ =>
  }

  lemma PutOpensNothing(p: Pool, l: LeaseId, now: real)
    requires l in p.leases && p.leases[l].conn in p.conns
    ensures var q := PutStep(p, l, now);
            q.numOpen <= p.numOpen && q.creating == p.creating && q.maxOpenConns == p.maxOpenConns
  {
  }

  lemma {:induction false} RunCapped(p: Pool, es: seq<Event>, maxOpen: int, getters: set<Getter>)
    requires Capped(p, maxOpen, getters) && Legal(p, es) && UsesOnly(es, getters)
    ensures Capped(After(p, es), maxOpen, getters)
  {
    if es == [] {
    } else {
      RunCapped(p, Front(es), maxOpen, getters);
      CappedStep(After(p, Front(es)), Last(es), maxOpen, getters);
    }
  }

  /**
   With k concurrent getters the number of open connections never exceeds the cap
   by more than k - 1: each getter that passes the check before the others have
   registered adds one.
   */
  lemma OpenConnectionsBound(maxIdle: int, maxOpen: int, lifetime: real, idleTime: real,
                             es: seq<Event>, getters: set<Getter>)
    requires maxOpen >= 1 && UsesOnly(es, getters)
    requires Legal(NewPool(maxIdle, maxOpen, lifetime, idleTime), es)
    ensures After(NewPool(maxIdle, maxOpen, lifetime, idleTime), es).numOpen <= maxOpen - 1 + |getters|
  {
    RunCapped(NewPool(maxIdle, maxOpen, lifetime, idleTime), es, maxOpen, getters);
  }

  lemma Extend(p: Pool, es: seq<Event>, e: Event)
    requires Legal(p, es) && Enabled(After(p, es), e)
    ensures Legal(p, es + [e]) && After(p, es + [e]) == Next(After(p, es), e)
  {
    assert Front(es + [e]) == es;
  }

  /** The first `k` getters. */
  ghost function Getters(k: nat): set<Getter> {
    if k == 0 then {} else Getters(k - 1) + {k - 1}
  }

  lemma {:induction false} GettersAre(k: nat)
    ensures |Getters(k)| == k
    ensures forall g: Getter :: g in Getters(k) <==> g < k
  {
    if k == 0 {
    } else {
      GettersAre(k - 1);
      assert k - 1 !in Getters(k - 1);
      forall g: Getter ensures g in Getters(k) <==> g < k {
        assert g in Getters(k - 1) <==> g < k - 1;
      }
    }
  }

  lemma LastGetter(k: nat)
    requires k > 0
    ensures k - 1 in Getters(k) && k - 1 !in Getters(k - 1)
    ensures Getters(k) - {k - 1} == Getters(k - 1) && Getters(k - 1) <= Getters(k)
  {
    GettersAre(k - 1);
  }

  /** A run of `all` getters that has opened `n` connections, with `creating` on the way. */
  ghost predicate Opened(p: Pool, es: seq<Event>, all: set<Getter>, n: nat, creating: set<Getter>) {
    && Legal(p, es) && UsesOnly(es, all)
    && After(p, es).numOpen == n && After(p, es).creating == creating
    && After(p, es).maxOpenConns == p.maxOpenConns
    && (forall c :: c in After(p, es).conns ==> c < n)
    && (forall l :: l in After(p, es).leases ==> l < n)
  }

  lemma CheckOne(p: Pool, es: seq<Event>, all: set<Getter>, n: nat, creating: set<Getter>, g: Getter)
    requires Opened(p, es, all, n, creating) && g in all && g !in creating && n < p.maxOpenConns
    ensures Opened(p, es + [CheckCap(g)], all, n, creating + {g})
  {
    Extend(p, es, CheckCap(g));
  }

  lemma CreateOne(p: Pool, es: seq<Event>, all: set<Getter>, n: nat, creating: set<Getter>, g: Getter)
    requires Opened(p, es, all, n, creating) && g in all && g in creating
    ensures Opened(p, es + [Create(g, n, n, 0.0)], all, n + 1, creating - {g})
  {
    Extend(p, es, Create(g, n, n, 0.0));
  }

  /** One getter alone opens connections up to `n`. */
  lemma {:induction false} OpenAlone(p: Pool, all: set<Getter>, n: nat) returns (es: seq<Event>)
    requires Untouched(p) && n <= p.maxOpenConns && 0 in all
    ensures Opened(p, es, all, n, {})
  {
    if n == 0 {
      es := [];
    } else {
      es := OpenAlone(p, all, n - 1);
      CheckOne(p, es, all, n - 1, {}, 0);
      CreateOne(p, es + [CheckCap(0)], all, n - 1, {} + {0}, 0);
      assert {} + {0} - {0} == {};
      es := es + [CheckCap(0)] + [Create(0, n - 1, n - 1, 0.0)];
    }
  }

  /** The first `k` getters pass the check one after the other. */
  lemma {:induction false} CheckAll(p: Pool, es0: seq<Event>, all: set<Getter>, n: nat, k: nat) returns (es: seq<Event>)
    requires Opened(p, es0, all, n, {}) && Getters(k) <= all && n < p.maxOpenConns
    ensures Opened(p, es, all, n, Getters(k))
  {
    if k == 0 {
      es := es0;
    } else {
      LastGetter(k);
      es := CheckAll(p, es0, all, n, k - 1);
      CheckOne(p, es, all, n, Getters(k - 1), k - 1);
      es := es + [CheckCap(k - 1)];
    }
  }

  /** All of them then create. */
  lemma {:induction false} CreateAll(p: Pool, es0: seq<Event>, all: set<Getter>, n: nat, k: nat)
    returns (es: seq<Event>)
    requires Opened(p, es0, all, n, Getters(k)) && Getters(k) <= all
    ensures Opened(p, es, all, n + k, {})
    decreases k
  {
    if k == 0 {
      es := es0;
    } else {
      LastGetter(k);
      CreateOne(p, es0, all, n, Getters(k), k - 1);
      es := CreateAll(p, es0 + [Create(k - 1, n, n, 0.0)], all, n + 1, k - 1);
    }
  }

  /** The bound is reached: k getters can all pass the check at one below the cap. */
  lemma BoundIsReached(p: Pool, k: nat) returns (es: seq<Event>)
    requires p.maxOpenConns >= 1 && k >= 1 && Untouched(p)
    ensures Legal(p, es) && UsesOnly(es, Getters(k))
    ensures After(p, es).numOpen == p.maxOpenConns - 1 + k
  {
    GettersAre(k);
    es := OpenAlone(p, Getters(k), p.maxOpenConns - 1);
    es := CheckAll(p, es, Getters(k), p.maxOpenConns - 1, k);
    es := CreateAll(p, es, Getters(k), p.maxOpenConns - 1, k);
  }

  /** The configured cap itself is respected in every run exactly when getters do not overlap. */
  lemma CapRespectedIff(maxIdle: int, maxOpen: nat, lifetime: real, idleTime: real, k: nat)
    requires maxOpen >= 1 && k >= 1
    ensures (forall es :: Legal(NewPool(maxIdle, maxOpen, lifetime, idleTime), es) && UsesOnly(es, Getters(k)) ==>
               After(NewPool(maxIdle, maxOpen, lifetime, idleTime), es).numOpen <= maxOpen)
            <==> k == 1
  {
    if k == 1 {
      GettersAre(1);
      forall es | Legal(NewPool(maxIdle, maxOpen, lifetime, idleTime), es) && UsesOnly(es, Getters(k))
        ensures After(NewPool(maxIdle, maxOpen, lifetime, idleTime), es).numOpen <= maxOpen
      {
        OpenConnectionsBound(maxIdle, maxOpen, lifetime, idleTime, es, Getters(1));
      }
    } else {
      var es := BoundIsReached(NewPool(maxIdle, maxOpen, lifetime, idleTime), k);
    }
  }

  // ---- The object ----

  class ConnectionPool {
    var maxIdleConns: int
    const maxOpenConns: int
    const connMaxLifetime: real
    const connMaxIdleTime: real
    var idle: seq<ConnId>
    var active: set<ConnId>
    var numOpen: int
    var maxIdleClosed: nat
    var maxIdleTimeClosed: nat
    var maxLifetimeClosed: nat
    /** The `pooledConn` objects, and the connections closed so far. */
    var conns: map<ConnId, Conn>
    ghost var closed: seq<ConnId>
    ghost var creating: set<Getter>
    ghost var leases: map<LeaseId, Lease>

    ghost function State(): Pool
      reads this
    {
      Pool(maxIdleConns, maxOpenConns, connMaxLifetime, connMaxIdleTime, idle, active, numOpen,
           maxIdleClosed, maxIdleTimeClosed, maxLifetimeClosed, conns, closed, creating, leases)
    }

    constructor (maxIdle: int, maxOpen: int, lifetime: real, idleTime: real)
      ensures State() == NewPool(maxIdle, maxOpen, lifetime, idleTime)
    {
      maxIdleConns, maxOpenConns, connMaxLifetime, connMaxIdleTime := maxIdle, maxOpen, lifetime, idleTime;
      idle, active, numOpen := [], {}, 0;
      maxIdleClosed, maxIdleTimeClosed, maxLifetimeClosed := 0, 0, 0;
      conns, closed, creating, leases := map[], [], {}, map[];
    }

    method GetIdleConn(ghost l: LeaseId, now: real) returns (conn: Option<ConnId>)
      requires Enabled(State(), GetIdle(l, now))
      modifies this`idle, this`active, this`conns, this`leases
      ensures State() == Next(old(State()), GetIdle(l, now))
      ensures conn == if old(idle) == [] then None else Some(Last(old(idle)))
    {
      if |idle| == 0 {
        return None;
      }
      var c := idle[|idle| - 1];
      idle := idle[..|idle| - 1];
      conns := conns[c := conns[c].(inUse := true, lastUsed := now)];
      active := active + {c};
      leases := leases[l := Lease(c, false)];
      return Some(c);
    }

    method CanOpenNewConn(ghost g: Getter) returns (ok: bool)
      modifies this`creating
      ensures Accounted(State()) ==> (ok <==> |idle| + |active| < maxOpenConns)
      ensures State() == CheckCapStep(old(State()), g) && (ok <==> numOpen < maxOpenConns)
    {
      ok := numOpen < maxOpenConns;
      creating := if ok then creating + {g} else creating;
    }

    /** The locked part of `createConn`, for the connection `c` the factory returned. */
    method CreateConn(ghost g: Getter, ghost l: LeaseId, c: ConnId, now: real)
      requires Enabled(State(), Create(g, l, c, now))
      modifies this`conns, this`active, this`numOpen, this`creating, this`leases
      ensures State() == Next(old(State()), Create(g, l, c, now))
    {
      conns := conns[c := Conn(now, now, true)];
      active := active + {c};
      numOpen := numOpen + 1;
      creating := creating - {g};
      leases := leases[l := Lease(c, false)];
    }

    /** `closeConnLocked` together with the counter its caller has raised. */
    method CloseConnLocked(c: ConnId, why: Reason)
      modifies this`numOpen, this`closed, this`maxIdleClosed, this`maxIdleTimeClosed, this`maxLifetimeClosed
      ensures State() == CloseConn(old(State()), c, why)
    {
      match why {
        case Lifetime => maxLifetimeClosed := maxLifetimeClosed + 1;
        case IdleTime => maxIdleTimeClosed := maxIdleTimeClosed + 1;
        case TooMany => maxIdleClosed := maxIdleClosed + 1;
      }
      closed := closed + [c];
      numOpen := numOpen - 1;
    }

    method ShouldDiscardConn(conn: Conn, now: real) returns (why: Option<Reason>)
      ensures why == ShouldDiscard(State(), conn, now)
      ensures why.Some? <==> Expired(State(), conn, now)
    {
      if connMaxLifetime > 0.0 && now - conn.createdAt > connMaxLifetime {
        return Some(Lifetime);
      }
      if connMaxIdleTime > 0.0 && now - conn.lastUsed > connMaxIdleTime {
        return Some(IdleTime);
      }
      return None;
    }

    /** Called on the bare pointer: any holder of `c`, present or past, can do so. */
    method PutConn(ghost l: LeaseId, c: ConnId, now: real)
      requires c in conns && l in leases && leases[l].conn == c
      modifies this
      ensures State() == Next(old(State()), Put(l, now))
    {
      leases := leases[l := Lease(c, true)];
      if !conns[c].inUse {
        return;
      }
      active := active - {c};
      conns := conns[c := conns[c].(inUse := false)];
      var why := ShouldDiscardConn(conns[c], now);
      if why.Some? {
        CloseConnLocked(c, why.value);
        return;
      }
      if |idle| >= maxIdleConns {
        CloseConnLocked(c, TooMany);
        return;
      }
      idle := idle + [c];
    }

    method CleanExpiredConns(now: real)
      requires Enabled(State(), CleanExpired(now))
      modifies this
      ensures State() == Next(old(State()), CleanExpired(now))
    {
      var keepIdle: seq<ConnId> := [];
      var i := 0;
      assert idle[0..] == idle;
      while i < |idle|
        invariant 0 <= i <= |idle| && idle == old(idle) && conns == old(conns)
        invariant forall c :: c in idle ==> c in conns
        invariant Sweep(State().(idle := keepIdle), idle[i..], now) ==
                  Sweep(old(State()).(idle := []), old(idle), now)
        modifies this`numOpen, this`closed, this`maxIdleClosed, this`maxIdleTimeClosed, this`maxLifetimeClosed
      {
        var c := idle[i];
        SweepOne(State().(idle := keepIdle), idle[i..], now);
        assert idle[i..][0] == c && idle[i..][1..] == idle[i + 1..];
        var why := ShouldDiscardConn(conns[c], now);
        if why.Some? {
          CloseConnLocked(c, why.value);
        } else {
          keepIdle := keepIdle + [c];
        }
        i := i + 1;
      }
      idle := keepIdle;
    }

    /** `SetMaxIdleConns`: a negative limit empties the list and then panics on the empty slice. */
    method SetMaxIdleConns(n: int) returns (panicked: bool)
      modifies this
      ensures State() == Next(old(State()), SetMaxIdle(n))
      ensures panicked <==> n < 0
    {
      ghost var start := State().(maxIdleConns := n);
      maxIdleConns := n;
      while |idle| > n
        invariant Trim(State(), n) == Trim(start, n)
        decreases |idle|
      {
        if |idle| == 0 {
          return true;
        }
        var c := idle[|idle| - 1];
        idle := idle[..|idle| - 1];
        CloseConnLocked(c, TooMany);
      }
      return false;
    }
  }
}
