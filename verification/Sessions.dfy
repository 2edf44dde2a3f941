/**
 The session table of `StreamableHTTPHandler`: creation under a cap, deletion,
 the idle reaper, and the Serve goroutine of each session that removes its own
 entry when it returns. One event per lock region or goroutine step.
 */
module Sessions {
  import opened Common

  type SessionId = string

  /** A `*StreamableServerTransport`: pointer identity is what the code compares. */
  type SessionRef = nat

  type Time = int

  /**
   The goroutine started by `getOrCreateSession`: not yet started, running Serve,
   returned from Serve but not yet at the lock, or gone. `Crashed` is a Serve
   that panicked: `safeGo` recovers it past the removal.
   */
  datatype Task = Starting | Serving | Returned | Finished | Crashed {
    predicate Unfinished() {
      Starting? || Serving? || Returned?
    }
  }

  datatype Session = Session(id: SessionId, task: Task, lastActive: Time, cancelled: bool)

  /** `sessions` holds every session ever made; `table` is the handler's map. */
  datatype Handler = Handler(
    maxSessions: nat, timeout: Time,
    table: map<SessionId, SessionRef>, sessions: map<SessionRef, Session>)

  datatype Event =
    | Create(id: SessionId, ref: SessionRef, now: Time)
    | Start(ref: SessionRef)
    | Touch(ref: SessionRef, now: Time)
    | Return(ref: SessionRef)
    | Panic(ref: SessionRef)
    | SelfRemove(ref: SessionRef)
    | Delete(id: SessionId)
    | Cancel(ref: SessionRef)

  function With(h: Handler, ref: SessionRef, s: Session): Handler {
    h.(sessions := h.sessions[ref := s])
  }

  /** The write-locked part of `getOrCreateSession`; the session object is made before it. */
  function CreateStep(h: Handler, id: SessionId, ref: SessionRef, now: Time): Handler {
    if id in h.table || |h.table| >= h.maxSessions then h
    else
      With(h, ref, Session(id, Starting, now, false)).(table := h.table[id := ref])
  }

  /** After Serve returns: remove the entry only if it is still this session. */
  function SelfRemoveStep(h: Handler, ref: SessionRef): Handler
    requires ref in h.sessions
  {
    var s := h.sessions[ref];
    With(h, ref, s.(task := Finished))
      .(table := if s.id in h.table && h.table[s.id] == ref then h.table - {s.id} else h.table)
  }

  /** `handleSessionDelete`: remove and close, under the lock. */
  function DeleteStep(h: Handler, id: SessionId): Handler {
    if id !in h.table || h.table[id] !in h.sessions then h.(table := h.table - {id})
    else
      With(h, h.table[id], h.sessions[h.table[id]].(cancelled := true)).(table := h.table - {id})
  }

  predicate Enabled(h: Handler, e: Event) {
    match e
    case Create(_, ref, _) => ref !in h.sessions
    case Start(ref) => ref in h.sessions && h.sessions[ref].task.Starting?
    case Touch(ref, now) => ref in h.sessions && h.sessions[ref].lastActive <= now
    case Return(ref) => ref in h.sessions && h.sessions[ref].task.Serving?
    case Panic(ref) => ref in h.sessions && h.sessions[ref].task.Serving?
    case SelfRemove(ref) => ref in h.sessions && h.sessions[ref].task.Returned?
    case Delete(_) => true
    case Cancel(ref) => ref in h.sessions
  }

  function Next(h: Handler, e: Event): Handler
    requires Enabled(h, e)
  {
    match e
    case Create(id, ref, now) => CreateStep(h, id, ref, now)
    case Start(ref) => With(h, ref, h.sessions[ref].(task := Serving))
    case Touch(ref, now) => With(h, ref, h.sessions[ref].(lastActive := now))
    case Return(ref) => With(h, ref, h.sessions[ref].(task := Returned))
    case Panic(ref) => With(h, ref, h.sessions[ref].(task := Crashed))
    case SelfRemove(ref) => SelfRemoveStep(h, ref)
    case Delete(id) => DeleteStep(h, id)
    case Cancel(ref) => With(h, ref, h.sessions[ref].(cancelled := true))
  }

  function After(h: Handler, es: seq<Event>): Handler {
    if es == [] then h
    else
      var before := After(h, Front(es));
      if Enabled(before, Last(es)) then Next(before, Last(es)) else before
  }

  ghost predicate Legal(h: Handler, es: seq<Event>) {
    es == [] || (Legal(h, Front(es)) && Enabled(After(h, Front(es)), Last(es)))
  }

  /** An empty handler. */
  function NewHandler(maxSessions: nat, timeout: Time): Handler {
    Handler(maxSessions, timeout, map[], map[])
  }

  // ---- The table invariant ----

  ghost predicate Bounded(h: Handler) {
    |h.table| <= h.maxSessions
  }

  /** Entries are sessions made under that id, so no session has two entries. */
  ghost predicate Own(h: Handler) {
    forall id :: id in h.table ==> h.table[id] in h.sessions && h.sessions[h.table[id]].id == id
  }

  /** Every entry has a goroutine that will remove it. */
  ghost predicate Tended(h: Handler) {
    forall id :: id in h.table ==>
      h.table[id] in h.sessions && h.sessions[h.table[id]].task.Unfinished()
  }

  /** A session still serving is in the table, or has been told to stop. */
  ghost predicate NoStray(h: Handler) {
    forall ref :: ref in h.sessions && (h.sessions[ref].task.Starting? || h.sessions[ref].task.Serving?) ==>
      h.sessions[ref].cancelled || (h.sessions[ref].id in h.table && h.table[h.sessions[ref].id] == ref)
  }

  lemma TableSizeUpdate(m: map<SessionId, SessionRef>, id: SessionId, ref: SessionRef)
    requires id !in m
    ensures |m[id := ref]| == |m| + 1
  {
    assert m[id := ref].Keys == m.Keys + {id};
  }

  lemma TableSizeRemove(m: map<SessionId, SessionRef>, id: SessionId)
    ensures |m - {id}| <= |m|
  {
    var smaller := m - {id};
    assert smaller.Keys == m.Keys - {id};
  }

  lemma TableAfter(h: Handler, e: Event)
    requires Enabled(h, e)
    ensures Next(h, e).maxSessions == h.maxSessions
    ensures Next(h, e).table ==
            if e.Create? && e.id !in h.table && |h.table| < h.maxSessions then h.table[e.id := e.ref]
            else if e.Delete? then h.table - {e.id}
            else if e.SelfRemove? && h.sessions[e.ref].id in h.table && h.table[h.sessions[e.ref].id] == e.ref then
              h.table - {h.sessions[e.ref].id}
            else h.table
  {
  }

  lemma BoundedStep(h: Handler, e: Event)
    requires Bounded(h) && Enabled(h, e)
    ensures Bounded(Next(h, e)) && Next(h, e).maxSessions == h.maxSessions
  {
    TableAfter(h, e);
    if e.Create? && e.id !in h.table {
      TableSizeUpdate(h.table, e.id, e.ref);
    } else if e.SelfRemove? {
      TableSizeRemove(h.table, h.sessions[e.ref].id);
    } else if e.Delete? {
      TableSizeRemove(h.table, e.id);
    }
  }

  lemma OwnStep(h: Handler, e: Event)
    requires Own(h) && Enabled(h, e)
    ensures Own(Next(h, e))
  {
  }

  lemma NoStrayStep(h: Handler, e: Event)
    requires NoStray(h) && Enabled(h, e)
    ensures NoStray(Next(h, e))
  {
  }

  /**
   A step keeps every entry tended exactly when it is not the panic of a Serve
   whose session is still in the table: that entry is never removed again by
   its goroutine.
   */
  lemma TendedStepIff(h: Handler, e: Event)
    requires Own(h) && Tended(h) && Enabled(h, e)
    ensures Tended(Next(h, e)) <==>
            (e.Panic? ==> !(h.sessions[e.ref].id in h.table && h.table[h.sessions[e.ref].id] == e.ref))
  {
    if e.Panic? {
      var id := h.sessions[e.ref].id;
      if id in h.table && h.table[id] == e.ref {
        assert Next(h, e).table[id] == e.ref && !Next(h, e).sessions[e.ref].task.Unfinished();
      }
    }
  }

  ghost predicate NoPanic(es: seq<Event>) {
    forall i :: 0 <= i < |es| ==> !es[i].Panic?
  }

  /**
   In every interleaving of creation, deletion, reaping and Serve completion the
   table holds at most the configured number of sessions, each entry is a session
   of that id, a session still serving is in the table or has been told to stop,
   and, unless a Serve panicked, each entry has a goroutine left to remove it.
   */
  lemma {:induction false} SessionTableInvariant(maxSessions: nat, timeout: Time, es: seq<Event>)
    requires Legal(NewHandler(maxSessions, timeout), es)
    ensures var h := After(NewHandler(maxSessions, timeout), es);
            h.maxSessions == maxSessions && Bounded(h) && Own(h) && NoStray(h) && (NoPanic(es) ==> Tended(h))
  {
    if es == [] {
    } else {
      SessionTableInvariant(maxSessions, timeout, Front(es));
      var before := After(NewHandler(maxSessions, timeout), Front(es));
      BoundedStep(before, Last(es));
      OwnStep(before, Last(es));
      NoStrayStep(before, Last(es));
      if NoPanic(es) {
        assert NoPanic(Front(es));
        TendedStepIff(before, Last(es));
      }
    }
  }

  /** Distinct ids never share a session. */
  lemma NoSharedSession(h: Handler, a: SessionId, b: SessionId)
    requires Own(h) && a in h.table && b in h.table && h.table[a] == h.table[b]
    ensures a == b
  {
  }

  /** An entry can only leave the table through its own goroutine or a delete of its id. */
  lemma EntryRemovedOnlyByOwner(h: Handler, e: Event, id: SessionId)
    requires Own(h) && Enabled(h, e) && id in h.table
    ensures id in Next(h, e).table ==> Next(h, e).table[id] == h.table[id]
    ensures id !in Next(h, e).table <==> (e == SelfRemove(h.table[id]) || e == Delete(id))
  {
  }

  /**
   A finished old session never removes a newer one: over any run in which nobody
   deletes `id` and the goroutine of its current session has not removed it,
   whatever goroutines of earlier sessions do, the entry stays.
   */
  lemma {:induction false} NewerSessionStays(h: Handler, es: seq<Event>, id: SessionId)
    requires Own(h) && Bounded(h) && Legal(h, es) && id in h.table
    requires forall i :: 0 <= i < |es| ==> es[i] != Delete(id) && es[i] != SelfRemove(h.table[id])
    ensures id in After(h, es).table && After(h, es).table[id] == h.table[id]
    ensures Own(After(h, es)) && Bounded(After(h, es))
  {
    if es == [] {
    } else {
      NewerSessionStays(h, Front(es), id);
      var before := After(h, Front(es));
      BoundedStep(before, Last(es));
      OwnStep(before, Last(es));
      EntryRemovedOnlyByOwner(before, Last(es), id);
    }
  }

  /** A panicking Serve leaves an entry that no step of its goroutine will remove. */
  lemma PanicLeavesEntry(id: SessionId, now: Time)
    ensures var es := [Create(id, 0, now), Start(0), Panic(0)];
            var h := After(NewHandler(1, 1), es);
            Legal(NewHandler(1, 1), es) && id in h.table && h.table[id] == 0 &&
            !Enabled(h, Start(0)) && !Enabled(h, Return(0)) && !Enabled(h, SelfRemove(0))
  {
    var h0 := NewHandler(1, 1);
    var e1, e2, e3 := [Create(id, 0, now)], [Create(id, 0, now), Start(0)], [Create(id, 0, now), Start(0), Panic(0)];
    assert Front(e1) == [] && Front(e2) == e1 && Front(e3) == e2;
    assert After(h0, []) == h0 && Legal(h0, e1) && Legal(h0, e2);
  }

  // ---- Activity and the reaper ----

  /** The time of the last event that made or touched the session. */
  function LastActivity(es: seq<Event>, ref: SessionRef): Option<Time> {
    if es == [] then None
    else
      match Last(es)
      case Create(_, r, now) => if r == ref then Some(now) else LastActivity(Front(es), ref)
      case Touch(r, now) => if r == ref then Some(now) else LastActivity(Front(es), ref)
      case _ => LastActivity(Front(es), ref)
  }

  lemma ActivityStep(h: Handler, e: Event, ref: SessionRef)
    requires Enabled(h, e) && ref in Next(h, e).sessions
    ensures if (e.Create? || e.Touch?) && e.ref == ref then Next(h, e).sessions[ref].lastActive == e.now
            else ref in h.sessions && Next(h, e).sessions[ref].lastActive == h.sessions[ref].lastActive
  {
  }

  /** In every run a session was last active when it was last made or touched. */
  lemma {:induction false} ActiveWhenTouched(h: Handler, es: seq<Event>, ref: SessionRef)
    requires Legal(h, es) && h.sessions == map[] && ref in After(h, es).sessions
    ensures LastActivity(es, ref) == Some(After(h, es).sessions[ref].lastActive)
  {
    var before := After(h, Front(es));
    ActivityStep(before, Last(es), ref);
    if ref in before.sessions {
      ActiveWhenTouched(h, Front(es), ref);
    }
  }

  /** What `reapIdleSessions` collects at `now`. */
  function Idle(h: Handler, now: Time): set<SessionRef> {
    set id | id in h.table && h.table[id] in h.sessions && h.sessions[h.table[id]].lastActive < now - h.timeout
      :: h.table[id]
  }

  /**
   In every run the reaper collects a session if and only if it is listed and was
   last made or touched more than the timeout ago.
   */
  lemma ReapedIff(maxSessions: nat, timeout: Time, es: seq<Event>, ref: SessionRef, now: Time)
    requires Legal(NewHandler(maxSessions, timeout), es)
    ensures var h := After(NewHandler(maxSessions, timeout), es);
            ref in Idle(h, now) <==>
            && ref in h.table.Values && LastActivity(es, ref).Some?
            && LastActivity(es, ref).value + timeout < now
  {
    var h0 := NewHandler(maxSessions, timeout);
    var h := After(h0, es);
    SessionTableInvariant(maxSessions, timeout, es);
    TimeoutKept(h0, es);
    if ref in h.table.Values {
      var id :| id in h.table && h.table[id] == ref;
      ActiveWhenTouched(h0, es, ref);
    }
  }

  lemma {:induction false} TimeoutKept(h: Handler, es: seq<Event>)
    ensures After(h, es).timeout == h.timeout
  {
    if es == [] {
    } else {
      TimeoutKept(h, Front(es));
    }
  }

  /** A session touched at `t` is active at least until then. */
  lemma {:induction false} TouchedStaysActive(h: Handler, es: seq<Event>, i: nat)
    requires Legal(h, es) && i < |es|
    requires es[i].Touch? || (es[i].Create? && es[i].ref in After(h, es[..i + 1]).sessions)
    ensures es[i].ref in After(h, es).sessions && es[i].now <= After(h, es).sessions[es[i].ref].lastActive
    decreases |es|
  {
    var front, ref := Front(es), es[i].ref;
    if i == |es| - 1 {
      assert es[..i + 1] == es;
    } else {
      assert front[..i + 1] == es[..i + 1];
      TouchedStaysActive(h, front, i);
      SessionsStay(After(h, front), Last(es), ref);
    }
    ActivityStep(After(h, front), Last(es), ref);
  }

  lemma SessionsStay(h: Handler, e: Event, ref: SessionRef)
    requires Enabled(h, e) && ref in h.sessions
    ensures ref in Next(h, e).sessions
  {
  }

  /** So no session made or touched within the timeout is ever collected. */
  lemma InUseIsNotReaped(maxSessions: nat, timeout: Time, es: seq<Event>, i: nat, now: Time)
    requires Legal(NewHandler(maxSessions, timeout), es) && i < |es|
    requires es[i].Touch? ||
             (es[i].Create? && es[i].ref in After(NewHandler(maxSessions, timeout), es[..i + 1]).sessions)
    requires now <= es[i].now + timeout
    ensures es[i].ref !in Idle(After(NewHandler(maxSessions, timeout), es), now)
  {
    TouchedStaysActive(NewHandler(maxSessions, timeout), es, i);
    TimeoutKept(NewHandler(maxSessions, timeout), es);
  }

  /** Some event told the session to stop: the reaper, or a delete of its id while it was listed. */
  ghost predicate ToldToStop(h: Handler, es: seq<Event>, ref: SessionRef) {
    es != [] &&
    var before := After(h, Front(es));
    || ToldToStop(h, Front(es), ref)
    || Last(es) == Cancel(ref)
    || (Last(es).Delete? && Last(es).id in before.table && before.table[Last(es).id] == ref)
  }

  lemma CancelStep(h: Handler, e: Event, ref: SessionRef)
    requires Own(h) && Enabled(h, e) && ref in Next(h, e).sessions
    ensures Next(h, e).sessions[ref].cancelled <==>
            || (ref in h.sessions && h.sessions[ref].cancelled)
            || e == Cancel(ref)
            || (e.Delete? && e.id in h.table && h.table[e.id] == ref)
  {
  }

  lemma {:induction false} UnmadeToldNothing(h: Handler, es: seq<Event>, ref: SessionRef)
    requires Own(h) && Legal(h, es) && ref !in After(h, es).sessions
    ensures !ToldToStop(h, es, ref) && Own(After(h, es))
  {
    if es == [] {
    } else {
      var before := After(h, Front(es));
      if ref in before.sessions {
        SessionsStay(before, Last(es), ref);
      }
      UnmadeToldNothing(h, Front(es), ref);
      OwnStep(before, Last(es));
    }
  }

  /** In every run a session is cancelled if and only if it was told to stop. */
  lemma {:induction false} CancelledIff(h: Handler, es: seq<Event>, ref: SessionRef)
    requires Own(h) && Legal(h, es) && h.sessions == map[] && ref in After(h, es).sessions
    ensures After(h, es).sessions[ref].cancelled <==> ToldToStop(h, es, ref)
    ensures Own(After(h, es))
  {
    var before := After(h, Front(es));
    if ref in before.sessions {
      CancelledIff(h, Front(es), ref);
    } else {
      UnmadeToldNothing(h, Front(es), ref);
    }
    CancelStep(before, Last(es), ref);
    OwnStep(before, Last(es));
  }

  // ---- The handler object ----

  /** What `getOrCreateSession` returns: a session, or one of its two errors. */
  datatype Lookup = Found(ref: SessionRef) | NoServer | LimitReached

  class StreamableHTTPHandler {
    const maxSessions: nat
    const timeout: Time
    var table: map<SessionId, SessionRef>
    /** The session objects made so far. */
    var sessions: map<SessionRef, Session>
    var nextRef: nat

    ghost predicate Valid()
      reads this
    {
      && (forall ref :: ref in sessions ==> ref < nextRef)
      && Bounded(State()) && Own(State())
    }

    ghost function State(): Handler
      reads this
    {
      Handler(maxSessions, timeout, table, sessions)
    }

    constructor (maxSessions: nat, timeout: Time)
      ensures Valid() && State() == NewHandler(maxSessions, timeout)
    {
      this.maxSessions, this.timeout := maxSessions, timeout;
      table, sessions, nextRef := map[], map[], 0;
    }

    /** The write-locked part of `getOrCreateSession`: somebody else may have made the session meanwhile. */
    method AddSession(id: SessionId, now: Time) returns (result: Lookup)
      requires Valid()
      modifies this
      ensures Valid()
      ensures id in old(table) ==> result == Found(old(table)[id])
      ensures result == LimitReached <==> id !in old(table) && |old(table)| >= maxSessions
      ensures id in old(table) || !result.Found? ==> State() == old(State())
      ensures id !in old(table) && result.Found? ==>
                result.ref !in old(sessions) && State() == CreateStep(old(State()), id, result.ref, now) &&
                id in table && table[id] == result.ref
      ensures result != NoServer
    {
      ghost var before := State();
      if id in table {
        return Found(table[id]);
      }
      if |table| >= maxSessions {
        return LimitReached;
      }
      var ref := nextRef;
      assert ref !in sessions;
      sessions := sessions[ref := Session(id, Starting, now, false)];
      table := table[id := ref];
      nextRef := nextRef + 1;
      BoundedStep(before, Create(id, ref, now));
      OwnStep(before, Create(id, ref, now));
      return Found(ref);
    }

    /** `getOrCreateSession` with nobody in between its two lookups. */
    method GetOrCreateSession(id: SessionId, serverAvailable: bool, now: Time) returns (result: Lookup)
      requires Valid()
      modifies this
      ensures Valid()
      ensures result.Found? <==> id in old(table) || (serverAvailable && |old(table)| < maxSessions)
      ensures result == NoServer <==> id !in old(table) && !serverAvailable
      ensures result.Found? ==> id in table && table[id] == result.ref
      ensures id in old(table) || !result.Found? ==> State() == old(State())
      ensures id !in old(table) && result.Found? ==>
                result.ref !in old(sessions) && State() == CreateStep(old(State()), id, result.ref, now)
    {
      if id in table {
        return Found(table[id]);
      }
      if !serverAvailable {
        return NoServer;
      }
      result := AddSession(id, now);
    }

    /** `touch`. */
    method Touch(ref: SessionRef, now: Time)
      requires Valid() && Enabled(State(), Event.Touch(ref, now))
      modifies this`sessions
      ensures Valid() && State() == Next(old(State()), Event.Touch(ref, now))
    {
      ghost var before := State();
      sessions := sessions[ref := sessions[ref].(lastActive := now)];
      BoundedStep(before, Event.Touch(ref, now));
      OwnStep(before, Event.Touch(ref, now));
    }

    /** The end of a Serve goroutine. */
    method ServeReturned(ref: SessionRef)
      requires Valid() && ref in sessions && sessions[ref].task.Returned?
      modifies this
      ensures Valid() && State() == SelfRemoveStep(old(State()), ref)
    {
      ghost var before := State();
      var id := sessions[ref].id;
      sessions := sessions[ref := sessions[ref].(task := Finished)];
      if id in table && table[id] == ref {
        table := table - {id};
      }
      BoundedStep(before, SelfRemove(ref));
      OwnStep(before, SelfRemove(ref));
    }

    method HandleSessionDelete(id: SessionId)
      requires Valid()
      modifies this
      ensures Valid() && State() == DeleteStep(old(State()), id)
    {
      ghost var before := State();
      if id in table {
        sessions := sessions[table[id] := sessions[table[id]].(cancelled := true)];
      }
      table := table - {id};
      BoundedStep(before, Delete(id));
      OwnStep(before, Delete(id));
    }

    /** The rest of `reapIdleSessions`: tell them to stop; the table is left to their goroutines. */
    method CancelSessions(idle: seq<SessionRef>)
      requires Valid() && forall i :: 0 <= i < |idle| ==> idle[i] in sessions
      modifies this`sessions
      ensures Valid() && sessions.Keys == old(sessions).Keys
      ensures forall ref :: ref in sessions ==>
                sessions[ref] == if ref in idle then old(sessions)[ref].(cancelled := true) else old(sessions)[ref]
    {
      var i := 0;
      while i < |idle|
        invariant 0 <= i <= |idle| && sessions.Keys == old(sessions).Keys
        invariant forall ref :: ref in sessions ==>
                    sessions[ref] ==
                    if ref in idle[..i] then old(sessions)[ref].(cancelled := true) else old(sessions)[ref]
      {
        sessions := sessions[idle[i] := sessions[idle[i]].(cancelled := true)];
        i := i + 1;
      }
      assert idle[..i] == idle;
    }

    /** The read-locked part of `reapIdleSessions`: the sessions it will cancel. */
    method ReapIdleSessions(now: Time) returns (idle: seq<SessionRef>)
      requires Valid()
      ensures forall ref :: ref in idle <==> ref in Idle(State(), now)
      ensures forall i, j :: 0 <= i < j < |idle| ==> idle[i] != idle[j]
    {
      idle := [];
      var cutoff := now - timeout;
      var ids := table.Keys;
      while ids != {}
        invariant ids <= table.Keys
        invariant forall ref :: ref in idle ==> ref in sessions && sessions[ref].lastActive < cutoff
        invariant forall ref :: ref in idle ==>
                    sessions[ref].id in table && table[sessions[ref].id] == ref && sessions[ref].id !in ids
        invariant forall id :: id in table && id !in ids && sessions[table[id]].lastActive < cutoff ==>
                    table[id] in idle
        invariant forall i, j :: 0 <= i < j < |idle| ==> idle[i] != idle[j]
        decreases |ids|
      {
        var id :| id in ids;
        ids := ids - {id};
        if sessions[table[id]].lastActive < cutoff {
          idle := idle + [table[id]];
        }
      }
    }
  }
}
