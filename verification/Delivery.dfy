/**
 Delivery end to end: a run of the whole session, a client that reconnects with
 GET as often as it likes, and connections that break at any byte.
 */
module Delivery {
  import opened Common
  import opened EventId
  import opened Messages
  import opened Sse
  import opened Resume
  import Routing
  import Mailbox
  import StreamSystem

  /**
   A GET connection that ended before event `until` of the run: its reader, what
   the server sent on it, and how many bytes of that reached the client.
   */
  datatype Connection = Connection(r: Mailbox.ReaderId, until: nat, items: seq<Item>, cut: nat)

  ghost function LogAt(es: seq<StreamSystem.Event>, n: nat, sid: StreamId): seq<Entry>
    requires n <= |es|
  {
    Log(StreamSystem.After(es[..n]).hub.logs, sid)
  }

  /** The connection was opened with the client's last event id and carried what its reader wrote. */
  ghost predicate Serves(es: seq<StreamSystem.Event>, json: Codec, c: Client, conn: Connection) {
    && conn.until <= |es| && conn.cut <= |Print(conn.items)|
    && var readers := StreamSystem.After(es[..conn.until]).hub.readers;
    && conn.r in readers && readers[conn.r].kind.Get?
    && (readers[conn.r].sid, readers[conn.r].start) == ResumePoint(c.lastEventId)
    && Carries(json, conn.items, readers[conn.r].out)
  }

  /** `clients[i]` is the client before its connection `i`; connections follow one another. */
  ghost predicate Follows(es: seq<StreamSystem.Event>, json: Codec,
                          clients: seq<Client>, conns: seq<Connection>) {
    && |clients| == |conns| + 1
    && (forall i :: 0 <= i < |conns| ==>
          && Serves(es, json, clients[i], conns[i])
          && clients[i + 1] == Receive(json, clients[i], conns[i].items, conns[i].cut))
    && (forall i, j :: 0 <= i < j < |conns| ==> conns[i].until <= conns[j].until)
  }

  lemma {:induction false} LogsGrowInRuns(es: seq<StreamSystem.Event>, n: nat, m: nat, sid: StreamId)
    requires StreamSystem.Legal(es) && n <= m <= |es|
    ensures LogAt(es, n, sid) <= LogAt(es, m, sid)
    decreases m
  {
    if n < m {
      LogsGrowInRuns(es, n, m - 1, sid);
      StreamSystem.LegalPrefix(es, m - 1);
      StreamSystem.LegalPrefix(es, m);
      StreamSystem.RunInStep(es[..m - 1]);
      StreamSystem.RunInStep(es[..m]);
      assert Front(es[..m]) == es[..m - 1];
      if Last(es[..m]).Transport? {
        Routing.LogsGrow(StreamSystem.After(es[..m - 1]).t, Last(es[..m]).te, sid);
      }
    }
  }

  lemma LogIsNumbered(es: seq<StreamSystem.Event>, n: nat, sid: StreamId)
    requires StreamSystem.Legal(es) && n <= |es|
    requires sid <= MAX_INT64 && |LogAt(es, n, sid)| <= MAX_INT64
    ensures NumberedLog(LogAt(es, n, sid), sid)
  {
    StreamSystem.LegalPrefix(es, n);
    StreamSystem.RunInStep(es[..n]);
    StreamSystem.TransportProjection(es[..n]);
    Routing.RunNumbered(StreamSystem.TransportTrace(es[..n]));
  }

  lemma ResumePointFits(lastEventId: string)
    ensures ResumePoint(lastEventId).0 <= MAX_INT64
  {
  }

  /** One connection keeps a client in step with the stream it resumes. */
  lemma ConnectionKeepsSync(es: seq<StreamSystem.Event>, json: Codec, c: Client, conn: Connection,
                            sid: StreamId, base: nat)
    requires RoundTrips(json) && StreamSystem.Legal(es) && Serves(es, json, c, conn)
    requires InSync(c, LogAt(es, conn.until, sid), sid, base)
    requires sid <= MAX_INT64 && |LogAt(es, conn.until, sid)| <= MAX_INT64
    ensures InSync(Receive(json, c, conn.items, conn.cut), LogAt(es, conn.until, sid), sid, base)
  {
    var n := conn.until;
    StreamSystem.LegalPrefix(es, n);
    StreamSystem.HubProjection(es[..n]);
    Mailbox.ReadersWriteTheLog(StreamSystem.HubTrace(es[..n]), conn.r);
    LogIsNumbered(es, n, sid);
    ConnectionKeepsStep(json, c, conn.items, conn.cut, LogAt(es, n, sid), sid, base,
                        StreamSystem.After(es[..n]).hub.readers[conn.r].next);
  }

  lemma {:induction false} ConnectionsKeepSync(es: seq<StreamSystem.Event>, json: Codec,
                                               clients: seq<Client>, conns: seq<Connection>,
                                               sid: StreamId, base: nat, n: nat)
    requires RoundTrips(json) && StreamSystem.Legal(es) && Follows(es, json, clients, conns) && 0 < n <= |conns|
    requires clients[0].received == [] && ResumePoint(clients[0].lastEventId) == (sid, base)
    requires |LogAt(es, |es|, sid)| <= MAX_INT64
    ensures InSync(clients[n], LogAt(es, conns[n - 1].until, sid), sid, base)
  {
    var c, conn := clients[n - 1], conns[n - 1];
    assert Serves(es, json, c, conn) && clients[n] == Receive(json, c, conn.items, conn.cut);
    if n == 1 {
      StartsInSync(c, LogAt(es, conn.until, sid), sid, base);
    } else {
      ConnectionsKeepSync(es, json, clients, conns, sid, base, n - 1);
      assert Serves(es, json, clients[n - 2], conns[n - 2]);
      LogsGrowInRuns(es, conns[n - 2].until, conn.until, sid);
      SyncGrows(c, LogAt(es, conns[n - 2].until, sid), LogAt(es, conn.until, sid), sid, base);
    }
    LogsGrowInRuns(es, conn.until, |es|, sid);
    ResumePointFits(clients[0].lastEventId);
    ConnectionKeepsSync(es, json, c, conn, sid, base);
  }

  /**
   Exactly-once delivery in the whole system: in every run of a session, with any
   traffic and any other readers, a client that reconnects any number of times,
   each time with the last event id it received and each time cut off at any byte,
   has received exactly the messages of one stream from its starting point on,
   each once and in order.
   */
  lemma SessionDelivery(es: seq<StreamSystem.Event>, json: Codec,
                        clients: seq<Client>, conns: seq<Connection>)
    requires RoundTrips(json) && StreamSystem.Legal(es) && Follows(es, json, clients, conns) && conns != []
    requires clients[0].received == []
    requires |LogAt(es, |es|, ResumePoint(clients[0].lastEventId).0)| <= MAX_INT64
    ensures var (sid, base) := ResumePoint(clients[0].lastEventId);
            Stretch(Last(clients).received, Log(StreamSystem.After(es).hub.logs, sid), base)
  {
    var (sid, base) := ResumePoint(clients[0].lastEventId);
    ConnectionsKeepSync(es, json, clients, conns, sid, base, |conns|);
    var until := Last(conns).until;
    assert Serves(es, json, clients[|conns| - 1], Last(conns));
    LogsGrowInRuns(es, until, |es|, sid);
    SyncGrows(Last(clients), LogAt(es, until, sid), LogAt(es, |es|, sid), sid, base);
    assert es[..|es|] == es;
  }

  /**
   Where delivery starts: a client whose first `Last-Event-ID` is missing, or names
   no position, receives stream 0 from its first entry on.
   */
  lemma FreshClientDelivery(es: seq<StreamSystem.Event>, json: Codec, clients: seq<Client>, conns: seq<Connection>)
    requires RoundTrips(json) && StreamSystem.Legal(es) && Follows(es, json, clients, conns) && conns != []
    requires clients[0].received == [] && |LogAt(es, |es|, 0)| <= MAX_INT64
    requires clients[0].lastEventId == "" || NamesNothing(clients[0].lastEventId)
    ensures Stretch(Last(clients).received, Log(StreamSystem.After(es).hub.logs, 0), 0)
  {
    ResumesAtStart(clients[0].lastEventId);
    SessionDelivery(es, json, clients, conns);
  }

  /** A client that names entry `idx` of stream `sid` receives that stream from the next entry on. */
  lemma ResumedClientDelivery(es: seq<StreamSystem.Event>, json: Codec, clients: seq<Client>, conns: seq<Connection>,
                              sid: StreamId, idx: nat)
    requires RoundTrips(json) && StreamSystem.Legal(es) && Follows(es, json, clients, conns) && conns != []
    requires clients[0].received == [] && |LogAt(es, |es|, sid)| <= MAX_INT64
    requires Names(clients[0].lastEventId, sid, idx)
    ensures Stretch(Last(clients).received, Log(StreamSystem.After(es).hub.logs, sid), idx + 1)
  {
    ResumesBehind(clients[0].lastEventId, sid, idx);
    SessionDelivery(es, json, clients, conns);
  }

  /** The last connection arrived whole, no line too long, from a reader at the end of its log. */
  ghost predicate Complete(es: seq<StreamSystem.Event>, conn: Connection)
    requires conn.until <= |es|
  {
    && AllFit(conn.items) && conn.cut == |Print(conn.items)|
    && conn.r in StreamSystem.After(es[..conn.until]).hub.readers
    && var rd := StreamSystem.After(es[..conn.until]).hub.readers[conn.r];
       rd.next >= |LogAt(es, conn.until, rd.sid)|
  }

  /**
   And how far it goes: after a connection that arrived whole from a reader that
   had caught up, the client holds everything on the stream from its starting point.
   */
  lemma CompleteDelivery(es: seq<StreamSystem.Event>, json: Codec, clients: seq<Client>, conns: seq<Connection>)
    requires RoundTrips(json) && StreamSystem.Legal(es) && Follows(es, json, clients, conns) && conns != []
    requires clients[0].received == [] && Last(conns).until <= |es| && Complete(es, Last(conns))
    requires |LogAt(es, |es|, ResumePoint(clients[0].lastEventId).0)| <= MAX_INT64
    ensures var (sid, base) := ResumePoint(clients[0].lastEventId);
            var log := LogAt(es, Last(conns).until, sid);
            base <= |log| ==> Last(clients).received == MessagesOf(log[base..])
  {
    var (sid, base) := ResumePoint(clients[0].lastEventId);
    var n := |conns|;
    var c, conn := clients[n - 1], conns[n - 1];
    assert Serves(es, json, c, conn) && clients[n] == Receive(json, c, conn.items, conn.cut);
    SyncBefore(es, json, clients, conns, sid, base, n);
    ConnectionsKeepSync(es, json, clients, conns, sid, base, n);
    LogsGrowInRuns(es, conn.until, |es|, sid);
    ResumePointFits(clients[0].lastEventId);
    if base <= |LogAt(es, conn.until, sid)| {
      WholeConnectionServed(es, json, c, conn, sid, base);
      StretchOfAll(Last(clients).received, LogAt(es, conn.until, sid), base);
    }
  }

  lemma StretchOfAll(received: seq<Message>, log: seq<Entry>, base: nat)
    requires base <= |log| && Stretch(received, log, base) && base + |received| == |log|
    ensures received == MessagesOf(log[base..])
  {
  }

  lemma CaughtUpReader(rd: Mailbox.Reader, log: seq<Entry>, start: nat)
    requires Mailbox.Faithful(rd, log) && rd.start == start <= |log| <= rd.next
    ensures rd.next == |log| && rd.out == Mailbox.Written(log, start, rd.next)
  {
  }

  lemma WholeConnectionServed(es: seq<StreamSystem.Event>, json: Codec, c: Client, conn: Connection,
                              sid: StreamId, base: nat)
    requires RoundTrips(json) && StreamSystem.Legal(es) && Serves(es, json, c, conn) && Complete(es, conn)
    requires InSync(c, LogAt(es, conn.until, sid), sid, base) && base <= |LogAt(es, conn.until, sid)|
    requires sid <= MAX_INT64 && |LogAt(es, conn.until, sid)| <= MAX_INT64
    ensures base + |Receive(json, c, conn.items, conn.cut).received| == |LogAt(es, conn.until, sid)|
  {
    var n := conn.until;
    StreamSystem.LegalPrefix(es, n);
    StreamSystem.HubProjection(es[..n]);
    Mailbox.RunFaithful(StreamSystem.HubTrace(es[..n]));
    LogIsNumbered(es, n, sid);
    var rd := StreamSystem.After(es[..n]).hub.readers[conn.r];
    CaughtUpReader(rd, LogAt(es, n, sid), base + |c.received|);
    WholeConnection(json, c, conn.items, LogAt(es, n, sid), sid, base + |c.received|, rd.next);
  }

  /** Before its last connection, too, the client is in step with the log of that connection. */
  lemma SyncBefore(es: seq<StreamSystem.Event>, json: Codec, clients: seq<Client>, conns: seq<Connection>,
                   sid: StreamId, base: nat, n: nat)
    requires RoundTrips(json) && StreamSystem.Legal(es) && Follows(es, json, clients, conns) && 0 < n <= |conns|
    requires clients[0].received == [] && ResumePoint(clients[0].lastEventId) == (sid, base)
    requires |LogAt(es, |es|, sid)| <= MAX_INT64 && conns[n - 1].until <= |es|
    ensures InSync(clients[n - 1], LogAt(es, conns[n - 1].until, sid), sid, base)
  {
    if n == 1 {
      StartsInSync(clients[0], LogAt(es, conns[0].until, sid), sid, base);
    } else {
      ConnectionsKeepSync(es, json, clients, conns, sid, base, n - 1);
      assert Serves(es, json, clients[n - 2], conns[n - 2]);
      LogsGrowInRuns(es, conns[n - 2].until, conns[n - 1].until, sid);
      SyncGrows(clients[n - 1], LogAt(es, conns[n - 2].until, sid), LogAt(es, conns[n - 1].until, sid), sid, base);
    }
  }
}
