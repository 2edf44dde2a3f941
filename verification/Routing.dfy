/**
 Correlation of messages with streams in `StreamableServerTransport`: which
 stream an outgoing message is stored on, and what each lock region does to the
 two correlation maps and the current stream.

 A run is a sequence of events, one per lock region of `handleMessage`,
 `receive`, `Write` and `Close`. The two assumptions about the outside world,
 `NoReuse` and `AnsweredOnce`, are predicates of the event history alone.
 */
module Routing {
  import opened Common
  import opened EventId
  import opened Messages

  /**
   The correlation state. `posts` records, for each POST that carried a request,
   the stream number it drew and the id of its request: the locals `sid` and
   `msg.ID` of that `handleMessage` call.
   */
  datatype Transport = Transport(
    nextStream: nat,
    isDone: bool,
    posts: map<StreamId, Id>,
    client: map<Id, StreamId>,
    server: map<Id, StreamId>,
    last: StreamId,
    logs: Logs)

  const INITIAL := Transport(0, false, map[], map[], map[], 0, map[])

  datatype Event =
    | Allocate
    | ReceiveRequest(id: Id, sid: StreamId)
    | ReceiveResponse(id: Id)
    | Write(message: Message)
    | Close

  /** `getStreamID`: the stream an outgoing message goes to. */
  function StreamFor(t: Transport, m: Message): StreamId {
    if m.IsNotification() then t.last
    else if m.IsRequest() then
      if m.id.value in t.server then t.server[m.id.value] else t.last
    else if m.id.Some? && m.id.value in t.client then t.client[m.id.value]
    else 1
  }

  /** `getStreamID`: the pins after routing `m`. */
  function PinsAfter(t: Transport, m: Message): map<Id, StreamId> {
    if m.IsRequest() && m.id.value !in t.server then t.server[m.id.value := t.last] else t.server
  }

  /** `releaseClientRequest`. */
  function Release(t: Transport, id: Id): Transport {
    if id !in t.client then t
    else
      var sid := t.client[id];
      t.(client := t.client - {id},
         server := map k | k in t.server && t.server[k] != sid :: t.server[k],
         last := if t.last == sid then 0 else t.last)
  }

  /** `Write` up to the release: route, then store. */
  function Store(t: Transport, m: Message): Transport {
    t.(server := PinsAfter(t, m), logs := Append(t.logs, StreamFor(t, m), m))
  }

  function WriteStep(t: Transport, m: Message): Transport {
    if t.isDone then t
    else if m.IsResponse() && m.id.Some? then Release(Store(t, m), m.id.value)
    else Store(t, m)
  }

  function ReceiveRequestStep(t: Transport, id: Id, sid: StreamId): Transport {
    t.(posts := t.posts[sid := id], client := t.client[id := sid], last := sid)
  }

  function ReceiveResponseStep(t: Transport, id: Id): Transport {
    t.(server := t.server - {id})
  }

  /** A POST hands `receive` a number it drew itself, and only once. */
  predicate Enabled(t: Transport, e: Event) {
    e.ReceiveRequest? ==> 1 <= e.sid <= t.nextStream && e.sid !in t.posts
  }

  function Next(t: Transport, e: Event): Transport {
    match e
    case Allocate => t.(nextStream := t.nextStream + 1)
    case ReceiveRequest(id, sid) => ReceiveRequestStep(t, id, sid)
    case ReceiveResponse(id) => ReceiveResponseStep(t, id)
    case Write(m) => WriteStep(t, m)
    case Close => t.(isDone := true)
  }

  function After(es: seq<Event>): Transport {
    if es == [] then INITIAL else Next(After(Front(es)), Last(es))
  }

  ghost predicate Legal(es: seq<Event>) {
    es == [] || (Legal(Front(es)) && Enabled(After(Front(es)), Last(es)))
  }

  // ---- The assumptions about clients and about the server above the transport ----

  /** Ids of requests received and not yet answered by a write the transport took. */
  ghost function Outstanding(es: seq<Event>): set<Id> {
    if es == [] then {}
    else
      var before := Outstanding(Front(es));
      match Last(es)
      case ReceiveRequest(id, _) => before + {id}
      case Write(m) =>
        if m.IsResponse() && m.id.Some? && Close !in Front(es) then before - {m.id.value} else before
      case _ => before
  }

  /** Clients do not reuse a request id that is still in flight. */
  ghost predicate NoReuse(es: seq<Event>) {
    es == [] ||
    (NoReuse(Front(es)) &&
     (Last(es).ReceiveRequest? ==> Last(es).id !in Outstanding(Front(es))))
  }

  /** Every response the server writes answers a request that is still in flight. */
  ghost predicate AnsweredOnce(es: seq<Event>) {
    es == [] ||
    (AnsweredOnce(Front(es)) &&
     (Last(es).Write? && Last(es).message.IsResponse() ==>
        Last(es).message.id.Some? && Last(es).message.id.value in Outstanding(Front(es))))
  }

  // ---- The correlation invariant ----

  /** `sid` is the stream of a request POST whose request has not been answered. */
  ghost predicate InFlight(t: Transport, sid: StreamId) {
    sid in t.posts && t.posts[sid] in t.client && t.client[t.posts[sid]] == sid
  }

  ghost predicate ZeroOrInFlight(t: Transport, sid: StreamId) {
    sid == 0 || InFlight(t, sid)
  }

  ghost predicate Bookkeeping(t: Transport) {
    && (forall id :: id in t.client ==> t.client[id] in t.posts && t.posts[t.client[id]] == id)
    && (forall sid :: sid in t.posts ==> 1 <= sid <= t.nextStream)
    && ZeroOrInFlight(t, t.last)
  }

  ghost predicate PinsLive(t: Transport) {
    forall k :: k in t.server ==> ZeroOrInFlight(t, t.server[k])
  }

  /** The promise, in terms of the maps the code keeps. */
  ghost predicate Correlated(t: Transport) {
    && (forall a, b :: a in t.client && b in t.client && t.client[a] == t.client[b] ==> a == b)
    && (t.last == 0 || t.last in t.client.Values)
    && (forall k :: k in t.server ==> t.server[k] == 0 || t.server[k] in t.client.Values)
  }

  lemma InFlightIsValue(t: Transport, sid: StreamId)
    requires Bookkeeping(t)
    ensures InFlight(t, sid) <==> sid in t.client.Values
  {
    if InFlight(t, sid) {
      assert t.posts[sid] in t.client;
    }
  }

  lemma InvariantIsCorrelation(t: Transport)
    requires Bookkeeping(t)
    ensures PinsLive(t) <==> Correlated(t)
  {
    forall sid ensures InFlight(t, sid) <==> sid in t.client.Values {
      InFlightIsValue(t, sid);
    }
  }

  lemma BookkeepingStep(t: Transport, e: Event)
    requires Bookkeeping(t) && Enabled(t, e)
    ensures Bookkeeping(Next(t, e))
  {
  }

  lemma PinsLiveStep(t: Transport, e: Event)
    requires Bookkeeping(t) && PinsLive(t) && Enabled(t, e)
    requires e.ReceiveRequest? ==> e.id !in t.client
    ensures PinsLive(Next(t, e))
  {
  }

  /**
   Receiving a request keeps the invariant exactly when its id is not in flight,
   or is in flight on a stream no server request is pinned to: overwriting the
   entry would leave such a pin pointing at a stream nobody owns.
   */
  lemma ReceiveKeepsCorrelationIff(t: Transport, id: Id, sid: StreamId)
    requires Bookkeeping(t) && Correlated(t) && Enabled(t, ReceiveRequest(id, sid))
    ensures Correlated(ReceiveRequestStep(t, id, sid)) <==>
            (id !in t.client || t.client[id] !in t.server.Values)
  {
    InvariantIsCorrelation(t);
    var t' := ReceiveRequestStep(t, id, sid);
    InvariantIsCorrelation(t');
    if id in t.client && t.client[id] in t.server.Values {
      var k :| k in t.server && t.server[k] == t.client[id];
      assert t'.server[k] == t.client[id] && !InFlight(t', t.client[id]);
    }
  }

  /** One step changes the ids in flight as the history says. */
  lemma ClientKeysStep(t: Transport, e: Event)
    ensures Next(t, e).client.Keys ==
            match e
            case ReceiveRequest(id, _) => t.client.Keys + {id}
            case Write(m) =>
              if m.IsResponse() && m.id.Some? && !t.isDone then t.client.Keys - {m.id.value} else t.client.Keys
            case _ => t.client.Keys
  {
  }

  lemma {:induction false} RunClientKeys(es: seq<Event>)
    ensures After(es).client.Keys == Outstanding(es)
    ensures After(es).isDone <==> Close in es
  {
    if es == [] {
    } else {
      RunClientKeys(Front(es));
      assert es == Front(es) + [Last(es)];
      ClientKeysStep(After(Front(es)), Last(es));
    }
  }

  /** What every run keeps when clients do not reuse ids in flight. */
  lemma {:induction false} RunBookkeeping(es: seq<Event>)
    requires Legal(es) && NoReuse(es)
    ensures Bookkeeping(After(es)) && PinsLive(After(es))
    ensures After(es).client.Keys == Outstanding(es)
  {
    RunClientKeys(es);
    if es == [] {
    } else {
      RunBookkeeping(Front(es));
      BookkeepingStep(After(Front(es)), Last(es));
      PinsLiveStep(After(Front(es)), Last(es));
    }
  }

  /**
   Correlation invariant of every reachable state: streams of requests in flight
   are pairwise distinct, the current stream is 0 or in flight, and every pin of
   a server request is 0 or in flight, so none dangles after a release.
   */
  lemma CorrelationInvariant(es: seq<Event>)
    requires Legal(es) && NoReuse(es)
    ensures Correlated(After(es))
  {
    RunBookkeeping(es);
    InvariantIsCorrelation(After(es));
  }

  // ---- Finality of request streams ----

  ghost predicate NoResponses(log: seq<Entry>) {
    forall k :: 0 <= k < |log| ==> !log[k].message.IsResponse()
  }

  ghost predicate Finished(log: seq<Entry>, q: Id) {
    log != [] && Last(log).message.Answers(q) && NoResponses(Front(log))
  }

  /**
   Streams without a response are those still in flight and stream 0; a stream
   no request POST owns is empty; an answered stream ends with its response.
   */
  ghost predicate FinalStreams(t: Transport) {
    && NoResponses(Log(t.logs, 0))
    && (forall sid :: sid in t.logs && sid != 0 && sid !in t.posts ==> t.logs[sid] == [])
    && (forall sid :: sid in t.posts ==>
          if InFlight(t, sid) then NoResponses(Log(t.logs, sid))
          else Finished(Log(t.logs, sid), t.posts[sid]))
  }

  ghost predicate Answering(t: Transport, m: Message) {
    m.IsResponse() ==> m.id.Some? && m.id.value in t.client
  }

  /** A message that is no response leaves every stream in the phase it was in. */
  lemma FinalStreamsStore(t: Transport, m: Message)
    requires Bookkeeping(t) && PinsLive(t) && FinalStreams(t)
    requires !m.IsResponse()
    ensures FinalStreams(Store(t, m))
  {
    var sid := StreamFor(t, m);
    var t' := Store(t, m);
    assert ZeroOrInFlight(t, sid);
    forall s | s in t'.posts
      ensures if InFlight(t', s) then NoResponses(Log(t'.logs, s)) else Finished(Log(t'.logs, s), t'.posts[s])
    {
      assert InFlight(t', s) <==> InFlight(t, s);
      assert s != sid ==> Log(t'.logs, s) == Log(t.logs, s);
    }
  }

  /** The answer to a request in flight ends its stream and leaves the others alone. */
  lemma FinalStreamsAnswer(t: Transport, m: Message)
    requires Bookkeeping(t) && PinsLive(t) && FinalStreams(t)
    requires m.IsResponse() && m.id.Some? && m.id.value in t.client
    ensures FinalStreams(Release(Store(t, m), m.id.value))
  {
    var sid := StreamFor(t, m);
    var t' := Release(Store(t, m), m.id.value);
    assert InFlight(t, sid) && t.posts[sid] == m.id.value;
    forall s | s in t'.posts
      ensures if InFlight(t', s) then NoResponses(Log(t'.logs, s)) else Finished(Log(t'.logs, s), t'.posts[s])
    {
      if s == sid {
        assert Front(Log(t'.logs, sid)) == Log(t.logs, sid);
      } else {
        assert InFlight(t', s) <==> InFlight(t, s);
        assert Log(t'.logs, s) == Log(t.logs, s);
      }
    }
  }

  lemma FinalStreamsWrite(t: Transport, m: Message)
    requires Bookkeeping(t) && PinsLive(t) && FinalStreams(t)
    requires Answering(t, m)
    ensures FinalStreams(WriteStep(t, m))
  {
    if m.IsResponse() {
      FinalStreamsAnswer(t, m);
    } else {
      FinalStreamsStore(t, m);
    }
  }

  /**
   A write keeps finality exactly when it is not a response, or answers a request
   in flight: a response with a null or unknown id falls back to stream 1, which
   then holds a foreign or a second response.
   */
  lemma WriteKeepsFinalityIff(t: Transport, m: Message)
    requires Bookkeeping(t) && PinsLive(t) && FinalStreams(t) && !t.isDone
    ensures FinalStreams(WriteStep(t, m)) <==> Answering(t, m)
  {
    if Answering(t, m) {
      FinalStreamsWrite(t, m);
    } else {
      var t' := WriteStep(t, m);
      var log := Log(t.logs, 1);
      assert t'.logs[1] == log + [NewEntry(t.logs, 1, m)];
      assert InFlight(t', 1) <==> InFlight(t, 1);
      assert !NoResponses(t'.logs[1]) by {
        assert t'.logs[1][|log|].message.IsResponse();
      }
      if 1 in t.posts && !InFlight(t, 1) {
        assert Front(t'.logs[1]) == log;
        assert log[|log| - 1].message.IsResponse();
      }
    }
  }

  lemma FinalStreamsStep(t: Transport, e: Event)
    requires Bookkeeping(t) && PinsLive(t) && FinalStreams(t) && Enabled(t, e)
    requires e.ReceiveRequest? ==> e.id !in t.client
    requires e.Write? ==> Answering(t, e.message)
    ensures FinalStreams(Next(t, e))
  {
    if e.Write? && !t.isDone {
      FinalStreamsWrite(t, e.message);
    } else {
      var t' := Next(t, e);
      assert forall s :: s in t.posts ==> (InFlight(t', s) <==> InFlight(t, s));
    }
  }

  lemma {:induction false} RunFinality(es: seq<Event>)
    requires Legal(es) && NoReuse(es) && AnsweredOnce(es)
    ensures FinalStreams(After(es))
  {
    if es == [] {
    } else {
      RunFinality(Front(es));
      RunBookkeeping(Front(es));
      FinalStreamsStep(After(Front(es)), Last(es));
    }
  }

  /** The POSTs of a run are the requests it received. */
  lemma {:induction false} RunPosts(es: seq<Event>, i: nat)
    requires Legal(es) && i < |es| && es[i].ReceiveRequest?
    ensures es[i].sid in After(es).posts && After(es).posts[es[i].sid] == es[i].id
  {
    if i == |es| - 1 {
    } else {
      RunPosts(Front(es), i);
    }
  }

  lemma OnlyResponse(log: seq<Entry>, q: Id, k: nat)
    requires NoResponses(log) || Finished(log, q)
    requires k < |log| && log[k].message.IsResponse()
    ensures k == |log| - 1 && log[k].message.Answers(q)
  {
  }

  /**
   In every run, a response on the stream of a request POST is the response to
   that request, it is the only one, and it is the last message of the stream.
   */
  lemma StreamFinality(es: seq<Event>, i: nat, k: nat)
    requires Legal(es) && NoReuse(es) && AnsweredOnce(es)
    requires i < |es| && es[i].ReceiveRequest?
    requires k < |Log(After(es).logs, es[i].sid)|
    requires Log(After(es).logs, es[i].sid)[k].message.IsResponse()
    ensures Log(After(es).logs, es[i].sid)[k].message.Answers(es[i].id)
    ensures k == |Log(After(es).logs, es[i].sid)| - 1
  {
    RunFinality(es);
    RunPosts(es, i);
    OnlyResponse(Log(After(es).logs, es[i].sid), es[i].id, k);
  }

  /** An answered stream is not touched by any later event. */
  lemma FinishedStreamStep(t: Transport, e: Event, sid: StreamId)
    requires Bookkeeping(t) && PinsLive(t) && Enabled(t, e)
    requires e.Write? ==> Answering(t, e.message)
    requires sid in t.posts && !InFlight(t, sid)
    ensures sid in Next(t, e).posts && Next(t, e).posts[sid] == t.posts[sid]
    ensures !InFlight(Next(t, e), sid)
    ensures Log(Next(t, e).logs, sid) == Log(t.logs, sid)
  {
    if e.Write? && !t.isDone {
      assert ZeroOrInFlight(t, StreamFor(t, e.message));
    }
  }

  lemma {:induction false} FinishedStreamRun(es: seq<Event>, n: nat, sid: StreamId)
    requires Legal(es) && NoReuse(es) && AnsweredOnce(es) && n <= |es|
    requires sid in After(es[..n]).posts && !InFlight(After(es[..n]), sid)
    ensures sid in After(es).posts && !InFlight(After(es), sid)
    ensures Log(After(es).logs, sid) == Log(After(es[..n]).logs, sid)
    decreases |es|
  {
    if n == |es| {
      assert es[..n] == es;
    } else {
      var front := Front(es);
      assert front[..n] == es[..n];
      FinishedStreamRun(front, n, sid);
      RunBookkeeping(front);
      FinishedStreamStep(After(front), Last(es), sid);
    }
  }

  lemma {:induction false} PrefixLegal(es: seq<Event>, n: nat)
    requires Legal(es) && NoReuse(es) && AnsweredOnce(es) && n <= |es|
    ensures Legal(es[..n]) && NoReuse(es[..n]) && AnsweredOnce(es[..n])
  {
    if n == |es| {
      assert es[..n] == es;
    } else {
      assert Front(es)[..n] == es[..n];
      PrefixLegal(Front(es), n);
    }
  }

  /** Once a response is on a request's stream, nothing is ever appended to it. */
  lemma NothingAfterResponse(es: seq<Event>, n: nat, i: nat, k: nat)
    requires Legal(es) && NoReuse(es) && AnsweredOnce(es) && n <= |es|
    requires i < n && es[i].ReceiveRequest?
    requires k < |Log(After(es[..n]).logs, es[i].sid)|
    requires Log(After(es[..n]).logs, es[i].sid)[k].message.IsResponse()
    ensures Log(After(es).logs, es[i].sid) == Log(After(es[..n]).logs, es[i].sid)
  {
    PrefixLegal(es, n);
    RunFinality(es[..n]);
    RunPosts(es[..n], i);
    FinishedStreamRun(es, n, es[i].sid);
  }

  /** From event `n` on, an answer to `q` was written while the transport was open. */
  ghost predicate AnsweredSince(es: seq<Event>, n: nat, q: Id) {
    exists j :: n <= j < |es| && es[j].Write? && es[j].message.Answers(q) && Close !in es[..j]
  }

  lemma AnsweredSinceLast(es: seq<Event>, n: nat, q: Id)
    requires n < |es|
    ensures AnsweredSince(es, n, q) <==>
            AnsweredSince(Front(es), n, q) ||
            (Last(es).Write? && Last(es).message.Answers(q) && Close !in Front(es))
  {
    assert forall j :: 0 <= j < |es| ==> Front(es)[..j] == es[..j];
    var last := |es| - 1;
    assert es[..last] == Front(es) && es[last] == Last(es);
    if AnsweredSince(es, n, q) {
      var j :| n <= j < |es| && es[j].Write? && es[j].message.Answers(q) && Close !in es[..j];
      assert j < last ==> Front(es)[j] == es[j];
    }
    if AnsweredSince(Front(es), n, q) {
      var j :| n <= j < |Front(es)| && Front(es)[j].Write? && Front(es)[j].message.Answers(q) &&
               Close !in Front(es)[..j];
      assert es[j] == Front(es)[j];
    }
  }

  /** While nobody answers request `i`, it stays in flight on its own stream. */
  lemma {:induction false} StaysInFlight(es: seq<Event>, i: nat)
    requires Legal(es) && NoReuse(es) && i < |es| && es[i].ReceiveRequest?
    requires !AnsweredSince(es, i + 1, es[i].id)
    ensures es[i].id in After(es).client && After(es).client[es[i].id] == es[i].sid
  {
    if i == |es| - 1 {
    } else {
      AnsweredSinceLast(es, i + 1, es[i].id);
      StaysInFlight(Front(es), i);
      RunBookkeeping(Front(es));
      RunClientKeys(Front(es));
    }
  }

  lemma AnswerIsStored(t: Transport, m: Message, q: Id, sid: StreamId)
    requires q in t.client && t.client[q] == sid && m.Answers(q) && !t.isDone
    ensures Log(WriteStep(t, m).logs, sid) == Log(t.logs, sid) + [NewEntry(t.logs, sid, m)]
  {
  }

  /** `es[j]` is the first write that answers request `i`, and the transport is open. */
  ghost predicate FirstAnswer(es: seq<Event>, i: nat, j: nat) {
    && i < j < |es| && es[i].ReceiveRequest?
    && es[j].Write? && es[j].message.Answers(es[i].id) && Close !in es[..j]
    && (forall k :: i < k < j && es[k].Write? ==> !es[k].message.Answers(es[i].id))
  }

  lemma FirstAnswerIsStored(es: seq<Event>, i: nat, j: nat)
    requires FirstAnswer(es, i, j) && Legal(es[..j]) && NoReuse(es[..j])
    ensures var t := After(es[..j]);
            Log(After(es[..j + 1]).logs, es[i].sid) ==
            Log(t.logs, es[i].sid) + [NewEntry(t.logs, es[i].sid, es[j].message)]
  {
    var front := es[..j];
    assert front[i] == es[i] && forall k :: i < k < j ==> front[k] == es[k];
    assert !AnsweredSince(front, i + 1, es[i].id);
    RunClientKeys(front);
    StaysInFlight(front, i);
    AnswerIsStored(After(front), es[j].message, es[i].id, es[i].sid);
    assert Front(es[..j + 1]) == front && Last(es[..j + 1]) == es[j];
  }

  /**
   The first response the server writes to a request is stored at the end of the
   stream its POST drew, and that stream is then complete for the rest of the run.
   */
  lemma ResponseEndsItsStream(es: seq<Event>, i: nat, j: nat)
    requires Legal(es) && NoReuse(es) && AnsweredOnce(es) && FirstAnswer(es, i, j)
    ensures Log(After(es).logs, es[i].sid) != []
    ensures Last(Log(After(es).logs, es[i].sid)).message == es[j].message
    ensures Front(Log(After(es).logs, es[i].sid)) == Log(After(es[..j]).logs, es[i].sid)
  {
    PrefixLegal(es, j);
    FirstAnswerIsStored(es, i, j);
    NothingAfterResponse(es, j + 1, i, |Log(After(es[..j]).logs, es[i].sid)|);
  }

  // ---- Messages the server starts ----

  lemma CurrentStep(t: Transport, e: Event, q: Id, sid: StreamId)
    requires Bookkeeping(t) && !e.ReceiveRequest? && sid != 0
    requires q in t.client && t.client[q] == sid && t.last == sid
    ensures Next(t, e).last == if e.Write? && e.message.Answers(q) && !t.isDone then 0 else sid
  {
    if e.Write? && e.message.IsResponse() && e.message.id.Some? && e.message.id.value in t.client {
      assert t.client[e.message.id.value] == sid ==> e.message.id.value == q;
    }
  }

  /**
   The current stream of every run is that of the request received last, until
   that request is answered; then it is the standalone stream 0.
   */
  lemma {:induction false} CurrentStream(es: seq<Event>, i: nat)
    requires Legal(es) && NoReuse(es) && i < |es| && es[i].ReceiveRequest?
    requires forall j :: i < j < |es| ==> !es[j].ReceiveRequest?
    ensures After(es).last == if AnsweredSince(es, i + 1, es[i].id) then 0 else es[i].sid
  {
    if i == |es| - 1 {
    } else {
      var front := Front(es);
      CurrentStream(front, i);
      AnsweredSinceLast(es, i + 1, es[i].id);
      RunBookkeeping(front);
      RunClientKeys(front);
      if !AnsweredSince(front, i + 1, es[i].id) {
        StaysInFlight(front, i);
        CurrentStep(After(front), Last(es), es[i].id, es[i].sid);
      }
    }
  }

  /** Before any request there is only the standalone stream. */
  lemma {:induction false} NoCurrentStream(es: seq<Event>)
    requires forall j :: 0 <= j < |es| ==> !es[j].ReceiveRequest?
    ensures After(es).last == 0
  {
    if es == [] {
    } else {
      NoCurrentStream(Front(es));
    }
  }

  /**
   A notification, or a server request under an id not yet pinned, is stored on
   the stream of the request received last while that is unanswered, otherwise
   on the standalone stream.
   */
  lemma ServerMessageFollowsRequest(es: seq<Event>, i: nat, m: Message)
    requires Legal(es) && NoReuse(es) && i < |es| && es[i].ReceiveRequest? && Close !in es
    requires forall j :: i < j < |es| ==> !es[j].ReceiveRequest?
    requires m.IsNotification() || (m.IsRequest() && m.id.value !in After(es).server)
    ensures var sid := if AnsweredSince(es, i + 1, es[i].id) then 0 else es[i].sid;
            var t := After(es);
            var entry := Entry(m, FormatEventId(sid, |Log(t.logs, sid)|));
            Next(t, Write(m)).logs == t.logs[sid := Log(t.logs, sid) + [entry]]
  {
    CurrentStream(es, i);
    RunClientKeys(es);
  }

  /**
   A pin is lost exactly when the client answers the server request, or the
   server answers the client request whose stream it is pinned to; until then it
   never moves.
   */
  lemma PinLostIff(t: Transport, e: Event, q: Id)
    requires Enabled(t, e) && q in t.server
    ensures q !in Next(t, e).server <==>
            || e == ReceiveResponse(q)
            || (e.Write? && !t.isDone &&
                exists id :: id in t.client && t.client[id] == t.server[q] && e.message.Answers(id))
    ensures q in Next(t, e).server ==> Next(t, e).server[q] == t.server[q]
  {
  }

  /** `es[i]` sent server request `q` for the first time since it was last unpinned. */
  ghost predicate PinnedAt(es: seq<Event>, i: nat, q: Id) {
    && i < |es| && es[i].Write? && es[i].message.IsRequest() && es[i].message.id == Some(q)
    && q !in After(es[..i]).server && !After(es[..i]).isDone
  }

  lemma PinStep(t: Transport, e: Event, q: Id)
    requires q in Next(t, e).server
    ensures if q in t.server then Next(t, e).server[q] == t.server[q]
            else
              && e.Write? && !t.isDone && e.message.IsRequest() && e.message.id == Some(q)
              && Next(t, e).server[q] == t.last
  {
  }

  /** A pin is the stream that was current when the request was first sent. */
  lemma {:induction false} PinnedSince(es: seq<Event>, q: Id) returns (i: nat)
    requires q in After(es).server
    ensures PinnedAt(es, i, q) && After(es).server[q] == After(es[..i]).last
    ensures forall k :: i < k <= |es| ==> q in After(es[..k]).server
    decreases |es|
  {
    var front := Front(es);
    PinStep(After(front), Last(es), q);
    if q in After(front).server {
      i := PinnedSince(front, q);
      assert forall k :: 0 <= k < |es| ==> front[..k] == es[..k];
      assert es[..|es|] == es && front[i] == es[i];
    } else {
      i := |es| - 1;
      assert es[..i] == front && es[..|es|] == es;
    }
  }

  /**
   A server request sent again under a pinned id goes to the stream it was first
   sent on, whatever request is current by now, and no other log changes.
   */
  lemma SentAgainSameStream(es: seq<Event>, q: Id, m: Message) returns (i: nat)
    requires q in After(es).server && m.IsRequest() && m.id == Some(q) && Close !in es
    ensures PinnedAt(es, i, q)
    ensures Next(After(es), Write(m)).logs == Append(After(es).logs, After(es[..i]).last, m)
  {
    RunClientKeys(es);
    i := PinnedSince(es, q);
  }

  // ---- Stream numbers ----

  function Allocations(es: seq<Event>): nat {
    if es == [] then 0 else Allocations(Front(es)) + if Last(es).Allocate? then 1 else 0
  }

  /** POSTs draw the stream numbers 1, 2, 3 and so on, each once. */
  lemma {:induction false} NumbersInOrder(es: seq<Event>)
    ensures After(es).nextStream == Allocations(es)
  {
    if es == [] {
    } else {
      NumbersInOrder(Front(es));
    }
  }

  // ---- Event ids ----

  lemma AppendNumbered(logs: Logs, sid: StreamId, m: Message)
    requires Numbered(logs)
    ensures Numbered(Append(logs, sid, m))
  {
    forall s, i | s in Append(logs, sid, m) && 0 <= i < |Append(logs, sid, m)[s]|
      ensures Append(logs, sid, m)[s][i].eventId == FormatEventId(s, i)
    {
      assert s != sid || i < |Log(logs, sid)| ==> s in logs && Append(logs, sid, m)[s][i] == logs[s][i];
    }
  }

  lemma {:induction false} RunNumbered(es: seq<Event>)
    ensures Numbered(After(es).logs)
  {
    if es == [] {
    } else {
      var t := After(Front(es));
      RunNumbered(Front(es));
      if Last(es).Write? {
        AppendNumbered(t.logs, StreamFor(t, Last(es).message), Last(es).message);
      }
    }
  }

  /** Logs only grow, whatever clients and server do. */
  lemma LogsGrow(t: Transport, e: Event, sid: StreamId)
    ensures Log(t.logs, sid) <= Log(Next(t, e).logs, sid)
  {
  }

  // ---- Why the assumptions are needed ----

  /** Without `AnsweredOnce`: a second answer lands after the final response of stream 1. */
  lemma SecondAnswerFollowsFinalResponse(q: Id, m: Message)
    requires m.Answers(q)
    ensures var es := [Allocate, ReceiveRequest(q, 1), Write(m), Write(m)];
            Legal(es) && NoReuse(es) && !AnsweredOnce(es) &&
            |Log(After(es).logs, 1)| == 2 &&
            Log(After(es).logs, 1)[0].message == m && Log(After(es).logs, 1)[1].message == m
  {
    var e1 := [Allocate];
    var e2 := [Allocate, ReceiveRequest(q, 1)];
    var e3 := [Allocate, ReceiveRequest(q, 1), Write(m)];
    var es := [Allocate, ReceiveRequest(q, 1), Write(m), Write(m)];
    assert Front(e1) == [] && Front(e2) == e1 && Front(e3) == e2 && Front(es) == e3;
    assert After(e1) == INITIAL.(nextStream := 1);
    assert Legal(e1) && Legal(e2) && Legal(e3);
    assert After(e2).client == map[q := 1];
    assert After(e3).client == map[];
    assert Outstanding(e1) == {} && Outstanding(e2) == {q} && Outstanding(e3) == {};
    assert NoReuse(e1) && NoReuse(e2) && NoReuse(e3);
    assert After(e3).logs[1] == [NewEntry(map[], 1, m)];
  }

  /**
   Without `NoReuse`: the first POST of a reused id never sees a response, since
   the answer is stored on the stream of the second.
   */
  lemma ReusedIdLosesResponse(q: Id, m: Message)
    requires m.Answers(q)
    ensures var es := [Allocate, Allocate, ReceiveRequest(q, 1), ReceiveRequest(q, 2), Write(m)];
            Legal(es) && !NoReuse(es) &&
            Log(After(es).logs, 1) == [] &&
            |Log(After(es).logs, 2)| == 1 && Log(After(es).logs, 2)[0].message == m
  {
    var e2 := [Allocate, Allocate];
    var e3 := [Allocate, Allocate, ReceiveRequest(q, 1)];
    var e4 := [Allocate, Allocate, ReceiveRequest(q, 1), ReceiveRequest(q, 2)];
    var es := [Allocate, Allocate, ReceiveRequest(q, 1), ReceiveRequest(q, 2), Write(m)];
    assert Front([Allocate]) == [] && Front(e2) == [Allocate] && Front(e3) == e2;
    assert Front(e4) == e3 && Front(es) == e4;
    assert After(e2) == INITIAL.(nextStream := 2);
    assert Legal([Allocate]) && Legal(e2) && Legal(e3) && Legal(e4);
    assert After(e3).client == map[q := 1];
    assert After(e4).client == map[q := 2];
    assert q in Outstanding(e3);
  }
}
