/**
 The streamable session as a whole: correlation (`Routing`) and readers
 (`Mailbox`) over the same logs, run in lockstep. Every run of the whole
 projects to a run of each part, so what the parts promise holds together.
 */
module StreamSystem {
  import opened Common
  import opened Messages
  import Routing
  import Mailbox
  import ReaderProgress

  datatype System = System(t: Routing.Transport, hub: Mailbox.Hub)

  const INITIAL := System(Routing.INITIAL, Mailbox.EMPTY)

  datatype Event = Transport(te: Routing.Event) | Reader(re: Mailbox.Event)

  /** What a transport event means to the readers. */
  function HubEvent(t: Routing.Transport, e: Event): Option<Mailbox.Event> {
    match e
    case Reader(re) => Some(re)
    case Transport(te) =>
      if te.Write? && !t.isDone then Some(Mailbox.Append(Routing.StreamFor(t, te.message), te.message))
      else if te.Close? then Some(Mailbox.Close)
      else None
  }

  /** The reader of a POST starts after its request was received, for that request. */
  predicate Enabled(s: System, e: Event) {
    match e
    case Transport(te) => Routing.Enabled(s.t, te)
    case Reader(re) =>
      && Mailbox.Enabled(s.hub, re) && !re.Append? && !re.Close?
      && (re.OpenPost? ==> re.sid in s.t.posts && s.t.posts[re.sid] == re.q)
  }

  function Next(s: System, e: Event): System {
    var he := HubEvent(s.t, e);
    System(
      if e.Transport? then Routing.Next(s.t, e.te) else s.t,
      if he.Some? && Mailbox.Enabled(s.hub, he.value) then Mailbox.Next(s.hub, he.value) else s.hub)
  }

  function After(es: seq<Event>): System {
    if es == [] then INITIAL else Next(After(Front(es)), Last(es))
  }

  ghost predicate Legal(es: seq<Event>) {
    es == [] || (Legal(Front(es)) && Enabled(After(Front(es)), Last(es)))
  }

  /** The transport's share of a run. */
  ghost function TransportTrace(es: seq<Event>): seq<Routing.Event> {
    if es == [] then []
    else TransportTrace(Front(es)) + (if Last(es).Transport? then [Last(es).te] else [])
  }

  /** The readers' share of a run. */
  ghost function HubTrace(es: seq<Event>): seq<Mailbox.Event> {
    if es == [] then []
    else
      var he := HubEvent(After(Front(es)).t, Last(es));
      HubTrace(Front(es)) + (if he.Some? then [he.value] else [])
  }

  ghost predicate InStep(s: System) {
    s.hub.logs == s.t.logs && s.hub.isDone == s.t.isDone
  }

  lemma InStepTransport(s: System, te: Routing.Event)
    requires InStep(s) && Routing.Enabled(s.t, te)
    ensures InStep(Next(s, Transport(te)))
  {
  }

  lemma InStepReader(s: System, re: Mailbox.Event)
    requires InStep(s) && Mailbox.Enabled(s.hub, re) && !re.Append? && !re.Close?
    ensures InStep(Next(s, Reader(re)))
  {
    Mailbox.StepMovesOneReader(s.hub, re);
  }

  lemma InStepKept(s: System, e: Event)
    requires InStep(s) && Enabled(s, e)
    ensures InStep(Next(s, e))
    ensures HubEvent(s.t, e).Some? ==> Mailbox.Enabled(s.hub, HubEvent(s.t, e).value)
  {
    match e
    case Transport(te) => InStepTransport(s, te);
    case Reader(re) => InStepReader(s, re);
  }

  lemma {:induction false} RunInStep(es: seq<Event>)
    requires Legal(es)
    ensures InStep(After(es))
  {
    if es == [] {
    } else {
      RunInStep(Front(es));
      InStepKept(After(Front(es)), Last(es));
    }
  }

  lemma {:induction false} TransportProjection(es: seq<Event>)
    requires Legal(es)
    ensures Routing.Legal(TransportTrace(es)) && After(es).t == Routing.After(TransportTrace(es))
  {
    if es == [] {
    } else {
      TransportProjection(Front(es));
      if Last(es).Transport? {
        assert Front(TransportTrace(es)) == TransportTrace(Front(es));
      } else {
        assert TransportTrace(es) == TransportTrace(Front(es));
      }
    }
  }

  lemma {:induction false} HubProjection(es: seq<Event>)
    requires Legal(es)
    ensures Mailbox.Legal(HubTrace(es)) && After(es).hub == Mailbox.After(HubTrace(es))
  {
    if es == [] {
    } else {
      HubProjection(Front(es));
      RunInStep(Front(es));
      InStepKept(After(Front(es)), Last(es));
      var he := HubEvent(After(Front(es)).t, Last(es));
      if he.Some? {
        Mailbox.Extend(HubTrace(Front(es)), he.value);
      } else {
        assert HubTrace(es) == HubTrace(Front(es));
      }
    }
  }

  ghost predicate OwnPosts(s: System) {
    forall r :: r in s.hub.readers && s.hub.readers[r].kind.Post? ==>
      s.hub.readers[r].sid in s.t.posts && s.t.posts[s.hub.readers[r].sid] == s.hub.readers[r].kind.q
  }

  lemma OwnPostsTransport(s: System, te: Routing.Event)
    requires OwnPosts(s) && Routing.Enabled(s.t, te)
    ensures OwnPosts(Next(s, Transport(te)))
  {
    var s' := Next(s, Transport(te));
    assert s'.hub.readers == s.hub.readers;
    assert forall sid :: sid in s.t.posts ==> sid in s'.t.posts && s'.t.posts[sid] == s.t.posts[sid];
  }

  lemma OwnPostsReader(s: System, re: Mailbox.Event)
    requires OwnPosts(s) && Enabled(s, Reader(re))
    ensures OwnPosts(Next(s, Reader(re)))
  {
    var s' := Next(s, Reader(re));
    Mailbox.StepMovesOneReader(s.hub, re);
    forall r | r in s'.hub.readers && s'.hub.readers[r].kind.Post?
      ensures s'.hub.readers[r].sid in s.t.posts && s.t.posts[s'.hub.readers[r].sid] == s'.hub.readers[r].kind.q
    {
      if r in s.hub.readers {
        Mailbox.ReaderKeepsOpening(s.hub, re, r);
      }
    }
  }

  lemma OwnPostsStep(s: System, e: Event)
    requires OwnPosts(s) && Enabled(s, e)
    ensures OwnPosts(Next(s, e))
  {
    match e
    case Transport(te) => OwnPostsTransport(s, te);
    case Reader(re) => OwnPostsReader(s, re);
  }

  lemma {:induction false} RunOwnPosts(es: seq<Event>)
    requires Legal(es)
    ensures OwnPosts(After(es))
  {
    if es == [] {
    } else {
      RunOwnPosts(Front(es));
      OwnPostsStep(After(Front(es)), Last(es));
    }
  }

  lemma {:induction false} TransportTracePrefix(es: seq<Event>, n: nat)
    requires n <= |es|
    ensures |TransportTrace(es[..n])| <= |TransportTrace(es)|
    ensures TransportTrace(es[..n]) == TransportTrace(es)[..|TransportTrace(es[..n])|]
  {
    if n == |es| {
      assert es[..n] == es;
    } else {
      assert Front(es)[..n] == es[..n];
      TransportTracePrefix(Front(es), n);
    }
  }

  lemma {:induction false} LegalPrefix(es: seq<Event>, n: nat)
    requires Legal(es) && n <= |es|
    ensures Legal(es[..n])
  {
    if n == |es| {
      assert es[..n] == es;
    } else {
      assert Front(es)[..n] == es[..n];
      LegalPrefix(Front(es), n);
    }
  }

  /** A faithful POST reader that wrote its response has stopped and wrote all of its log. */
  lemma StoppedAtResponse(reader: Mailbox.Reader, log: seq<Entry>)
    requires Mailbox.Faithful(reader, log) && reader.kind.Post?
    requires Routing.NoResponses(log) || Routing.Finished(log, reader.kind.q)
    requires reader.out != [] && Last(reader.out).message.Answers(reader.kind.q)
    ensures reader.pc.Stopped? && reader.out == log && Routing.Finished(log, reader.kind.q)
  {
    assert reader.out == log[..reader.next];
    assert reader.out[|reader.out| - 1] == log[reader.next - 1];
    Routing.OnlyResponse(log, reader.kind.q, reader.next - 1);
  }

  /** The state in which a POST loop has written its response. */
  lemma PostLoopStopped(es: seq<Event>, r: Mailbox.ReaderId)
    requires Legal(es)
    requires Routing.NoReuse(TransportTrace(es)) && Routing.AnsweredOnce(TransportTrace(es))
    requires r in After(es).hub.readers
    requires var reader := After(es).hub.readers[r];
             reader.kind.Post? && reader.out != [] && Last(reader.out).message.Answers(reader.kind.q)
    ensures var reader := After(es).hub.readers[r];
            && reader.pc.Stopped? && Log(After(es).hub.logs, reader.sid) == reader.out
            && reader.sid in After(es).t.posts && !Routing.InFlight(After(es).t, reader.sid)
  {
    RunInStep(es);
    RunOwnPosts(es);
    HubProjection(es);
    TransportProjection(es);
    Mailbox.RunFaithful(HubTrace(es));
    Routing.RunFinality(TransportTrace(es));
    var reader := After(es).hub.readers[r];
    StoppedAtResponse(reader, Log(After(es).t.logs, reader.sid));
  }

  /**
   A POST loop stops at the response to its own request, and by then it has
   written the whole stream: whatever happens in the rest of the run, the stream
   holds exactly the entries the loop wrote, in order. Ids of server requests
   that coincide with the client's id do not matter.
   */
  lemma PostLoopWritesWholeStream(es: seq<Event>, n: nat, r: Mailbox.ReaderId)
    requires Legal(es) && n <= |es|
    requires Routing.NoReuse(TransportTrace(es)) && Routing.AnsweredOnce(TransportTrace(es))
    requires r in After(es[..n]).hub.readers
    requires var reader := After(es[..n]).hub.readers[r];
             reader.kind.Post? && reader.out != [] && Last(reader.out).message.Answers(reader.kind.q)
    ensures var reader := After(es[..n]).hub.readers[r];
            reader.pc.Stopped? && Log(After(es).hub.logs, reader.sid) == reader.out
  {
    var before := |TransportTrace(es[..n])|;
    LegalPrefix(es, n);
    TransportProjection(es);
    TransportProjection(es[..n]);
    TransportTracePrefix(es, n);
    Routing.PrefixLegal(TransportTrace(es), before);
    PostLoopStopped(es[..n], r);
    Routing.FinishedStreamRun(TransportTrace(es), before, After(es[..n]).hub.readers[r].sid);
    RunInStep(es);
    RunInStep(es[..n]);
  }

  /** No lost wake-up, for the whole session. */
  lemma BlockedReaderIsWoken(es: seq<Event>, r: Mailbox.ReaderId)
    requires Legal(es) && Mailbox.SingleReader(HubTrace(es))
    requires r in After(es).hub.readers && After(es).hub.readers[r].pc.Waiting?
    requires After(es).hub.readers[r].next < |Log(After(es).t.logs, After(es).hub.readers[r].sid)|
    ensures Enabled(After(es), Reader(Mailbox.Take(r)))
  {
    RunInStep(es);
    HubProjection(es);
    Mailbox.NoLostWakeUpInRuns(HubTrace(es), r);
  }

  // ---- The POST loop ends with its response, and gets there ----

  /** In every run of the session a POST loop ends if and only if it wrote its response or gave up. */
  lemma PostLoopEndsIff(es: seq<Event>, r: Mailbox.ReaderId)
    requires Legal(es) && r in After(es).hub.readers && After(es).hub.readers[r].kind.Post?
    ensures var reader := After(es).hub.readers[r];
            var over := ReaderProgress.WroteAnswer(reader) || ReaderProgress.GaveUp(HubTrace(es), r);
            (ReaderProgress.Ending(reader) <==> over) && (reader.pc.Stopped? <==> over && !reader.pc.Leaving?)
  {
    HubProjection(es);
    ReaderProgress.PostEndsIff(HubTrace(es), r);
  }

  function Lift(more: seq<Mailbox.Event>): seq<Event> {
    seq(|more|, i requires 0 <= i < |more| => Reader(more[i]))
  }

  lemma LiftHead(es: seq<Event>, e: Mailbox.Event, rest: seq<Mailbox.Event>)
    ensures es + Lift([e] + rest) == es + [Reader(e)] + Lift(rest)
  {
  }

  lemma OwnStepLift(es: seq<Event>, e: Mailbox.Event, r: Mailbox.ReaderId)
    requires Legal(es) && Mailbox.Enabled(After(es).hub, e) && ReaderProgress.OwnStep(e, r)
    ensures Legal(es + [Reader(e)]) && HubTrace(es + [Reader(e)]) == HubTrace(es) + [e]
    ensures After(es + [Reader(e)]).t == After(es).t
  {
    assert Front(es + [Reader(e)]) == es && Last(es + [Reader(e)]) == Reader(e);
  }

  /** A reader's own steps are steps of the session. */
  lemma {:induction false} OwnStepsLift(es: seq<Event>, more: seq<Mailbox.Event>, r: Mailbox.ReaderId)
    requires Legal(es) && Mailbox.Legal(HubTrace(es) + more) && ReaderProgress.OwnSteps(more, r)
    ensures Legal(es + Lift(more)) && HubTrace(es + Lift(more)) == HubTrace(es) + more
    decreases |more|
  {
    var trace := HubTrace(es);
    if more == [] {
      assert es + Lift(more) == es && trace + more == trace;
    } else {
      var e, rest := more[0], more[1..];
      assert more == [e] + rest;
      Mailbox.FirstOfMore(trace, e, rest);
      HubProjection(es);
      OwnStepLift(es, e, r);
      OwnStepsLift(es + [Reader(e)], rest, r);
      LiftHead(es, e, rest);
    }
  }

  /** A finished stream holds the response at its end and nowhere else. */
  lemma AnswerAtEnd(log: seq<Entry>, q: Id)
    requires Routing.Finished(log, q)
    ensures log[|log| - 1].message.Answers(q) && forall j :: 0 <= j < |log| - 1 ==> !log[j].message.Answers(q)
  {
    assert forall j :: 0 <= j < |log| - 1 ==> Front(log)[j] == log[j];
  }

  /** A faithful reader that has neither ended nor written the answer at the end of its log can go on to it. */
  lemma ReadyAtAnswer(h: Mailbox.Hub, r: Mailbox.ReaderId)
    requires r in h.readers && h.readers[r].kind.Post? && !ReaderProgress.Ending(h.readers[r])
    requires Mailbox.AllFaithful(h) && Mailbox.NoLostWakeUp(h) && !ReaderProgress.WroteAnswer(h.readers[r])
    requires Routing.Finished(Log(h.logs, h.readers[r].sid), h.readers[r].kind.q)
    ensures ReaderProgress.Ready(h, r) && h.readers[r].next < |Log(h.logs, h.readers[r].sid)|
  {
    var log := Log(h.logs, h.readers[r].sid);
    assert Mailbox.Faithful(h.readers[r], log);
    assert log[0..|log|] == log;
  }

  /**
   Once its request has been answered, a POST loop that has not given up writes
   the whole stream, response last, and stops, by steps of its own from any point
   of any run.
   */
  lemma PostLoopFinishes(es: seq<Event>, r: Mailbox.ReaderId) returns (more: seq<Event>)
    requires Legal(es) && Mailbox.SingleReader(HubTrace(es))
    requires Routing.NoReuse(TransportTrace(es)) && Routing.AnsweredOnce(TransportTrace(es))
    requires r in After(es).hub.readers && After(es).hub.readers[r].kind.Post?
    requires !ReaderProgress.GaveUp(HubTrace(es), r) && !Routing.InFlight(After(es).t, After(es).hub.readers[r].sid)
    ensures Legal(es + more) && r in After(es + more).hub.readers
    ensures var reader := After(es + more).hub.readers[r];
            && reader.pc.Stopped? && ReaderProgress.WroteAnswer(reader)
            && reader.out == Log(After(es).hub.logs, After(es).hub.readers[r].sid)
  {
    var reader := After(es).hub.readers[r];
    if ReaderProgress.WroteAnswer(reader) {
      PostLoopStopped(es, r);
      more := [];
      assert es + more == es;
    } else {
      FinishedLog(es, r);
      more := FinishesLog(es, r, After(es).hub);
    }
  }

  lemma ReadyToFinish(es: seq<Event>, r: Mailbox.ReaderId, h: Mailbox.Hub)
    requires Legal(es) && Mailbox.SingleReader(HubTrace(es)) && h == After(es).hub
    requires r in h.readers && h.readers[r].kind.Post? && !ReaderProgress.WroteAnswer(h.readers[r])
    requires !ReaderProgress.GaveUp(HubTrace(es), r)
    requires Routing.Finished(Log(h.logs, h.readers[r].sid), h.readers[r].kind.q)
    ensures Mailbox.Legal(HubTrace(es)) && h == Mailbox.After(HubTrace(es))
    ensures ReaderProgress.Ready(h, r) && h.readers[r].next < |Log(h.logs, h.readers[r].sid)|
  {
    PostLoopEndsIff(es, r);
    HubProjection(es);
    Mailbox.RunFaithful(HubTrace(es));
    Mailbox.RunWakeInvariant(HubTrace(es));
    ReadyAtAnswer(h, r);
  }

  /** From there, to the end of its finished log. */
  lemma FinishesLog(es: seq<Event>, r: Mailbox.ReaderId, h: Mailbox.Hub) returns (more: seq<Event>)
    requires Legal(es) && Mailbox.SingleReader(HubTrace(es)) && h == After(es).hub
    requires r in h.readers && h.readers[r].kind.Post? && !ReaderProgress.WroteAnswer(h.readers[r])
    requires !ReaderProgress.GaveUp(HubTrace(es), r)
    requires Routing.Finished(Log(h.logs, h.readers[r].sid), h.readers[r].kind.q)
    ensures Legal(es + more) && r in After(es + more).hub.readers
    ensures var reader := After(es + more).hub.readers[r];
            reader.pc.Stopped? && reader.kind == h.readers[r].kind && reader.out == Log(h.logs, h.readers[r].sid)
  {
    var log := Log(h.logs, h.readers[r].sid);
    ReadyToFinish(es, r, h);
    AnswerAtEnd(log, h.readers[r].kind.q);
    var own := ReaderProgress.PostFinishes(HubTrace(es), r, |log| - 1);
    OwnStepsLift(es, own, r);
    more := Lift(own);
    HubProjection(es + more);
    assert log[..|log| - 1 + 1] == log;
  }

  lemma FinishedLog(es: seq<Event>, r: Mailbox.ReaderId)
    requires Legal(es) && Routing.NoReuse(TransportTrace(es)) && Routing.AnsweredOnce(TransportTrace(es))
    requires r in After(es).hub.readers && After(es).hub.readers[r].kind.Post?
    requires !Routing.InFlight(After(es).t, After(es).hub.readers[r].sid)
    ensures var reader := After(es).hub.readers[r];
            Routing.Finished(Log(After(es).hub.logs, reader.sid), reader.kind.q)
  {
    RunInStep(es);
    RunOwnPosts(es);
    TransportProjection(es);
    Routing.RunFinality(TransportTrace(es));
  }

  /** A GET that has not ended comes to the end of its log by steps of its own from any point of any run. */
  lemma GetLoopCatchesUp(es: seq<Event>, r: Mailbox.ReaderId) returns (more: seq<Event>)
    requires Legal(es) && Mailbox.SingleReader(HubTrace(es))
    requires r in After(es).hub.readers && After(es).hub.readers[r].kind.Get?
    requires !After(es).hub.readers[r].pc.Leaving? && !After(es).hub.readers[r].pc.Stopped?
    ensures Legal(es + more) && r in After(es + more).hub.readers
    ensures var reader := After(es + more).hub.readers[r];
            reader.pc.Waiting? && reader.next >= |Log(After(es).hub.logs, reader.sid)|
  {
    var trace := HubTrace(es);
    HubProjection(es);
    Mailbox.RunWakeInvariant(trace);
    var own := ReaderProgress.GetCatchesUp(trace, r);
    OwnStepsLift(es, own, r);
    more := Lift(own);
    HubProjection(es + more);
  }
}
