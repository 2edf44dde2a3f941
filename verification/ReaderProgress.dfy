/**
 How readers end and how they get on: when the POST loop of `handleMessage` stops,
 that a reader's own steps bring it to the response or to the end of its log, and
 what a token in its channel means.
 */
module ReaderProgress {
  import opened Common
  import opened Messages
  import opened Mailbox

  // ---- When a POST loop ends ----

  /** The reader wrote the response to its own request. */
  predicate WroteAnswer(r: Reader) {
    r.kind.Post? && r.out != [] && Last(r.out).message.Answers(r.kind.q)
  }

  /** The event makes `r` give up: it quits at its select, or finds the transport closed and nothing left to read. */
  predicate GivesUp(h: Hub, e: Event, r: ReaderId) {
    || e == Quit(r)
    || (e == Check(r) && h.isDone && r in h.readers && h.readers[r].next >= |Log(h.logs, h.readers[r].sid)|)
  }

  ghost predicate GaveUp(es: seq<Event>, r: ReaderId) {
    es != [] && (GaveUp(Front(es), r) || GivesUp(After(Front(es)), Last(es), r))
  }

  /** Stopped, or with nothing left to do but remove its signal. */
  predicate Ending(r: Reader) {
    r.pc.Stopped? || (r.pc.Leaving? && r.got.None?)
  }

  lemma {:induction false} UnopenedGaveNotUp(es: seq<Event>, r: ReaderId)
    requires Legal(es) && r !in After(es).readers
    ensures !GaveUp(es, r)
  {
    if es == [] {
    } else {
      var h := After(Front(es));
      if r in h.readers {
        ReaderKeepsOpening(h, Last(es), r);
      }
      UnopenedGaveNotUp(Front(es), r);
    }
  }

  /** What a step of the reader itself does to it. */
  lemma OwnMove(h: Hub, e: Event, r: ReaderId)
    requires Enabled(h, e) && !e.Append? && !e.Close? && e.r == r && r in h.readers && h.readers[r].kind.Post?
    ensures r in Next(h, e).readers
    ensures var rd, rd' := h.readers[r], Next(h, e).readers[r];
            if e.Check? then rd' == CheckReader(rd, Log(h.logs, rd.sid), h.isDone) && rd.pc.Checking?
            else if e.Unregister? then rd' == UnregisterReader(rd) && rd.pc.Leaving?
            else
              && rd' == rd.(pc := rd'.pc, ch := rd'.ch) && !rd'.pc.Stopped? && !rd.pc.Leaving? && !rd.pc.Stopped?
              && (rd'.pc.Leaving? <==> e.Quit?)
  {
  }

  lemma EndingOwn(h: Hub, e: Event, r: ReaderId, gaveUp: bool)
    requires AllFaithful(h) && Enabled(h, e) && !e.Append? && !e.Close? && e.r == r
    requires r in h.readers && h.readers[r].kind.Post?
    requires Ending(h.readers[r]) <==> WroteAnswer(h.readers[r]) || gaveUp
    ensures r in Next(h, e).readers
    ensures Ending(Next(h, e).readers[r]) <==> WroteAnswer(Next(h, e).readers[r]) || gaveUp || GivesUp(h, e, r)
  {
    OwnMove(h, e, r);
    var rd := h.readers[r];
    assert Faithful(rd, Log(h.logs, rd.sid));
    assert WroteAnswer(rd) ==> rd.pc.Stopped?;
    if e.Unregister? && rd.got.Some? {
      assert Last(rd.out + [rd.got.value]) == rd.got.value;
    }
  }

  lemma EndingStep(h: Hub, e: Event, r: ReaderId, gaveUp: bool)
    requires AllFaithful(h) && Enabled(h, e) && r in h.readers && h.readers[r].kind.Post?
    requires Ending(h.readers[r]) <==> WroteAnswer(h.readers[r]) || gaveUp
    ensures r in Next(h, e).readers
    ensures Ending(Next(h, e).readers[r]) <==> WroteAnswer(Next(h, e).readers[r]) || gaveUp || GivesUp(h, e, r)
  {
    if !e.Append? && !e.Close? {
      if e.r == r {
        EndingOwn(h, e, r, gaveUp);
      } else {
        StepMovesOneReader(h, e);
      }
    }
  }

  lemma OpeningEndsNothing(h: Hub, e: Event, r: ReaderId)
    requires Enabled(h, e) && r !in h.readers && r in Next(h, e).readers
    ensures !Ending(Next(h, e).readers[r]) && !WroteAnswer(Next(h, e).readers[r]) && !GivesUp(h, e, r)
  {
    if !e.Append? && !e.Close? {
      StepMovesOneReader(h, e);
    }
  }

  /**
   A POST loop ends if and only if it wrote the response to its own request, or
   gave up: nothing else it writes or does not find makes it stop. It is stopped
   when, besides, it has removed its signal.
   */
  lemma {:induction false} PostEndsIff(es: seq<Event>, r: ReaderId)
    requires Legal(es) && r in After(es).readers && After(es).readers[r].kind.Post?
    ensures Ending(After(es).readers[r]) <==> WroteAnswer(After(es).readers[r]) || GaveUp(es, r)
    ensures After(es).readers[r].pc.Stopped? <==>
            (WroteAnswer(After(es).readers[r]) || GaveUp(es, r)) && !After(es).readers[r].pc.Leaving?
  {
    var h, e := After(Front(es)), Last(es);
    if r !in h.readers {
      UnopenedGaveNotUp(Front(es), r);
      OpeningEndsNothing(h, e, r);
    } else {
      ReaderKeepsOpening(h, e, r);
      PostEndsIff(Front(es), r);
      RunFaithful(Front(es));
      EndingStep(h, e, r, GaveUp(Front(es), r));
    }
  }

  // ---- Progress: a reader's own steps are enough ----

  /** The places a reader of each kind can be at. */
  ghost predicate InPhase(r: Reader) {
    && (r.kind.Post? ==> !r.pc.Flushed? && !r.pc.Woken?)
    && (r.kind.Get? ==> !r.pc.Checking?)
  }

  ghost predicate AllInPhase(h: Hub) {
    forall r :: r in h.readers ==> InPhase(h.readers[r])
  }

  lemma {:induction false} RunInPhase(es: seq<Event>)
    requires Legal(es)
    ensures AllInPhase(After(es))
  {
    if es == [] {
    } else {
      RunInPhase(Front(es));
      PhaseStep(After(Front(es)), Last(es));
    }
  }

  lemma PhaseStep(h: Hub, e: Event)
    requires AllInPhase(h) && Enabled(h, e)
    ensures AllInPhase(Next(h, e))
  {
    if !e.Append? && !e.Close? {
      StepMovesOneReader(h, e);
      assert InPhase(Next(h, e).readers[e.r]);
    }
  }

  /** Steps of the reader alone. */
  predicate OwnStep(e: Event, r: ReaderId) {
    match e
    case FirstFlush(o) => o == r
    case Register(o, _) => o == r
    case Check(o) => o == r
    case Take(o) => o == r
    case Flush(o) => o == r
    case Unregister(o) => o == r
    case _ => false
  }

  predicate OwnSteps(es: seq<Event>, r: ReaderId) {
    forall i :: 0 <= i < |es| ==> OwnStep(es[i], r)
  }

  lemma {:induction false} AboveAll(s: set<nat>) returns (n: nat)
    ensures forall x :: x in s ==> x < n
  {
    if s == {} {
      n := 0;
    } else {
      var x :| x in s;
      var m := AboveAll(s - {x});
      n := if m > x then m else x + 1;
      forall y | y in s ensures y < n {
        assert y == x || y in s - {x};
      }
    }
  }

  lemma NewChan(h: Hub) returns (ch: Chan)
    ensures ch !in h.slots
  {
    ch := AboveAll(h.slots.Keys);
  }

  /** How many steps a POST reader is from returning the message at its index. */
  function Rank(pc: Pc): nat {
    if pc.Leaving? then 0 else if pc.Checking? then 1 else 2
  }

  /** The step a POST reader that has something to read takes next. */
  lemma NextOwnStep(h: Hub, r: ReaderId) returns (e: Event)
    requires Ready(h, r) && InPhase(h.readers[r]) && !h.readers[r].pc.Leaving?
    requires h.readers[r].next < |Log(h.logs, h.readers[r].sid)|
    ensures OwnStep(e, r) && Enabled(h, e)
    ensures var was, now := h.readers[r], Next(h, e).readers[r];
            && now == was.(pc := now.pc, ch := now.ch, got := now.got)
            && !Ending(now) && InPhase(now) && !now.pc.Waiting? && Rank(now.pc) < Rank(was.pc)
            && (now.pc.Leaving? ==> now.got == Some(Log(h.logs, was.sid)[was.next]))
  {
    match h.readers[r].pc
    case Fresh =>
      var ch := NewChan(h);
      e := Register(r, ch);
    case Checking => e := Check(r);
    case Waiting => e := Take(r);
  }

  /** The reader after it returned the entry `entry`. */
  function WithEntry(r: Reader, entry: Entry): Reader
    requires r.kind.Post?
  {
    r.(next := r.next + 1, out := r.out + [entry], got := None,
       pc := if entry.message.Answers(r.kind.q) then Stopped else Fresh)
  }

  ghost predicate Continues(es: seq<Event>, more: seq<Event>, r: ReaderId) {
    && Legal(es + more) && OwnSteps(more, r)
    && After(es + more).logs == After(es).logs && r in After(es + more).readers
  }

  lemma ContinuesOne(es: seq<Event>, e: Event, r: ReaderId)
    requires Legal(es) && Enabled(After(es), e) && OwnStep(e, r) && r in After(es).readers
    ensures Legal(es + [e]) && After(es + [e]) == Next(After(es), e) && Continues(es, [e], r)
  {
    Extend(es, e);
    StepMovesOneReader(After(es), e);
  }

  lemma ContinuesMore(es: seq<Event>, a: seq<Event>, b: seq<Event>, r: ReaderId)
    requires Continues(es, a, r) && Continues(es + a, b, r)
    ensures Continues(es, a + b, r) && es + (a + b) == es + a + b
  {
    assert es + (a + b) == es + a + b;
  }

  /** Ready to read: not ended, and woken if it must be. */
  ghost predicate Ready(h: Hub, r: ReaderId) {
    && r in h.readers && h.readers[r].kind.Post? && !Ending(h.readers[r])
    && (h.readers[r].pc.Waiting? ==> Enabled(h, Take(r)))
  }

  lemma LeavesWithEntry(h: Hub, r: ReaderId)
    requires AllFaithful(h) && Ready(h, r) && h.readers[r].pc.Leaving?
    ensures Enabled(h, Unregister(r))
    ensures var rd := h.readers[r];
            && rd.next < |Log(h.logs, rd.sid)|
            && Next(h, Unregister(r)).readers[r] == WithEntry(rd, Log(h.logs, rd.sid)[rd.next])
  {
    assert Faithful(h.readers[r], Log(h.logs, h.readers[r].sid));
  }

  /** A POST reader with something to read writes the next entry in a few steps of its own. */
  lemma {:induction false} WritesNext(es: seq<Event>, r: ReaderId) returns (more: seq<Event>)
    requires Legal(es) && Ready(After(es), r)
    requires After(es).readers[r].next < |Log(After(es).logs, After(es).readers[r].sid)|
    ensures Continues(es, more, r)
    ensures var rd, rd' := After(es).readers[r], After(es + more).readers[r];
            rd' == WithEntry(rd, Log(After(es).logs, rd.sid)[rd.next]).(ch := rd'.ch)
    decreases Rank(After(es).readers[r].pc)
  {
    var h := After(es);
    if h.readers[r].pc.Leaving? {
      RunFaithful(es);
      LeavesWithEntry(h, r);
      ContinuesOne(es, Unregister(r), r);
      more := [Unregister(r)];
    } else {
      RunInPhase(es);
      var e := NextOwnStep(h, r);
      ContinuesOne(es, e, r);
      var rest := WritesNext(es + [e], r);
      ContinuesMore(es, [e], rest, r);
      more := [e] + rest;
    }
  }

  /**
   Whenever its stream holds the response to its request, a POST loop that has not
   ended gets there by steps of its own: it writes the stream up to the response
   and stops.
   */
  lemma {:induction false} PostFinishes(es: seq<Event>, r: ReaderId, k: nat) returns (more: seq<Event>)
    requires Legal(es) && Ready(After(es), r)
    requires var rd := After(es).readers[r];
             var log := Log(After(es).logs, rd.sid);
             && rd.next <= k < |log| && log[k].message.Answers(rd.kind.q)
             && (forall j :: rd.next <= j < k ==> !log[j].message.Answers(rd.kind.q))
    ensures Continues(es, more, r)
    ensures var rd, rd' := After(es).readers[r], After(es + more).readers[r];
            rd'.pc.Stopped? && rd'.kind == rd.kind && rd'.out == Log(After(es).logs, rd.sid)[..k + 1]
    decreases k - After(es).readers[r].next
  {
    var rd := After(es).readers[r];
    more := WritesNext(es, r);
    if rd.next == k {
      RunFaithful(es + more);
      assert Faithful(After(es + more).readers[r], Log(After(es).logs, rd.sid));
    } else {
      var rest := PostFinishes(es + more, r, k);
      ContinuesMore(es, more, rest, r);
      more := more + rest;
    }
  }

  /** A GET that has not ended, woken if it must be. */
  ghost predicate Live(h: Hub, r: ReaderId) {
    && r in h.readers && h.readers[r].kind.Get? && !h.readers[r].pc.Leaving? && !h.readers[r].pc.Stopped?
    && (h.readers[r].pc.Waiting? && !CaughtUp(h, r) ==> Enabled(h, Take(r)))
  }

  predicate CaughtUp(h: Hub, r: ReaderId) {
    r in h.readers && h.readers[r].next >= |Log(h.logs, h.readers[r].sid)|
  }

  function GetRank(pc: Pc): nat {
    if pc.Fresh? then 3 else if pc.Waiting? then 2 else 1
  }

  lemma NextGetStep(h: Hub, r: ReaderId) returns (e: Event)
    requires Live(h, r) && InPhase(h.readers[r]) && !(h.readers[r].pc.Waiting? && CaughtUp(h, r))
    ensures OwnStep(e, r) && Enabled(h, e) && Live(Next(h, e), r)
    ensures var h' := Next(h, e);
            (h'.readers[r].pc.Waiting? && CaughtUp(h', r)) || GetRank(h'.readers[r].pc) < GetRank(h.readers[r].pc)
  {
    match h.readers[r].pc
    case Fresh => e := FirstFlush(r);
    case Flushed =>
      var ch := NewChan(h);
      e := Register(r, ch);
    case Waiting => e := Take(r);
    case Woken => e := Flush(r);
  }

  /** A GET that has not ended comes to wait at the end of its log by steps of its own. */
  lemma {:induction false} GetCatchesUp(es: seq<Event>, r: ReaderId) returns (more: seq<Event>)
    requires Legal(es) && Live(After(es), r)
    ensures Continues(es, more, r)
    ensures After(es + more).readers[r].pc.Waiting? && CaughtUp(After(es + more), r)
    decreases GetRank(After(es).readers[r].pc)
  {
    more := [];
    assert es + more == es;
    if !(After(es).readers[r].pc.Waiting? && CaughtUp(After(es), r)) {
      RunInPhase(es);
      var e := NextGetStep(After(es), r);
      ContinuesOne(es, e, r);
      if !(After(es + [e]).readers[r].pc.Waiting? && CaughtUp(After(es + [e]), r)) {
        var rest := GetCatchesUp(es + [e], r);
        ContinuesMore(es, [e], rest, r);
        more := [e] + rest;
      } else {
        more := [e];
      }
    }
  }

  // ---- What a token means ----

  /** An entry was stored on the stream of `r` since it registered or last took its token. */
  ghost predicate Rung(es: seq<Event>, r: ReaderId) {
    es != [] &&
    var h := After(Front(es));
    match Last(es)
    case Append(sid, _) =>
      Rung(Front(es), r) || (r in h.readers && h.readers[r].Registered() && h.readers[r].sid == sid)
    case Register(o, _) => o != r && Rung(Front(es), r)
    case Take(o) => o != r && Rung(Front(es), r)
    case _ => Rung(Front(es), r)
  }

  /** Signals lead to channels made, and to a reader's channel only from its own stream. */
  ghost predicate Private(h: Hub) {
    && (forall sid :: sid in h.signals ==> h.signals[sid] in h.slots)
    && (forall r, sid :: r in h.readers && h.readers[r].Registered() && sid in h.signals && sid != h.readers[r].sid ==>
          h.signals[sid] != h.readers[r].ch)
  }

  lemma PrivateStep(h: Hub, e: Event)
    requires Private(h) && WakeInvariant(h) && Enabled(h, e)
    ensures Private(Next(h, e))
  {
  }

  lemma {:induction false} RunPrivate(es: seq<Event>)
    requires Legal(es) && SingleReader(es)
    ensures Private(After(es))
  {
    if es == [] {
    } else {
      RunPrivate(Front(es));
      RunWakeInvariant(Front(es));
      PrivateStep(After(Front(es)), Last(es));
    }
  }

  lemma TokenStep(h: Hub, e: Event, r: ReaderId)
    requires WakeInvariant(h) && Private(h) && Enabled(h, e) && !(e.Register? && e.r == r)
    requires r in Next(h, e).readers && Next(h, e).readers[r].Registered()
    ensures r in h.readers && h.readers[r].Registered() && h.readers[r].ch in h.slots
    ensures Next(h, e).readers[r].ch in Next(h, e).slots
    ensures Next(h, e).slots[Next(h, e).readers[r].ch] <==>
            (h.slots[h.readers[r].ch] && e != Take(r)) || (e.Append? && e.sid == h.readers[r].sid)
  {
    if e.Take? {
      assert h.readers[e.r].Registered();
    }
  }

  /** The channel of a registered reader holds a token if and only if something was stored since it last looked. */
  lemma {:induction false} TokenIff(es: seq<Event>, r: ReaderId)
    requires Legal(es) && SingleReader(es)
    requires r in After(es).readers && After(es).readers[r].Registered()
    ensures var ch := After(es).readers[r].ch; ch in After(es).slots && (After(es).slots[ch] <==> Rung(es, r))
  {
    var h := After(Front(es));
    if !(Last(es).Register? && Last(es).r == r) {
      RunWakeInvariant(Front(es));
      RunPrivate(Front(es));
      TokenStep(h, Last(es), r);
      TokenIff(Front(es), r);
    }
  }
}
