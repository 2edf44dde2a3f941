/**
 Readers of the per-stream logs: the GET loop of `streamMessages` and the POST
 loop of `handleMessage` over `waitStreamMessage`, woken through one-slot
 channels registered per stream.

 Every event is one lock region or one channel operation, so a run is any
 interleaving of writers and readers.
 */
module Mailbox {
  import opened Common
  import opened Messages

  type ReaderId = nat

  /** A wake channel; channels are made with capacity one. */
  type Chan = nat

  /** A POST reader stops at the response to the request `q` it carried. */
  datatype Kind = Get | Post(q: Id)

  /**
   Where a reader is. GET: Fresh, first flush, Flushed, register with a second
   flush, Waiting at the select, Woken with the signal taken, flush, Waiting.
   POST: Fresh, register, Checking, then Leaving with a message or Waiting.
   */
  datatype Pc = Fresh | Flushed | Checking | Waiting | Woken | Leaving | Stopped

  /**
   `next` is `resumeIndex` or `next` in the code, `got` the message that
   `waitStreamMessage` is about to return, `out` the entries written to the
   client so far, `start` the index the reader was opened with.
   */
  datatype Reader = Reader(
    kind: Kind, sid: StreamId, start: nat, next: nat, pc: Pc, ch: Chan,
    got: Option<Entry>, out: seq<Entry>)
  {
    /** Between registering the signal and removing it. */
    predicate Registered() {
      pc.Checking? || pc.Waiting? || pc.Woken? || pc.Leaving?
    }
  }

  datatype Hub = Hub(
    logs: Logs,
    isDone: bool,
    signals: map<StreamId, Chan>,
    slots: map<Chan, bool>,
    readers: map<ReaderId, Reader>)

  const EMPTY := Hub(map[], false, map[], map[], map[])

  datatype Event =
    | Append(sid: StreamId, message: Message)
    | Close
    | OpenGet(r: ReaderId, sid: StreamId, index: nat)
    | OpenPost(r: ReaderId, sid: StreamId, q: Id)
    | FirstFlush(r: ReaderId)
    | Register(r: ReaderId, ch: Chan)
    | Check(r: ReaderId)
    | Take(r: ReaderId)
    | Flush(r: ReaderId)
    | Quit(r: ReaderId)
    | Unregister(r: ReaderId)

  /** Write everything stored from `next` on, in order. */
  function FlushReader(r: Reader, log: seq<Entry>): Reader {
    if r.next < |log| then r.(out := r.out + log[r.next..], next := |log|) else r
  }

  /** `Write`: store the message and put a token in the registered channel, if any. */
  function AppendStep(h: Hub, sid: StreamId, m: Message): Hub {
    h.(logs := Messages.Append(h.logs, sid, m),
       slots := if sid in h.signals then h.slots[h.signals[sid] := true] else h.slots)
  }

  function RegisterReader(r: Reader, ch: Chan, log: seq<Entry>): Reader {
    if r.kind.Get? then FlushReader(r, log).(pc := Waiting, ch := ch)
    else r.(pc := Checking, ch := ch)
  }

  function CheckReader(r: Reader, log: seq<Entry>, isDone: bool): Reader {
    if r.next < |log| then r.(pc := Leaving, got := Some(log[r.next]))
    else if isDone then r.(pc := Leaving)
    else r.(pc := Waiting)
  }

  /**
   Leaving: a GET ends; a POST returns from `waitStreamMessage`, writes the
   message it got and goes round again unless it was the response.
   */
  function UnregisterReader(r: Reader): Reader {
    if r.kind.Get? || r.got.None? then r.(pc := Stopped)
    else
      r.(next := r.next + 1, out := r.out + [r.got.value], got := None,
         pc := if r.got.value.message.Answers(r.kind.q) then Stopped else Fresh)
  }

  /** The GET removes whatever is registered; the POST only its own channel. */
  function SignalsAfterLeaving(r: Reader, signals: map<StreamId, Chan>): map<StreamId, Chan> {
    if r.kind.Get? || (r.sid in signals && signals[r.sid] == r.ch) then signals - {r.sid} else signals
  }

  predicate Enabled(h: Hub, e: Event) {
    match e
    case Append(_, _) => !h.isDone
    case Close => true
    case OpenGet(r, _, _) => r !in h.readers
    case OpenPost(r, _, _) => r !in h.readers
    case FirstFlush(r) => r in h.readers && h.readers[r].kind.Get? && h.readers[r].pc.Fresh?
    case Register(r, ch) =>
      && r in h.readers && ch !in h.slots
      && h.readers[r].pc == (if h.readers[r].kind.Get? then Flushed else Fresh)
    case Check(r) => r in h.readers && h.readers[r].kind.Post? && h.readers[r].pc.Checking?
    case Take(r) =>
      && r in h.readers && h.readers[r].pc.Waiting?
      && h.readers[r].ch in h.slots && h.slots[h.readers[r].ch]
    case Flush(r) => r in h.readers && h.readers[r].kind.Get? && h.readers[r].pc.Woken?
    case Quit(r) => r in h.readers && h.readers[r].pc.Waiting?
    case Unregister(r) => r in h.readers && h.readers[r].pc.Leaving?
  }

  function Set(h: Hub, r: ReaderId, reader: Reader): Hub {
    h.(readers := h.readers[r := reader])
  }

  function Next(h: Hub, e: Event): Hub
    requires Enabled(h, e)
  {
    match e
    case Append(sid, m) => AppendStep(h, sid, m)
    case Close => h.(isDone := true)
    case OpenGet(r, sid, index) => Set(h, r, Reader(Get, sid, index, index, Fresh, 0, None, []))
    case OpenPost(r, sid, q) => Set(h, r, Reader(Post(q), sid, 0, 0, Fresh, 0, None, []))
    case FirstFlush(r) =>
      Set(h, r, FlushReader(h.readers[r], Log(h.logs, h.readers[r].sid)).(pc := Flushed))
    case Register(r, ch) =>
      var reader := h.readers[r];
      Set(h, r, RegisterReader(reader, ch, Log(h.logs, reader.sid)))
        .(signals := h.signals[reader.sid := ch], slots := h.slots[ch := false])
    case Check(r) => Set(h, r, CheckReader(h.readers[r], Log(h.logs, h.readers[r].sid), h.isDone))
    case Take(r) =>
      Set(h, r, h.readers[r].(pc := if h.readers[r].kind.Get? then Woken else Checking))
        .(slots := h.slots[h.readers[r].ch := false])
    case Flush(r) =>
      Set(h, r, FlushReader(h.readers[r], Log(h.logs, h.readers[r].sid)).(pc := Waiting))
    case Quit(r) => Set(h, r, h.readers[r].(pc := Leaving))
    case Unregister(r) =>
      Set(h, r, UnregisterReader(h.readers[r]))
        .(signals := SignalsAfterLeaving(h.readers[r], h.signals))
  }

  /** No other reader is between registration and removal on the stream `r` registers for. */
  ghost predicate Exclusive(h: Hub, e: Event) {
    e.Register? && e.r in h.readers ==>
      forall o :: o in h.readers && o != e.r && h.readers[o].Registered() ==>
        h.readers[o].sid != h.readers[e.r].sid
  }

  /** A blocked reader that is behind its log can be woken. */
  ghost predicate NoLostWakeUp(h: Hub) {
    forall r :: r in h.readers && h.readers[r].pc.Waiting? &&
                h.readers[r].next < |Log(h.logs, h.readers[r].sid)| ==>
      h.readers[r].ch in h.slots && h.slots[h.readers[r].ch]
  }

  /** Registered readers own their stream's signal. */
  ghost predicate Wired(h: Hub) {
    forall r :: r in h.readers && h.readers[r].Registered() ==>
      && h.readers[r].sid in h.signals
      && h.signals[h.readers[r].sid] == h.readers[r].ch
      && h.readers[r].ch in h.slots
  }

  ghost predicate Distinct(h: Hub) {
    forall r, o :: r in h.readers && o in h.readers && r != o &&
                   h.readers[r].Registered() && h.readers[o].Registered() ==>
      h.readers[r].sid != h.readers[o].sid && h.readers[r].ch != h.readers[o].ch
  }

  ghost predicate WakeInvariant(h: Hub) {
    Wired(h) && Distinct(h) && NoLostWakeUp(h)
  }

  lemma WakeAppend(h: Hub, sid: StreamId, m: Message)
    requires WakeInvariant(h)
    ensures WakeInvariant(AppendStep(h, sid, m))
  {
    var h' := AppendStep(h, sid, m);
    forall r | r in h'.readers && h'.readers[r].pc.Waiting? &&
               h'.readers[r].next < |Log(h'.logs, h'.readers[r].sid)|
      ensures h'.readers[r].ch in h'.slots && h'.slots[h'.readers[r].ch]
    {
      assert h.readers[r].Registered();
      assert h.readers[r].sid != sid ==> Log(h'.logs, h.readers[r].sid) == Log(h.logs, h.readers[r].sid);
    }
  }

  lemma WakeRegister(h: Hub, r: ReaderId, ch: Chan)
    requires WakeInvariant(h) && Enabled(h, Register(r, ch)) && Exclusive(h, Register(r, ch))
    ensures WakeInvariant(Next(h, Register(r, ch)))
  {
  }

  lemma WakeUnregister(h: Hub, r: ReaderId)
    requires WakeInvariant(h) && Enabled(h, Unregister(r))
    ensures WakeInvariant(Next(h, Unregister(r)))
  {
    assert h.readers[r].Registered();
  }

  /** A registered reader may move, and empty its own channel, if it is not left behind blocked. */
  lemma WakeMove(h: Hub, r: ReaderId, moved: Reader, slots: map<Chan, bool>)
    requires WakeInvariant(h) && r in h.readers
    requires moved.sid == h.readers[r].sid && moved.ch == h.readers[r].ch
    requires moved.Registered() ==> h.readers[r].Registered()
    requires slots == h.slots || (h.readers[r].Registered() && slots == h.slots[moved.ch := false])
    requires moved.pc.Waiting? && moved.next < |Log(h.logs, moved.sid)| ==> slots == h.slots && h.readers[r] == moved
    ensures WakeInvariant(Set(h, r, moved).(slots := slots))
  {
  }

  lemma WakeStepReader(h: Hub, e: Event)
    requires WakeInvariant(h) && Enabled(h, e)
    requires e.FirstFlush? || e.Check? || e.Take? || e.Flush? || e.Quit?
    ensures WakeInvariant(Next(h, e))
  {
    WakeMove(h, e.r, Next(h, e).readers[e.r], Next(h, e).slots);
  }

  lemma WakeStep(h: Hub, e: Event)
    requires WakeInvariant(h) && Enabled(h, e) && Exclusive(h, e)
    ensures WakeInvariant(Next(h, e))
  {
    match e
    case Append(sid, m) => WakeAppend(h, sid, m);
    case Register(r, ch) => WakeRegister(h, r, ch);
    case Unregister(r) => WakeUnregister(h, r);
    case Close =>
    case OpenGet(_, _, _) =>
    case OpenPost(_, _, _) =>
    case _ => WakeStepReader(h, e);
  }

  // ---- Runs ----

  function After(es: seq<Event>): Hub {
    if es == [] then EMPTY
    else
      var h := After(Front(es));
      if Enabled(h, Last(es)) then Next(h, Last(es)) else h
  }

  ghost predicate Legal(es: seq<Event>) {
    es == [] || (Legal(Front(es)) && Enabled(After(Front(es)), Last(es)))
  }

  /** At most one reader per stream is registered at any time of the run. */
  ghost predicate SingleReader(es: seq<Event>) {
    es == [] || (SingleReader(Front(es)) && Exclusive(After(Front(es)), Last(es)))
  }

  lemma {:induction false} RunWakeInvariant(es: seq<Event>)
    requires Legal(es) && SingleReader(es)
    ensures WakeInvariant(After(es))
  {
    if es == [] {
    } else {
      RunWakeInvariant(Front(es));
      WakeStep(After(Front(es)), Last(es));
    }
  }

  /**
   No lost wake-up: after every interleaving of writes, registrations, flushes
   and waits of both kinds of reader, a reader blocked at its select while its
   log holds an entry it has not written finds a token in its channel.
   */
  lemma NoLostWakeUpInRuns(es: seq<Event>, r: ReaderId)
    requires Legal(es) && SingleReader(es)
    requires r in After(es).readers && After(es).readers[r].pc.Waiting?
    requires After(es).readers[r].next < |Log(After(es).logs, After(es).readers[r].sid)|
    ensures Enabled(After(es), Take(r))
  {
    RunWakeInvariant(es);
  }

  lemma Extend(es: seq<Event>, e: Event)
    requires Legal(es) && Enabled(After(es), e)
    ensures Legal(es + [e]) && After(es + [e]) == Next(After(es), e)
  {
    assert Front(es + [e]) == es;
  }

  lemma {:induction false} LegalPrefix(es: seq<Event>, n: nat)
    requires Legal(es) && n <= |es|
    ensures Legal(es[..n]) && (n < |es| ==> Enabled(After(es[..n]), es[n]))
  {
    if n == |es| {
      assert es[..n] == es;
    } else {
      assert Front(es)[..n] == es[..n];
      if n == |es| - 1 {
        assert es[..n] == Front(es);
      } else {
        LegalPrefix(Front(es), n);
      }
    }
  }

  lemma FirstOfMore(es: seq<Event>, e: Event, rest: seq<Event>)
    requires Legal(es + ([e] + rest))
    ensures Legal(es) && Enabled(After(es), e) && es + ([e] + rest) == es + [e] + rest
  {
    SplitsAt(es, e, rest);
    LegalPrefix(es + ([e] + rest), |es|);
  }

  lemma SplitsAt(es: seq<Event>, e: Event, rest: seq<Event>)
    ensures var all := es + ([e] + rest);
            all[..|es|] == es && all[|es|] == e && all == es + [e] + rest
  {
  }

  lemma ExtendThree(es: seq<Event>, a: Event, b: Event, c: Event, h: Hub, h1: Hub, h2: Hub)
    requires Legal(es) && h == After(es) && Enabled(h, a) && h1 == Next(h, a)
    requires Enabled(h1, b) && h2 == Next(h1, b) && Enabled(h2, c)
    ensures Legal(es + [a, b, c]) && After(es + [a, b, c]) == Next(h2, c)
  {
    Extend(es, a);
    assert es + [a] + [b] == es + [a, b] && es + [a, b] + [c] == es + [a, b, c];
    Extend(es + [a], b);
    Extend(es + [a, b], c);
  }

  /** A GET on the standalone stream up to its select. */
  function GetRegisters(r: ReaderId, ch: Chan): seq<Event> {
    [OpenGet(r, 0, 0), FirstFlush(r), Register(r, ch)]
  }

  lemma GetSteps(h: Hub, r: ReaderId, ch: Chan)
    requires r !in h.readers && ch !in h.slots && Log(h.logs, 0) == []
    ensures Enabled(h, OpenGet(r, 0, 0))
    ensures var h1 := Next(h, OpenGet(r, 0, 0)); Enabled(h1, FirstFlush(r))
    ensures var h2 := Next(Next(h, OpenGet(r, 0, 0)), FirstFlush(r));
            && Enabled(h2, Register(r, ch))
            && Next(h2, Register(r, ch)) ==
               Set(h, r, Reader(Get, 0, 0, 0, Waiting, ch, None, []))
                 .(signals := h.signals[0 := ch], slots := h.slots[ch := false])
  {
    var h1 := Next(h, OpenGet(r, 0, 0));
    var h2 := Next(h1, FirstFlush(r));
    assert h1.readers[r] == Reader(Get, 0, 0, 0, Fresh, 0, None, []);
    assert h2.readers[r] == Reader(Get, 0, 0, 0, Flushed, 0, None, []);
    var done := Reader(Get, 0, 0, 0, Waiting, ch, None, []);
    assert h2.readers[r := done] == h.readers[r := done];
  }

  lemma GetWaits(es: seq<Event>, r: ReaderId, ch: Chan)
    requires Legal(es) && r !in After(es).readers && ch !in After(es).slots && Log(After(es).logs, 0) == []
    ensures Legal(es + GetRegisters(r, ch))
    ensures After(es + GetRegisters(r, ch)) ==
            Set(After(es), r, Reader(Get, 0, 0, 0, Waiting, ch, None, []))
              .(signals := After(es).signals[0 := ch], slots := After(es).slots[ch := false])
  {
    var h := After(es);
    var h1 := Next(h, OpenGet(r, 0, 0));
    GetSteps(h, r, ch);
    ExtendThree(es, OpenGet(r, 0, 0), FirstFlush(r), Register(r, ch), h, h1, Next(h1, FirstFlush(r)));
  }

  /** Two GETs on the standalone stream, then a write. */
  function TwoGets(m: Message): seq<Event> {
    [] + GetRegisters(0, 0) + GetRegisters(1, 1) + [Append(0, m)]
  }

  /** Without `SingleReader`: the first GET stays blocked although the stream has an entry for it. */
  lemma TwoGetsLoseWakeUp(m: Message)
    ensures Legal(TwoGets(m))
    ensures var h := After(TwoGets(m));
            && 0 in h.readers && h.readers[0].pc.Waiting?
            && h.readers[0].next < |Log(h.logs, h.readers[0].sid)| && !Enabled(h, Take(0))
  {
    var one := [] + GetRegisters(0, 0);
    var two := one + GetRegisters(1, 1);
    GetWaits([], 0, 0);
    GetWaits(one, 1, 1);
    Extend(two, Append(0, m));
  }

  /** `r` is blocked with nothing left to write and no token. */
  ghost predicate Parked(h: Hub, r: ReaderId) {
    && r in h.readers && h.readers[r].pc.Waiting?
    && h.readers[r].next == |Log(h.logs, h.readers[r].sid)|
    && h.readers[r].ch in h.slots && !h.slots[h.readers[r].ch]
  }

  /**
   The single-reader assumption is needed: once another reader registers, the
   parked reader still hears of every later write exactly when the other one
   registered for a different stream.
   */
  lemma SecondReaderLosesWakeUpIff(h: Hub, parked: ReaderId, r: ReaderId, ch: Chan, m: Message)
    requires WakeInvariant(h) && Parked(h, parked) && !h.isDone
    requires r != parked && Enabled(h, Register(r, ch))
    ensures Enabled(AppendStep(Next(h, Register(r, ch)), h.readers[parked].sid, m), Take(parked)) <==>
            h.readers[r].sid != h.readers[parked].sid
  {
    assert h.readers[parked].Registered();
  }

  /**
   The unchecked delete of a finishing GET: a reader parked with its own channel
   registered still hears of the next write after the GET is gone exactly when
   the two read different streams.
   */
  lemma FinishingGetSilencesIff(h: Hub, finishing: ReaderId, parked: ReaderId, m: Message)
    requires Enabled(h, Unregister(finishing)) && h.readers[finishing].kind.Get?
    requires Parked(h, parked)
    requires h.readers[parked].sid in h.signals
    requires h.signals[h.readers[parked].sid] == h.readers[parked].ch
    ensures Enabled(AppendStep(Next(h, Unregister(finishing)), h.readers[parked].sid, m), Take(parked)) <==>
            h.readers[finishing].sid != h.readers[parked].sid
  {
    assert parked != finishing;
  }

  // ---- What readers write ----

  /** The part of the log a reader has written. */
  function Written(log: seq<Entry>, start: nat, next: nat): seq<Entry> {
    if start <= next <= |log| then log[start..next] else []
  }

  /**
   A reader has written its log from `start` up to `next`, and a message about
   to be returned is the one at `next`. A start beyond the end of the log writes
   nothing until the log has grown past it.
   */
  ghost predicate Faithful(r: Reader, log: seq<Entry>) {
    && r.start <= r.next
    && (r.next <= |log| || r.next == r.start)
    && r.out == Written(log, r.start, r.next)
    && (r.got.Some? ==> r.kind.Post? && r.pc.Leaving? && r.next < |log| && r.got.value == log[r.next])
    && (r.kind.Post? ==>
          && r.start == 0
          && (forall k :: 0 <= k < |r.out| && r.out[k].message.Answers(r.kind.q) ==>
                k == |r.out| - 1 && r.pc.Stopped?))
  }

  ghost predicate AllFaithful(h: Hub) {
    forall r :: r in h.readers ==> Faithful(h.readers[r], Log(h.logs, h.readers[r].sid))
  }

  lemma FaithfulGrow(r: Reader, log: seq<Entry>, e: Entry)
    requires Faithful(r, log)
    ensures Faithful(r, log + [e])
  {
    if r.next <= |log| {
      assert (log + [e])[r.start..r.next] == log[r.start..r.next];
    } else if r.next == |log| + 1 {
      assert (log + [e])[r.start..r.next] == [];
    }
  }

  lemma FaithfulFlush(r: Reader, log: seq<Entry>)
    requires Faithful(r, log) && r.kind.Get?
    ensures Faithful(FlushReader(r, log), log)
    ensures FlushReader(r, log).next >= |log|
  {
    if r.next < |log| {
      assert log[r.start..r.next] + log[r.next..] == log[r.start..|log|];
    }
  }

  lemma FaithfulRegister(r: Reader, ch: Chan, log: seq<Entry>)
    requires Faithful(r, log) && !r.Registered() && !r.pc.Stopped?
    ensures Faithful(RegisterReader(r, ch, log), log)
  {
    if r.kind.Get? {
      FaithfulFlush(r, log);
    }
  }

  lemma FaithfulLeave(r: Reader, log: seq<Entry>)
    requires Faithful(r, log) && r.pc.Leaving?
    ensures Faithful(UnregisterReader(r), log)
  {
    if r.kind.Post? && r.got.Some? {
      assert log[r.start..r.next] + [log[r.next]] == log[r.start..r.next + 1];
    }
  }

  lemma FaithfulCheck(r: Reader, log: seq<Entry>, isDone: bool)
    requires Faithful(r, log) && r.kind.Post? && r.pc.Checking?
    ensures Faithful(CheckReader(r, log, isDone), log)
  {
  }

  /** Opening a reader, taking a signal and giving up write nothing. */
  lemma FaithfulQuiet(h: Hub, e: Event)
    requires AllFaithful(h) && Enabled(h, e) && (e.OpenGet? || e.OpenPost? || e.Take? || e.Quit?)
    ensures Faithful(Next(h, e).readers[e.r], Log(h.logs, Next(h, e).readers[e.r].sid))
  {
  }

  lemma FaithfulFlushes(h: Hub, e: Event)
    requires AllFaithful(h) && Enabled(h, e) && (e.FirstFlush? || e.Flush? || e.Register?)
    ensures Faithful(Next(h, e).readers[e.r], Log(h.logs, Next(h, e).readers[e.r].sid))
  {
    var r, log := h.readers[e.r], Log(h.logs, h.readers[e.r].sid);
    if e.Register? {
      FaithfulRegister(r, e.ch, log);
    } else {
      FaithfulFlush(r, log);
    }
  }

  /** The reader an event moves stays faithful to the log, which does not change. */
  lemma FaithfulStepReader(h: Hub, e: Event)
    requires AllFaithful(h) && Enabled(h, e) && !e.Append? && !e.Close?
    ensures Faithful(Next(h, e).readers[e.r], Log(h.logs, Next(h, e).readers[e.r].sid))
  {
    if e.OpenGet? || e.OpenPost? || e.Take? || e.Quit? {
      FaithfulQuiet(h, e);
    } else if e.FirstFlush? || e.Flush? || e.Register? {
      FaithfulFlushes(h, e);
    } else if e.Check? {
      FaithfulCheck(h.readers[e.r], Log(h.logs, h.readers[e.r].sid), h.isDone);
    } else {
      FaithfulLeave(h.readers[e.r], Log(h.logs, h.readers[e.r].sid));
    }
  }

  lemma FaithfulAppend(h: Hub, sid: StreamId, m: Message)
    requires AllFaithful(h)
    ensures AllFaithful(AppendStep(h, sid, m))
  {
    forall r | r in h.readers
      ensures Faithful(h.readers[r], Log(AppendStep(h, sid, m).logs, h.readers[r].sid))
    {
      FaithfulGrow(h.readers[r], Log(h.logs, h.readers[r].sid), NewEntry(h.logs, sid, m));
    }
  }

  /** After every flush, the first, the one at registration and those when woken, the log is written to its end. */
  lemma FlushCatchesUp(h: Hub, e: Event)
    requires AllFaithful(h) && Enabled(h, e) && (e.FirstFlush? || e.Register? || e.Flush?)
    requires h.readers[e.r].kind.Get?
    ensures var rd := Next(h, e).readers[e.r];
            && rd.next >= |Log(h.logs, rd.sid)|
            && rd.out == h.readers[e.r].out + Written(Log(h.logs, rd.sid), h.readers[e.r].next, rd.next)
  {
  }

  /** Every event but a write or a close moves one reader and no log. */
  lemma StepMovesOneReader(h: Hub, e: Event)
    requires Enabled(h, e) && !e.Append? && !e.Close?
    ensures Next(h, e).logs == h.logs && Next(h, e).isDone == h.isDone
    ensures Next(h, e).readers.Keys == h.readers.Keys + {e.r}
    ensures forall r :: r in h.readers && r != e.r ==> Next(h, e).readers[r] == h.readers[r]
  {
  }

  lemma FaithfulStep(h: Hub, e: Event)
    requires AllFaithful(h) && Enabled(h, e)
    ensures AllFaithful(Next(h, e))
  {
    if e.Append? {
      FaithfulAppend(h, e.sid, e.message);
    } else if !e.Close? {
      FaithfulStepReader(h, e);
      StepMovesOneReader(h, e);
    }
  }

  lemma {:induction false} RunFaithful(es: seq<Event>)
    requires Legal(es)
    ensures AllFaithful(After(es))
  {
    if es == [] {
    } else {
      RunFaithful(Front(es));
      FaithfulStep(After(Front(es)), Last(es));
    }
  }

  /**
   In every run, with any number of readers, a reader has written a contiguous
   stretch of its stream's log, in order and without repetition, beginning where
   it was opened.
   */
  lemma ReadersWriteTheLog(es: seq<Event>, r: ReaderId)
    requires Legal(es) && r in After(es).readers
    ensures var reader := After(es).readers[r];
            reader.out == Written(Log(After(es).logs, reader.sid), reader.start, reader.next)
  {
    RunFaithful(es);
  }

  // ---- Opening beyond the end of the log ----

  /** Everything stored from `from` on has been written. */
  ghost predicate WroteSince(r: Reader, log: seq<Entry>, from: nat) {
    from <= |log| && |log| - from <= |r.out| && r.out[|r.out| - (|log| - from)..] == log[from..]
  }

  lemma WroteSinceIff(r: Reader, log: seq<Entry>, from: nat)
    requires Faithful(r, log) && r.next >= |log| && from <= |log|
    ensures WroteSince(r, log, from) <==> r.start <= from || from == |log|
  {
    if r.start <= from {
      assert r.out == log[r.start..];
    }
  }

  /** A step keeps what a reader was opened with, and every log. */
  lemma ReaderKeepsOpening(h: Hub, e: Event, r: ReaderId)
    requires Enabled(h, e) && r in h.readers
    ensures r in Next(h, e).readers
    ensures Next(h, e).readers[r].sid == h.readers[r].sid && Next(h, e).readers[r].start == h.readers[r].start
    ensures Next(h, e).readers[r].kind == h.readers[r].kind
  {
  }

  lemma {:induction false} OpenedReader(es: seq<Event>, n: nat)
    requires Legal(es) && n < |es| && es[n].OpenGet?
    ensures es[n].r in After(es).readers
    ensures After(es).readers[es[n].r].sid == es[n].sid && After(es).readers[es[n].r].start == es[n].index
    ensures |Log(After(es[..n]).logs, es[n].sid)| <= |Log(After(es).logs, es[n].sid)|
    decreases |es|
  {
    if n == |es| - 1 {
      assert es[..n] == Front(es);
    } else {
      var front := Front(es);
      assert front[..n] == es[..n];
      OpenedReader(front, n);
      ReaderKeepsOpening(After(front), Last(es), es[n].r);
    }
  }

  /**
   A GET opened at index i on a log of length n, whenever it has caught up with
   its log again, has written every entry stored since it was opened, if and only
   if i <= n, or nothing was stored. A larger index is not cut back to the end.
   */
  lemma OpenedAtIff(es: seq<Event>, n: nat)
    requires Legal(es) && n < |es| && es[n].OpenGet?
    requires es[n].r in After(es).readers
    requires After(es).readers[es[n].r].next >= |Log(After(es).logs, es[n].sid)|
    ensures var log := Log(After(es).logs, es[n].sid);
            var before := |Log(After(es[..n]).logs, es[n].sid)|;
            WroteSince(After(es).readers[es[n].r], log, before) <==> es[n].index <= before || before == |log|
  {
    OpenedReader(es, n);
    RunFaithful(es);
    WroteSinceIff(After(es).readers[es[n].r], Log(After(es).logs, es[n].sid), |Log(After(es[..n]).logs, es[n].sid)|);
  }

  /** Opened one beyond the end of the empty log, a GET never writes the first entry. */
  lemma OpenedBeyondEndSkips(m: Message)
    ensures var es := [OpenGet(0, 0, 1), Append(0, m), FirstFlush(0)];
            && Legal(es) && 0 in After(es).readers && |Log(After(es).logs, 0)| == 1
            && After(es).readers[0].next == 1 && After(es).readers[0].out == []
  {
    var es := [OpenGet(0, 0, 1), Append(0, m), FirstFlush(0)];
    assert es[..0] == [];
    Extend(es[..0], es[0]);
    assert es[..0] + [es[0]] == es[..1];
    Extend(es[..1], es[1]);
    assert es[..1] + [es[1]] == es[..2];
    Extend(es[..2], es[2]);
    assert es[..2] + [es[2]] == es;
  }
}
