/**
 Resumption over reconnects: the server's GET handler picks up after
 `Last-Event-ID`, prints entries as server-sent events, the connection breaks at
 some byte, and the client scans what it got, decodes the messages and remembers
 the last event id.
 */
module Resume {
  import opened Common
  import opened EventId
  import opened Messages
  import opened Sse
  import Mailbox

  /** `handleSSEStream`: the stream and index a GET starts from. */
  function ResumePoint(lastEventId: string): (StreamId, nat) {
    if lastEventId == "" then (0, 0)
    else
      match ParseEventId(lastEventId)
      case Some((sid, idx)) => (sid, idx + 1)
      case None => (0, 0)
  }

  /** A GET starts behind the position its `Last-Event-ID` names. */
  lemma ResumesBehind(lastEventId: string, sid: nat, idx: nat)
    requires Names(lastEventId, sid, idx)
    ensures ResumePoint(lastEventId) == (sid, idx + 1)
  {
    ParseEventIdIff(lastEventId, sid, idx);
    NamesIsNotEmpty(lastEventId, sid, idx);
    ResumesBehindParsed(lastEventId, sid, idx);
  }

  lemma ResumesBehindParsed(lastEventId: string, sid: nat, idx: nat)
    requires lastEventId != "" && ParseEventId(lastEventId) == Some((sid, idx))
    ensures ResumePoint(lastEventId) == (sid, idx + 1)
  {
  }

  /** It starts at the first entry of the standalone stream 0 if the header is missing or names no position. */
  lemma ResumesAtStart(lastEventId: string)
    requires lastEventId == "" || NamesNothing(lastEventId)
    ensures ResumePoint(lastEventId) == (0, 0)
  {
    if lastEventId != "" && ParseEventId(lastEventId).Some? {
      var (sid, idx) := ParseEventId(lastEventId).value;
      ParseEventIdIff(lastEventId, sid, idx);
    }
  }

  /** JSON text: `json.Marshal` of a message, and `json.Unmarshal`, which may fail. */
  datatype Codec = Codec(marshal: Message -> string, unmarshal: string -> Option<Message>)

  /** What the JSON package promises: one line of text, from which the message can be read back. */
  ghost predicate RoundTrips(json: Codec) {
    forall m :: OneLine(json.marshal(m)) && json.unmarshal(json.marshal(m)) == Some(m)
  }

  // ---- The client ----

  /** The messages the client has queued for its reader, and the id it would resume from. */
  datatype Client = Client(received: seq<Message>, lastEventId: string)

  /** The message of an event, if it is a message event and can be decoded. */
  function Decoded(json: Codec, evt: Event): seq<Message> {
    var msg := json.unmarshal(evt.data);
    if evt.name == "" && msg.Some? then [msg.value] else []
  }

  function Process(json: Codec, c: Client, evt: Event): Client {
    Client(c.received + Decoded(json, evt), if evt.id != "" then evt.id else c.lastEventId)
  }

  function ProcessAll(json: Codec, c: Client, evts: seq<Event>): Client
    decreases |evts|
  {
    if evts == [] then c else ProcessAll(json, Process(json, c, evts[0]), evts[1..])
  }

  /** The part of `streamableClientConnection` that resumption depends on. */
  class StreamableClientConnection {
    const json: Codec
    var lastEventID: string
    var incomingCh: seq<Message>
    var errorCh: seq<ScanError>

    ghost function State(): Client
      reads this
    {
      Client(incomingCh, lastEventID)
    }

    constructor (json: Codec)
      ensures this.json == json && State() == Client([], "") && errorCh == []
    {
      this.json := json;
      lastEventID, incomingCh, errorCh := "", [], [];
    }

    /** The loop of `processEvents` over the events the scanner yields. */
    method HandleEvents(events: seq<Event>)
      modifies this`lastEventID, this`incomingCh
      ensures State() == ProcessAll(json, old(State()), events)
    {
      var i := 0;
      assert events[0..] == events;
      while i < |events|
        invariant 0 <= i <= |events|
        invariant ProcessAll(json, State(), events[i..]) == ProcessAll(json, old(State()), events)
      {
        var evt := events[i];
        ghost var before := State();
        assert events[i..][0] == evt && events[i..][1..] == events[i + 1..];
        if evt.name == "" {
          var msg := json.unmarshal(evt.data);
          if msg.Some? {
            incomingCh := incomingCh + [msg.value];
          }
        }
        if evt.id != "" {
          lastEventID := evt.id;
        }
        assert State() == Process(json, before, evt);
        i := i + 1;
      }
    }

    /** `processEvents` on the bytes one connection delivered. */
    method ProcessEvents(body: string)
      modifies this
      ensures State() == ProcessAll(json, old(State()), ScanFrom(Idle([]), body).events)
      ensures var error := ScanFrom(Idle([]), body).error;
              errorCh == old(errorCh) + if error.Some? then [error.value] else []
    {
      var events, error := ScanEvents(body);
      HandleEvents(events);
      if error.Some? {
        errorCh := errorCh + [error.value];
      }
    }
  }

  // ---- What one connection carries ----

  function EventFor(json: Codec, e: Entry): Event {
    Event("", e.eventId, json.marshal(e.message))
  }

  function EventsFor(json: Codec, entries: seq<Entry>): seq<Event> {
    seq(|entries|, i requires 0 <= i < |entries| => EventFor(json, entries[i]))
  }

  function MessagesOf(entries: seq<Entry>): seq<Message> {
    seq(|entries|, i requires 0 <= i < |entries| => entries[i].message)
  }

  /** The message events among the items, in order. */
  function FrameEvents(items: seq<Item>): seq<Event> {
    if items == [] then []
    else (if items[0].Frame? then EventOf(items[0]) else []) + FrameEvents(items[1..])
  }

  predicate EndpointsPrintable(items: seq<Item>) {
    forall i :: 0 <= i < |items| && items[i].Endpoint? ==> OneLine(items[i].path)
  }

  /**
   The items are what the server sends for `entries`: a frame for each, in order,
   with endpoint events and keep-alives anywhere.
   */
  ghost predicate Carries(json: Codec, items: seq<Item>, entries: seq<Entry>) {
    EndpointsPrintable(items) && FrameEvents(items) == EventsFor(json, entries)
  }

  ghost predicate NumberedLog(log: seq<Entry>, sid: StreamId) {
    && |log| <= MAX_INT64 && sid <= MAX_INT64
    && forall i :: 0 <= i < |log| ==> log[i].eventId == FormatEventId(sid, i)
  }

  /** An event id is a non-empty line of its own. */
  lemma EventIdIsOneLine(sid: StreamId, idx: nat)
    ensures FormatEventId(sid, idx) != "" && OneLine(FormatEventId(sid, idx))
  {
    var id := FormatEventId(sid, idx);
    var first, second := Decimal(sid), Decimal(idx);
    DecimalDigits(sid);
    DecimalDigits(idx);
    assert id[0] == first[0] && Last(id) == Last(second);
    PlainEnds(id);
    assert forall i :: 0 <= i < |first| ==> first[i] != '\n';
    assert forall i :: 0 <= i < |second| ==> second[i] != '\n';
  }

  ghost predicate AllIdentified(items: seq<Item>) {
    forall i :: 0 <= i < |items| ==> Identified(items[i])
  }

  lemma {:induction false} FrameIsAnEvent(items: seq<Item>, i: nat) returns (k: nat)
    requires i < |items| && items[i].Frame?
    ensures k < |FrameEvents(items)| && FrameEvents(items)[k] == Event("", items[i].id, items[i].data)
  {
    if i == 0 {
      k := 0;
    } else {
      k := FrameIsAnEvent(items[1..], i - 1);
      k := k + if items[0].Frame? then 1 else 0;
    }
  }

  /** What the server sends for entries of a numbered log can be printed and every frame has an id. */
  lemma CarriedIsPrintable(json: Codec, items: seq<Item>, log: seq<Entry>, sid: StreamId, start: nat, next: nat)
    requires RoundTrips(json) && NumberedLog(log, sid)
    requires Carries(json, items, Mailbox.Written(log, start, next))
    ensures AllPrintable(items) && AllIdentified(items)
  {
    var entries := Mailbox.Written(log, start, next);
    forall i | 0 <= i < |items| ensures Printable(items[i]) && Identified(items[i]) {
      if items[i].Frame? {
        var k := FrameIsAnEvent(items, i);
        assert FrameEvents(items)[k] == EventFor(json, entries[k]) && entries[k] == log[start + k];
        EventIdIsOneLine(sid, start + k);
        assert OneLine(json.marshal(entries[k].message));
      }
    }
  }

  /** The client after the first `cut` bytes of a connection. */
  function Receive(json: Codec, c: Client, items: seq<Item>, cut: nat): Client
    requires cut <= |Print(items)|
  {
    ProcessAll(json, c, ScanFrom(Idle([]), Print(items)[..cut]).events)
  }

  // ---- What the client makes of it ----

  lemma {:induction false} FrameEventsPrefix(items: seq<Item>, w: nat)
    requires w <= |items|
    ensures FrameEvents(items[..w]) <= FrameEvents(items)
  {
    if w == 0 {
    } else {
      assert items[..w][1..] == items[1..][..w - 1];
      FrameEventsPrefix(items[1..], w - 1);
    }
  }

  lemma {:induction false} ProcessAllConcat(json: Codec, c: Client, a: seq<Event>, b: seq<Event>)
    ensures ProcessAll(json, c, a + b) == ProcessAll(json, ProcessAll(json, c, a), b)
    decreases |a|
  {
    if a == [] {
      assert a + b == b;
    } else {
      assert (a + b)[1..] == a[1..] + b;
      ProcessAllConcat(json, Process(json, c, a[0]), a[1..], b);
    }
  }

  function LastIdOr(evts: seq<Event>, id: string): string {
    if evts == [] then id else Last(evts).id
  }

  function AllDecoded(json: Codec, evts: seq<Event>): seq<Message> {
    if evts == [] then [] else Decoded(json, evts[0]) + AllDecoded(json, evts[1..])
  }

  /** The last id any of the events had. */
  function LastIdOf(evts: seq<Event>, id: string): string {
    if evts == [] then id else if Last(evts).id != "" then Last(evts).id else LastIdOf(Front(evts), id)
  }

  /** The messages of the events without a name that decode, in order. */
  function MessagesIn(json: Codec, evts: seq<Event>): seq<Message> {
    if evts == [] then []
    else
      var evt := Last(evts);
      MessagesIn(json, Front(evts)) +
      if evt.name == "" && json.unmarshal(evt.data).Some? then [json.unmarshal(evt.data).value] else []
  }

  /** What the client makes of any events, whatever their names and order. */
  lemma {:induction false} ProcessedAll(json: Codec, c: Client, evts: seq<Event>)
    ensures ProcessAll(json, c, evts) ==
            Client(c.received + MessagesIn(json, evts), LastIdOf(evts, c.lastEventId))
    decreases |evts|
  {
    if evts == [] {
      assert c.received + [] == c.received;
    } else {
      var front, last := Front(evts), Last(evts);
      assert evts == front + [last];
      ProcessAllConcat(json, c, front, [last]);
      ProcessedAll(json, c, front);
      assert [last][1..] == [];
      Reassociate(c.received, MessagesIn(json, front), Decoded(json, last));
    }
  }

  /** What one item does: only a frame is a message, and it moves the last event id. */
  lemma ProcessItem(json: Codec, c: Client, item: Item)
    requires Identified(item)
    ensures ProcessAll(json, c, EventOf(item)) ==
            if item.Frame? then Client(c.received + Decoded(json, EventOf(item)[0]), item.id) else c
  {
    var evts := EventOf(item);
    if evts != [] {
      assert evts[1..] == [] && ProcessAll(json, c, evts) == Process(json, c, evts[0]);
    }
  }

  /** The client keeps the messages of the frames and the id of the last one. */
  lemma {:induction false} ProcessItems(json: Codec, c: Client, items: seq<Item>)
    requires AllIdentified(items)
    ensures ProcessAll(json, c, EventsOf(items)) ==
            Client(c.received + AllDecoded(json, FrameEvents(items)), LastIdOr(FrameEvents(items), c.lastEventId))
    decreases |items|
  {
    if items == [] {
      assert c.received + [] == c.received;
    } else {
      var head, tail := EventOf(items[0]), FrameEvents(items[1..]);
      ProcessAllConcat(json, c, head, EventsOf(items[1..]));
      ProcessItem(json, c, items[0]);
      ProcessItems(json, ProcessAll(json, c, head), items[1..]);
      if items[0].Frame? {
        assert (head + tail)[1..] == tail;
        Reassociate(c.received, Decoded(json, head[0]), AllDecoded(json, tail));
      } else {
        assert [] + tail == tail;
      }
    }
  }

  lemma {:induction false} DecodesAll(json: Codec, entries: seq<Entry>)
    requires RoundTrips(json)
    ensures AllDecoded(json, EventsFor(json, entries)) == MessagesOf(entries)
  {
    if entries == [] {
    } else {
      DecodesAll(json, entries[1..]);
      assert EventsFor(json, entries)[1..] == EventsFor(json, entries[1..]);
      assert json.unmarshal(json.marshal(entries[0].message)) == Some(entries[0].message);
      assert MessagesOf(entries) == [entries[0].message] + MessagesOf(entries[1..]);
    }
  }

  /** With an id on every frame, what survives the scan is what some first items stand for. */
  lemma {:induction false} SurvivingPrefix(items: seq<Item>) returns (v: nat)
    requires AllIdentified(items)
    ensures v <= |items| && Surviving(items) == EventsOf(items[..v]) && (AllFit(items) ==> v == |items|)
  {
    if items == [] || !Fits(items[0]) {
      v := 0;
    } else {
      v := SurvivingPrefix(items[1..]);
      v := v + 1;
      assert items[..v][0] == items[0] && items[..v][1..] == items[1..][..v - 1];
    }
  }

  lemma {:induction false} WholePrint(items: seq<Item>)
    ensures Whole(items, |Print(items)|) == |items|
  {
    if items == [] {
    } else {
      WholePrint(items[1..]);
    }
  }

  /** The events of a cut connection: those of the first so many items. */
  lemma CutDelivers(items: seq<Item>, cut: nat) returns (v: nat)
    requires AllPrintable(items) && AllIdentified(items) && cut <= |Print(items)|
    ensures v <= |items| && ScanFrom(Idle([]), Print(items)[..cut]).events == EventsOf(items[..v])
    ensures AllFit(items) && cut == |Print(items)| ==> v == |items|
  {
    var whole := items[..Whole(items, cut)];
    CutDeliversWholeItems(Idle([]), items, cut);
    v := SurvivingPrefix(whole);
    if cut == |Print(items)| {
      WholePrint(items);
    }
    assert [] + Surviving(whole) == Surviving(whole) && whole[..v] == items[..v];
  }

  /** A connection, cut anywhere, hands the client the messages of the first so many entries sent on it. */
  lemma ConnectionReceives(json: Codec, c: Client, items: seq<Item>, cut: nat, entries: seq<Entry>) returns (n: nat)
    requires RoundTrips(json) && AllPrintable(items) && AllIdentified(items) && cut <= |Print(items)|
    requires Carries(json, items, entries)
    ensures n <= |entries| && (AllFit(items) && cut == |Print(items)| ==> n == |entries|)
    ensures Receive(json, c, items, cut) ==
            Client(c.received + MessagesOf(entries[..n]), if n == 0 then c.lastEventId else entries[n - 1].eventId)
  {
    var v := ReceivesFrames(json, c, items, cut);
    n := FramesOfPrefix(json, items, v, entries);
    EventsReceived(json, c.lastEventId, entries, n);
  }

  lemma ReceivesFrames(json: Codec, c: Client, items: seq<Item>, cut: nat) returns (v: nat)
    requires AllPrintable(items) && AllIdentified(items) && cut <= |Print(items)|
    ensures v <= |items| && (AllFit(items) && cut == |Print(items)| ==> v == |items|)
    ensures var frames := FrameEvents(items[..v]);
            Receive(json, c, items, cut) ==
            Client(c.received + AllDecoded(json, frames), LastIdOr(frames, c.lastEventId))
  {
    v := CutDelivers(items, cut);
    ProcessItems(json, c, items[..v]);
  }

  /** The frames among the first items are those of the first entries. */
  lemma FramesOfPrefix(json: Codec, items: seq<Item>, v: nat, entries: seq<Entry>) returns (n: nat)
    requires v <= |items| && Carries(json, items, entries)
    ensures n <= |entries| && FrameEvents(items[..v]) == EventsFor(json, entries[..n])
    ensures v == |items| ==> n == |entries|
  {
    assert v == |items| ==> items[..v] == items;
    FrameEventsPrefix(items, v);
    n := |FrameEvents(items[..v])|;
    assert EventsFor(json, entries)[..n] == EventsFor(json, entries[..n]);
  }

  lemma EventsReceived(json: Codec, id: string, entries: seq<Entry>, n: nat)
    requires RoundTrips(json) && n <= |entries|
    ensures AllDecoded(json, EventsFor(json, entries[..n])) == MessagesOf(entries[..n])
    ensures LastIdOr(EventsFor(json, entries[..n]), id) == if n == 0 then id else entries[n - 1].eventId
  {
    DecodesAll(json, entries[..n]);
  }

  // ---- Delivery ----

  /** `received` is the log from `base` on, in order, nothing missing and nothing twice. */
  ghost predicate Stretch(received: seq<Message>, log: seq<Entry>, base: nat) {
    && (received != [] ==> base + |received| <= |log|)
    && (forall i :: 0 <= i < |received| ==> received[i] == log[base + i].message)
  }

  /** Besides, the client would resume exactly behind what it holds. */
  ghost predicate InSync(c: Client, log: seq<Entry>, sid: StreamId, base: nat) {
    && Stretch(c.received, log, base)
    && ResumePoint(c.lastEventId) == (sid, base + |c.received|)
  }

  lemma ResumeAfter(sid: StreamId, idx: nat)
    requires sid <= MAX_INT64 && idx <= MAX_INT64
    ensures ResumePoint(FormatEventId(sid, idx)) == (sid, idx + 1)
  {
    ParseInvertsFormat(sid, idx);
  }

  lemma WrittenAt(log: seq<Entry>, start: nat, next: nat, i: nat)
    requires i < |Mailbox.Written(log, start, next)|
    ensures start + i < |log| && Mailbox.Written(log, start, next)[i] == log[start + i]
  {
  }

  lemma StretchExtends(received: seq<Message>, log: seq<Entry>, base: nat, next: nat, n: nat)
    requires Stretch(received, log, base) && n <= |Mailbox.Written(log, base + |received|, next)|
    ensures Stretch(received + MessagesOf(Mailbox.Written(log, base + |received|, next)[..n]), log, base)
  {
    var start := base + |received|;
    var entries := Mailbox.Written(log, start, next);
    var all := received + MessagesOf(entries[..n]);
    forall i | 0 <= i < |all| ensures base + i < |log| && all[i] == log[base + i].message {
      if i >= |received| {
        var j := i - |received|;
        WrittenAt(log, start, next, j);
        assert all[i] == entries[j].message;
      }
    }
    if n == 0 {
      assert all == received;
    }
  }

  /** Receiving the first entries written from the resume point on keeps the client in step. */
  lemma SyncExtends(c: Client, c': Client, log: seq<Entry>, sid: StreamId, base: nat, next: nat, n: nat)
    requires InSync(c, log, sid, base) && NumberedLog(log, sid)
    requires n <= |Mailbox.Written(log, base + |c.received|, next)|
    requires var entries := Mailbox.Written(log, base + |c.received|, next);
             c' == Client(c.received + MessagesOf(entries[..n]),
                          if n == 0 then c.lastEventId else entries[n - 1].eventId)
    ensures InSync(c', log, sid, base)
  {
    var start := base + |c.received|;
    ReceivedMore(c, c', log, base, next, n);
    ResumesBehindEntry(c, log, sid, start, next, n);
  }

  /** The part of it about the messages. */
  lemma ReceivedMore(c: Client, c': Client, log: seq<Entry>, base: nat, next: nat, n: nat)
    requires Stretch(c.received, log, base) && n <= |Mailbox.Written(log, base + |c.received|, next)|
    requires c'.received == c.received + MessagesOf(Mailbox.Written(log, base + |c.received|, next)[..n])
    ensures Stretch(c'.received, log, base) && |c'.received| == |c.received| + n
  {
    StretchExtends(c.received, log, base, next, n);
  }

  /** The id of the last entry received leads behind it. */
  lemma ResumesBehindEntry(c: Client, log: seq<Entry>, sid: StreamId, start: nat, next: nat, n: nat)
    requires NumberedLog(log, sid) && n <= |Mailbox.Written(log, start, next)|
    requires ResumePoint(c.lastEventId) == (sid, start)
    ensures var entries := Mailbox.Written(log, start, next);
            ResumePoint(if n == 0 then c.lastEventId else entries[n - 1].eventId) == (sid, start + n)
  {
    if n > 0 {
      EntryId(log, sid, start, next, n - 1);
      ResumeAfter(sid, start + n - 1);
    }
  }

  lemma EntryId(log: seq<Entry>, sid: StreamId, start: nat, next: nat, i: nat)
    requires NumberedLog(log, sid) && i < |Mailbox.Written(log, start, next)|
    ensures start + i <= MAX_INT64 && Mailbox.Written(log, start, next)[i].eventId == FormatEventId(sid, start + i)
  {
    WrittenAt(log, start, next, i);
  }

  lemma SyncGrows(c: Client, log: seq<Entry>, log': seq<Entry>, sid: StreamId, base: nat)
    requires InSync(c, log, sid, base) && log <= log'
    ensures InSync(c, log', sid, base)
  {
  }

  lemma StartsInSync(c: Client, log: seq<Entry>, sid: StreamId, base: nat)
    requires c.received == [] && ResumePoint(c.lastEventId) == (sid, base)
    ensures InSync(c, log, sid, base)
  {
  }

  /**
   One connection, cut anywhere, keeps the client in step with the log it resumed:
   over-long messages, endpoint events and keep-alives included.
   */
  lemma ConnectionKeepsStep(json: Codec, c: Client, items: seq<Item>, cut: nat, log: seq<Entry>,
                            sid: StreamId, base: nat, next: nat)
    requires RoundTrips(json) && NumberedLog(log, sid) && cut <= |Print(items)|
    requires InSync(c, log, sid, base)
    requires Carries(json, items, Mailbox.Written(log, base + |c.received|, next))
    ensures InSync(Receive(json, c, items, cut), log, sid, base)
  {
    var start := base + |c.received|;
    CarriedIsPrintable(json, items, log, sid, start, next);
    var n := ConnectionReceives(json, c, items, cut, Mailbox.Written(log, start, next));
    SyncExtends(c, Receive(json, c, items, cut), log, sid, base, next, n);
  }

  /** A connection that arrives whole, from a reader at the end of its log, leaves nothing out. */
  lemma WholeConnection(json: Codec, c: Client, items: seq<Item>, log: seq<Entry>, sid: StreamId, start: nat, next: nat)
    requires RoundTrips(json) && NumberedLog(log, sid) && AllFit(items) && start <= |log| == next
    requires Carries(json, items, Mailbox.Written(log, start, next))
    ensures |Receive(json, c, items, |Print(items)|).received| == |c.received| + |log| - start
  {
    CarriedIsPrintable(json, items, log, sid, start, next);
    var n := ConnectionReceives(json, c, items, |Print(items)|, Mailbox.Written(log, start, next));
  }
}
