/**
 `StreamableServerTransport` as the object it is: methods that update maps, logs
 and wake channels under one lock. Each lock region is a method proved against
 the step function that the run theorems of `Routing` and `Mailbox` are about.
 */
module StreamableServer {
  import opened Common
  import opened EventId
  import opened Messages
  import Routing
  import Mailbox

  class StreamableServerTransport {
    var nextStreamID: nat
    var isDone: bool
    var outgoingMessages: Logs
    var clientRequestStreams: map<Id, StreamId>
    var serverRequestStreams: map<Id, StreamId>
    var lastRequestStream: StreamId
    var signals: map<StreamId, Mailbox.Chan>
    /** The wake channels made so far, and whether each holds its token. */
    var slots: map<Mailbox.Chan, bool>
    var nextChan: nat
    /** The request POSTs so far: their stream numbers and request ids. */
    ghost var posts: map<StreamId, Id>

    ghost predicate Valid()
      reads this
    {
      && (forall c :: c in slots ==> c < nextChan)
      && (forall sid :: sid in signals ==> signals[sid] in slots)
    }

    ghost function Routes(): Routing.Transport
      reads this
    {
      Routing.Transport(nextStreamID, isDone, posts, clientRequestStreams, serverRequestStreams,
                        lastRequestStream, outgoingMessages)
    }

    ghost function Hub(): Mailbox.Hub
      reads this
    {
      Mailbox.Hub(outgoingMessages, isDone, signals, slots, map[])
    }

    constructor ()
      ensures Valid() && Routes() == Routing.INITIAL && Hub() == Mailbox.EMPTY
    {
      nextStreamID, isDone, outgoingMessages := 0, false, map[];
      clientRequestStreams, serverRequestStreams, lastRequestStream := map[], map[], 0;
      signals, slots, nextChan, posts := map[], map[], 0, map[];
    }

    /** `nextStreamID.Add(1)` in `handleMessage`. */
    method Allocate() returns (sid: StreamId)
      modifies this`nextStreamID
      ensures Routes() == Routing.Next(old(Routes()), Routing.Allocate)
      ensures sid == nextStreamID && sid == old(nextStreamID) + 1
    {
      nextStreamID := nextStreamID + 1;
      sid := nextStreamID;
    }

    /** The correlation part of `receive`; what reaches `incoming` does not concern it. */
    method Receive(msg: Message, sid: StreamId)
      modifies this`clientRequestStreams, this`serverRequestStreams, this`lastRequestStream, this`posts
      ensures Routes() ==
              if msg.IsRequest() then Routing.Next(old(Routes()), Routing.ReceiveRequest(msg.id.value, sid))
              else if msg.id.Some? then Routing.Next(old(Routes()), Routing.ReceiveResponse(msg.id.value))
              else old(Routes())
    {
      if msg.id.Some? && msg.methodName != "" {
        clientRequestStreams := clientRequestStreams[msg.id.value := sid];
        lastRequestStream := sid;
        posts := posts[sid := msg.id.value];
      } else if msg.id.Some? {
        serverRequestStreams := serverRequestStreams - {msg.id.value};
      }
    }

    method GetStreamID(msg: Message) returns (sid: StreamId)
      modifies this`serverRequestStreams
      ensures sid == Routing.StreamFor(old(Routes()), msg)
      ensures serverRequestStreams == Routing.PinsAfter(old(Routes()), msg)
    {
      if msg.methodName != "" && msg.id.None? {
        return lastRequestStream;
      }
      if msg.methodName != "" {
        if msg.id.value in serverRequestStreams {
          return serverRequestStreams[msg.id.value];
        }
        serverRequestStreams := serverRequestStreams[msg.id.value := lastRequestStream];
        return lastRequestStream;
      }
      if msg.id.Some? && msg.id.value in clientRequestStreams {
        return clientRequestStreams[msg.id.value];
      }
      return 1;
    }

    method ReleaseClientRequest(id: Id)
      modifies this`clientRequestStreams, this`serverRequestStreams, this`lastRequestStream
      ensures Routes() == Routing.Release(old(Routes()), id)
    {
      if id !in clientRequestStreams {
        return;
      }
      var sid := clientRequestStreams[id];
      clientRequestStreams := clientRequestStreams - {id};
      var pinned := serverRequestStreams.Keys;
      while pinned != {}
        invariant pinned <= serverRequestStreams.Keys <= old(serverRequestStreams).Keys
        invariant forall k :: k in serverRequestStreams ==> serverRequestStreams[k] == old(serverRequestStreams)[k]
        invariant forall k :: k in serverRequestStreams && serverRequestStreams[k] == sid ==> k in pinned
        invariant forall k :: k in old(serverRequestStreams) && old(serverRequestStreams)[k] != sid ==>
                    k in serverRequestStreams
        modifies this`serverRequestStreams
        decreases |pinned|
      {
        var srvID :| srvID in pinned;
        pinned := pinned - {srvID};
        if serverRequestStreams[srvID] == sid {
          serverRequestStreams := serverRequestStreams - {srvID};
        }
      }
      assert serverRequestStreams == Routing.Release(old(Routes()), id).server;
      if lastRequestStream == sid {
        lastRequestStream := 0;
      }
    }

    /** `Write`: false stands for the transport-closed error. */
    method Write(msg: Message) returns (ok: bool)
      requires Valid()
      modifies this`outgoingMessages, this`slots, this`clientRequestStreams,
               this`serverRequestStreams, this`lastRequestStream
      ensures Valid() && ok == !old(isDone)
      ensures Routes() == Routing.Next(old(Routes()), Routing.Write(msg))
      ensures Hub() ==
              if ok then Mailbox.AppendStep(old(Hub()), Routing.StreamFor(old(Routes()), msg), msg)
              else old(Hub())
    {
      if isDone {
        return false;
      }
      var sid := GetStreamID(msg);
      var log := if sid in outgoingMessages then outgoingMessages[sid] else [];
      var entry := Entry(msg, FormatEventId(sid, |log|));
      outgoingMessages := outgoingMessages[sid := log + [entry]];
      if sid in signals {
        slots := slots[signals[sid] := true];
      }
      if msg.methodName == "" && msg.id.Some? {
        ReleaseClientRequest(msg.id.value);
      }
      return true;
    }

    method Close()
      modifies this`isDone
      ensures Routes() == Routing.Next(old(Routes()), Routing.Close)
      ensures Hub() == Mailbox.Next(old(Hub()), Mailbox.Close)
    {
      isDone := true;
    }

    /**
     The flush loop of `streamMessages`: entries from `resumeIndex` on are written
     in order and the index ends behind them.
     */
    method FlushFrom(sid: StreamId, resumeIndex: nat, ghost r: Mailbox.Reader)
      returns (written: seq<Entry>, index: nat)
      requires r.next == resumeIndex
      ensures Mailbox.FlushReader(r, Log(outgoingMessages, sid)) == r.(out := r.out + written, next := index)
    {
      written, index := [], resumeIndex;
      if sid in outgoingMessages {
        var messages := outgoingMessages[sid];
        var i := resumeIndex;
        while i < |messages|
          invariant resumeIndex <= i && (i == resumeIndex || i <= |messages|)
          invariant index == i
          invariant written == if i <= |messages| then messages[resumeIndex..i] else []
        {
          written := written + [messages[i]];
          index := i + 1;
          i := i + 1;
        }
      }
      assert index == resumeIndex ==> r.out + written == r.out;
    }

    /** `make(chan struct{}, 1)` stored for `sid`. */
    method RegisterSignal(sid: StreamId) returns (ch: Mailbox.Chan)
      requires Valid()
      modifies this`signals, this`slots, this`nextChan
      ensures Valid() && ch !in old(slots)
      ensures signals == old(signals)[sid := ch] && slots == old(slots)[ch := false]
    {
      ch := nextChan;
      nextChan := nextChan + 1;
      slots := slots[ch := false];
      signals := signals[sid := ch];
    }

    /** The read region of `waitStreamMessage`. */
    method CheckStream(sid: StreamId, idx: nat, ghost r: Mailbox.Reader)
      returns (msg: Option<Entry>, done: bool)
      requires r.next == idx && r.got.None?
      ensures Mailbox.CheckReader(r, Log(outgoingMessages, sid), isDone) ==
              r.(got := msg, pc := if msg.Some? || done then Mailbox.Leaving else Mailbox.Waiting)
    {
      if sid in outgoingMessages && idx < |outgoingMessages[sid]| {
        return Some(outgoingMessages[sid][idx]), isDone;
      }
      return None, isDone;
    }

    /** The deferred removal of `streamMessages`: whatever is registered for the stream is gone. */
    method DeregisterGet(sid: StreamId, ghost r: Mailbox.Reader)
      requires Valid() && r.kind.Get? && r.sid == sid
      modifies this`signals
      ensures Valid() && signals == Mailbox.SignalsAfterLeaving(r, old(signals))
      ensures sid !in signals
      ensures forall s :: s != sid && s in old(signals) ==> s in signals && signals[s] == old(signals)[s]
    {
      signals := signals - {sid};
    }

    /** The deferred removal of `waitStreamMessage`: a channel registered by a later reader stays. */
    method DeregisterPost(sid: StreamId, ch: Mailbox.Chan, ghost r: Mailbox.Reader)
      requires Valid() && r.kind.Post? && r.sid == sid && r.ch == ch
      modifies this`signals
      ensures Valid() && signals == Mailbox.SignalsAfterLeaving(r, old(signals))
      ensures !(sid in signals && signals[sid] == ch)
      ensures forall s :: s in old(signals) && (s != sid || old(signals)[s] != ch) ==>
                s in signals && signals[s] == old(signals)[s]
    {
      if sid in signals && signals[sid] == ch {
        signals := signals - {sid};
      }
    }
  }
}
