/** JSON-RPC messages and the per-stream logs of a streamable session. */
module Messages {
  import opened Common
  import opened EventId

  /** A JSON-RPC id other than null; only equality of ids matters to the transport. */
  type Id(==, !new)

  /** `JSONRPCMessage`: `body` stands for params, result and error. */
  datatype Message = Message(id: Option<Id>, methodName: string, body: string) {
    predicate IsRequest() {
      id.Some? && methodName != ""
    }

    predicate IsNotification() {
      id.None? && methodName != ""
    }

    predicate IsResponse() {
      methodName == ""
    }

    predicate Answers(q: Id) {
      methodName == "" && id == Some(q)
    }
  }

  /** `streamableMsg`: a message with the event id it is sent under. */
  datatype Entry = Entry(message: Message, eventId: string)

  type StreamId = nat

  type Logs = map<StreamId, seq<Entry>>

  /** Reading a Go map of slices: an absent stream has the empty log. */
  function Log(logs: Logs, sid: StreamId): seq<Entry> {
    if sid in logs then logs[sid] else []
  }

  /** The entry a message becomes when it is stored on `sid`. */
  function NewEntry(logs: Logs, sid: StreamId, m: Message): Entry {
    Entry(m, FormatEventId(sid, |Log(logs, sid)|))
  }

  function Append(logs: Logs, sid: StreamId, m: Message): Logs {
    logs[sid := Log(logs, sid) + [NewEntry(logs, sid, m)]]
  }

  /** Entry `i` of stream `sid` carries the event id (sid, i). */
  ghost predicate Numbered(logs: Logs) {
    forall sid, i :: sid in logs && 0 <= i < |logs[sid]| ==>
      logs[sid][i].eventId == FormatEventId(sid, i)
  }
}
