# Verified model of the MCP toolkit's protocol cores

A Dafny model of the parts of this Go MCP implementation whose correctness
spans several functions and goroutines, with proofs of what they promise. Each
module models one component:

- **Streamable HTTP session.** `EventId`, `Messages`, `Routing`, `Mailbox`,
  `ReaderProgress`, `StreamSystem`, `StreamableServer`, `Sse`, `Resume`, `Delivery`.
  POSTs draw stream numbers, two maps and a current stream decide where an outgoing message
  is stored, readers drain the logs through one-slot wake channels, and a GET
  resumes from `Last-Event-ID`.
- **Session table.** `Sessions`: creation under a cap, deletion, the idle reaper
  and Serve goroutines that remove their own entries.
- **Rate limiters.** `TokenBucket` and `SlidingWindow`, and in `Eviction` the
  concurrent map and the background clean-up they share.
- **Pagination.** `Base64Url` and `Pagination`: opaque cursors over registries
  that grow while a client walks them.
- **Pools.** `Sdk2Pool` (exp/sdk2/pool.go) and `TransportPool`
  (connection_pool.go).
- **Smaller cores.** `NonceGuard`, `Sanitizer`, `Middleware`; `Sorting` and
  `Common` are shared.

Concurrency is modelled as interleaving: an event is one lock region or one
channel operation, `Next` is its effect, `Legal` event sequences are the runs,
and the run theorems quantify over all of them. Where the Go code updates an
object, a class with the same fields has one method per lock region, and each
method's postcondition equates the new state with the step function the theorems
are about. Clocks, dialling, pinging, `json.Marshal` and the order in which Go
walks a map are parameters or free choices.

Assumptions about the outside world are predicates of the event history:
`Routing.NoReuse` (clients do not reuse an id in flight), `Routing.AnsweredOnce`
(the server answers requests in flight, once) and `Mailbox.SingleReader` (one
registered reader per stream). Each comes with a lemma saying exactly when a step
without it keeps the invariant, and with a concrete failing run.
`Delivery.SessionDelivery` needs none of them; it takes from the JSON package that
a message becomes one trimmed line that decodes to the same message.

## Main results

1. `StreamSystem.PostLoopWritesWholeStream`, `Routing.StreamFinality`,
   `Routing.ResponseEndsItsStream`: the response ends its own stream for ever,
   and the POST loop writes all of it; `StreamSystem.PostLoopEndsIff` and
   `StreamSystem.PostLoopFinishes`: it stops for no other reason, and gets there.
2. `Mailbox.NoLostWakeUpInRuns`: no interleaving loses a wake-up.
3. `Delivery.SessionDelivery`: exactly-once, in-order delivery across reconnects
   cut at any byte; `Delivery.FreshClientDelivery` and `Delivery.CompleteDelivery`:
   where it starts and how far it goes.
4. `Routing.CorrelationInvariant`: no dangling correlation in any reachable state.
5. `Pagination.TraversalUnderGrowth` and `Pagination.WalkPages`.
6. `TokenBucket.DeniedPerKeyIff`, `SlidingWindow.AdmittedPerKeyIff`, both
   `AdmittedPerKey` and both `InterleavedEvictionIff`: the limiters' exact laws and
   bounds with clean-up running, and exactly when clean-up shows.
7. `Sdk2Pool.Conservation`, `Sdk2Pool.ExclusiveLeasesIff`, `Sdk2Pool.CapRespectedIff`,
   `TransportPool.OpenPoolSafety`, `TransportPool.ClosedExactlyOnce`.
8. `Sessions.SessionTableInvariant`, `Sessions.NewerSessionStays` and
   `Sessions.ReapedIff`.
9. `NonceGuard.AtMostOnceIff`, `Sse.RoundTripIff`, `Sanitizer.InTurnIsOnePass`,
   `Sanitizer.UniqueResultIff`, `Middleware.RequestOrder`.

## Where the code departs from its own words

The model follows the code.

- transport_streamable.go:230-232 says a too-large `Last-Event-ID` resumes at the
  end. The index is kept as it is, so entries are skipped until the log has grown
  past it (`Mailbox.OpenedAtIff`, `Mailbox.OpenedBeyondEndSkips`).
- transport_streamable.go:654: a response with an unknown or null id goes to
  stream 1, which is also the stream of the first POST
  (`Routing.WriteKeepsFinalityIff`).
- transport_streamable.go:783-806: an event made of data alone is dropped, since
  emptiness is decided before the data is copied (`Sse.DataOnlyEventIsDropped`).
- pagination.go:20-22 says an unknown cursor yields an empty page. Only a
  malformed one does; a well-formed unknown key continues behind that key
  (`Pagination.EmptyPageIff`, `Pagination.UnknownCursorContinues`).
- ratelimit.go:304-317 and 603-616: eviction changes answers for slow rules and
  long windows, and for every key if a request falls between the idle check and the
  delete, or between finding an object and using it (both `InterleavedEvictionIff`).
- ratelimit.go:517-539: a rule without a window falls back to the default window,
  but its limit is the rate times its own window of zero, so it admits nothing
  (`SlidingWindow.RuleBlocksIff`).
- exp/sdk2/pool.go:263-267: the idle time runs from when a connection was handed
  out, so one that was busy for longer is closed as idle when it comes back
  (`Sdk2Pool.KeptOnReturnIff`, `Sdk2Pool.BusyIsClosedAsIdle`).
- auth_security.go:591-608: freshness is checked before the nonce is claimed, so a
  goroutine delayed between the two can accept a replay
  (`NonceGuard.AtMostOnceIff`).
- exp/sdk2/pool.go:111-126: the cap is checked and used under separate locks
  (`Sdk2Pool.CapRespectedIff`); a negative `SetMaxIdleConns` panics.
- exp/sdk2/pool.go:420-423: a connection is handed out bare, so a second `Close` by
  an earlier holder returns it from under the present one
  (`Sdk2Pool.ExclusiveLeasesIff`, `Sdk2Pool.TwoHolders`).
- connection_pool.go:166-167: `Close` zeroes the active count without ending the
  leases (`TransportPool.CountAfterClose`).
- transport_streamable.go:441-449 with safego.go:30-45: a panic in Serve is
  recovered past the removal of the entry (`Sessions.PanicLeavesEntry`).
- security.go:348-385: an array limit of zero or less still keeps one item
  (`Sanitizer.ArrayLimitIff`), and keys that collide after sanitizing lose a field
  (`Sanitizer.UniqueResultIff`).

## Model

| member | source | states |
|---|---|---|
| `EventId.ParseInvertsFormat` | transport_streamable.go:844-866 | Parsing a printed event id gives back the pair exactly when both parts are non-negative and fit 64 bits; every other pair is rejected. |
| `EventId.FormatInjective` | transport_streamable.go:844-847 | Two positions never share an event id. |
| `EventId.ParseFormatInt` | transport_streamable.go:849-866 | The decimal parser inverts decimal printing exactly on the 64-bit range. |
| `EventId.ParseEventIdIff` | transport_streamable.go:849-866 | A text is accepted, as the position (s, i), if and only if it is two decimal numbers, not negative and within 64 bits, joined by one underscore. |
| `Routing.RunClientKeys` | transport_streamable.go:527-614 | After every event history the keys of the client map are the requests received and not yet answered, read off the history alone. |
| `Routing.CorrelationInvariant` | transport_streamable.go:568-655 | In every reachable state, if ids in flight are not reused: streams of requests in flight are pairwise distinct, the current stream and every pin of a server request are 0 or the stream of a request in flight. |
| `Routing.ReceiveKeepsCorrelationIff` | transport_streamable.go:600-608 | Receiving a request keeps that invariant if and only if its id is free, or is in flight on a stream nothing is pinned to. |
| `Routing.RunFinality` | transport_streamable.go:527-655 | In every run under the two assumptions each request stream either has no response yet or ends with its own, and streams nobody owns stay empty. |
| `Routing.StreamFinality` | transport_streamable.go:295-330 | A response on the stream of a request POST answers that request, is the only response there and is the last entry. |
| `Routing.ResponseEndsItsStream` | transport_streamable.go:527-563 | The first answer the server writes to a request is appended to the stream of its POST, and that stream is complete for the rest of the run. |
| `Routing.NothingAfterResponse` | transport_streamable.go:527-582 | Once a response is on a request stream, no later event of the run appends to it. |
| `Routing.FinishedStreamRun` | transport_streamable.go:568-582 | A stream whose request was answered has the same log at any later point of the run. |
| `Routing.WriteKeepsFinalityIff` | transport_streamable.go:628-655 | A write keeps finality if and only if it is no response or answers a request in flight; a null or unknown id falls back to stream 1 and breaks it. |
| `Routing.CurrentStream` | transport_streamable.go:568-614 | The current stream is that of the request received last until that request is answered, then 0, stated over the event history. |
| `Routing.NoCurrentStream` | transport_streamable.go:628-635 | Before any request the current stream is the standalone stream 0. |
| `Routing.ServerMessageFollowsRequest` | transport_streamable.go:628-649 | A notification or a new server request is appended to the stream of the last received request while that is unanswered, otherwise to stream 0, and no other log changes. |
| `Routing.PinLostIff` | transport_streamable.go:568-582 | A pin disappears if and only if the client answers the server request or the server answers the client request it is pinned to, and never moves before that. |
| `Routing.PinnedSince` | transport_streamable.go:638-646 | A pin is the stream that was current when the server request was first sent, and has been there ever since. |
| `Routing.SentAgainSameStream` | transport_streamable.go:638-646 | A server request sent again under a pinned id is appended to the stream it was first sent on, whatever is current by now. |
| `Routing.NumbersInOrder` | transport_streamable.go:296-296 | POSTs draw the stream numbers 1, 2, 3 and so on: the counter is the number of allocations of the run. |
| `Routing.RunNumbered` | transport_streamable.go:538-546 | In every run entry i of stream s carries the event id (s, i). |
| `Routing.LogsGrow` | transport_streamable.go:546-546 | No event removes or changes an entry of any log. |
| `Routing.SecondAnswerFollowsFinalResponse` | transport_streamable.go:651-655 | Concrete run: answering twice appends a second response after the final one on stream 1. |
| `Routing.ReusedIdLosesResponse` | transport_streamable.go:600-608 | Concrete run: reusing an id in flight leaves the first POST without a response. |
| `Mailbox.RunWakeInvariant` | transport_streamable.go:658-774 | With one registered reader per stream, every interleaving keeps: registered readers own the signal of their stream, channels are not shared, and a blocked reader that is behind holds a token. |
| `Mailbox.NoLostWakeUpInRuns` | transport_streamable.go:546-554 | A reader blocked at its select below the length of its log can always be woken. |
| `Mailbox.SecondReaderLosesWakeUpIff` | transport_streamable.go:740-744 | A parked reader still hears of later writes after another reader registers if and only if that one registered for a different stream. |
| `Mailbox.FinishingGetSilencesIff` | transport_streamable.go:693-697 | The unchecked delete of a finishing GET leaves a parked reader its wake-ups if and only if the two read different streams. |
| `Mailbox.RunFaithful` | transport_streamable.go:658-774 | In every interleaving, with any number of readers, each reader has written its log from its start to its index, and a POST reader stops at its response. |
| `Mailbox.ReadersWriteTheLog` | transport_streamable.go:658-726 | What a reader wrote is one contiguous stretch of the log, in order, beginning where it was opened. |
| `Mailbox.TwoGetsLoseWakeUp` | transport_streamable.go:674-691 | Concrete run of two GETs on one stream that ends with the first blocked behind its log and no token. |
| `Mailbox.OpenedAtIff` | transport_streamable.go:223-237 | In every run, a GET opened at index i on a log of length n, whenever caught up, has written every entry stored since if and only if i <= n or nothing was stored. |
| `Mailbox.OpenedBeyondEndSkips` | transport_streamable.go:230-237 | Concrete run: a GET opened one beyond the end never writes the next entry. |
| `Mailbox.FlushCatchesUp` | transport_streamable.go:658-691 | Each of the three flushes of a GET writes exactly the log from its index to its end. |
| `ReaderProgress.PostEndsIff` | transport_streamable.go:318-330 | In every run a POST loop ends if and only if the last entry it wrote answers its own request, or it quit at its select, or it found the transport closed with nothing left to read; it is stopped exactly when, besides, its signal is removed. |
| `ReaderProgress.WritesNext` | transport_streamable.go:753-773 | From any point of any run, a POST loop with something to read writes exactly the next entry by a few steps of its own. |
| `ReaderProgress.PostFinishes` | transport_streamable.go:318-330 | From any point of any run, once the response is on its stream, a POST loop that has not ended writes the stream up to it and stops, by steps of its own. |
| `ReaderProgress.GetCatchesUp` | transport_streamable.go:658-726 | From any point of any run, a GET that has not ended comes to wait at the end of its log by steps of its own. |
| `ReaderProgress.TokenIff` | transport_streamable.go:546-554 | In every run with one reader per stream, the channel of a registered reader holds a token if and only if an entry was stored since it registered or last took one. |
| `StreamSystem.TransportProjection` | transport_streamable.go:527-655 | The transport half of every run of the whole session is a run of the correlation machine. |
| `StreamSystem.HubProjection` | transport_streamable.go:658-774 | The reader half of every run of the whole session is a run of the reader machine over the same logs. |
| `StreamSystem.PostLoopStopped` | transport_streamable.go:318-330 | A POST loop that wrote its response has stopped and has written everything on its stream. |
| `StreamSystem.PostLoopWritesWholeStream` | transport_streamable.go:318-330 | Whatever happens later in the run, the stream holds exactly what the POST loop wrote, in order, also when client and server ids coincide. |
| `StreamSystem.BlockedReaderIsWoken` | transport_streamable.go:740-774 | No lost wake-up, for the session as a whole. |
| `StreamSystem.PostLoopEndsIff` | transport_streamable.go:318-330 | The same condition for the end of a POST loop in every run of the whole session. |
| `StreamSystem.PostLoopFinishes` | transport_streamable.go:318-330 | In every run of the session, once its request is answered, a POST loop that has not given up can write the whole stream, response last, and stop, by steps of its own. |
| `StreamSystem.GetLoopCatchesUp` | transport_streamable.go:658-726 | In every run of the session, a GET that has not ended can come to the end of its log by steps of its own. |
| `StreamableServer.StreamableServerTransport.constructor` | transport_streamable.go:491-503 | A new transport is the initial state of both machines. |
| `StreamableServer.StreamableServerTransport.Allocate` | transport_streamable.go:296-296 | Draws the next stream number, as the allocation step. |
| `StreamableServer.StreamableServerTransport.Receive` | transport_streamable.go:600-614 | Updates the two maps and the current stream as the receive steps say, for requests, responses and notifications. |
| `StreamableServer.StreamableServerTransport.GetStreamID` | transport_streamable.go:628-655 | Returns the stream of the routing function and leaves the pins it prescribes. |
| `StreamableServer.StreamableServerTransport.ReleaseClientRequest` | transport_streamable.go:568-582 | The deletion loop over the pins computes the release step. |
| `StreamableServer.StreamableServerTransport.Write` | transport_streamable.go:527-563 | One call is the write step of the correlation machine and the append step of the reader machine; on a closed transport nothing changes. |
| `StreamableServer.StreamableServerTransport.Close` | transport_streamable.go:585-598 | Closing is the close step of both machines. |
| `StreamableServer.StreamableServerTransport.FlushFrom` | transport_streamable.go:666-672 | The flush loop writes the log from the index on, in order, and moves the index behind it; beyond the end it does nothing. |
| `StreamableServer.StreamableServerTransport.RegisterSignal` | transport_streamable.go:740-744 | Stores a new empty channel for the stream and leaves the others. |
| `StreamableServer.StreamableServerTransport.CheckStream` | transport_streamable.go:753-765 | Returns the message at the index, or the closed flag, as the check step of a waiting POST. |
| `StreamableServer.StreamableServerTransport.DeregisterGet` | transport_streamable.go:693-697 | Afterwards nothing is registered for the stream, whoever registered it, and other streams keep their channels. |
| `StreamableServer.StreamableServerTransport.DeregisterPost` | transport_streamable.go:745-751 | Afterwards its own channel is not registered; a channel registered by a later reader and other streams stay. |
| `Sse.ScanEvents` | transport_streamable.go:788-841 | The line loop over mutable fields yields the events and the error of the scanning function. |
| `Sse.ScanPrinted` | transport_streamable.go:729-738 | For any printable items, the events yielded are exactly those with an id or a name before the first over-long line, and there is an error exactly if a line is too long. |
| `Sse.RoundTripIff` | transport_streamable.go:788-841 | Scanning what was printed yields exactly the events printed, in order and without error, if and only if every frame has an id and every line fits; keep-alives and endpoint events may stand anywhere. |
| `Sse.EventOfFields` | transport_streamable.go:788-841 | Any fields in any order and a blank line yield one event with the last name, the last id and all data lines joined by newlines, or none without a name and an id. |
| `Sse.MalformedLineStops` | transport_streamable.go:814-818 | A line without a colon ends the scan with that error; what was yielded before stays. |
| `Sse.CarriageReturnIsDropped` | transport_streamable.go:788-797 | Lines ended by a carriage return and a newline scan like lines ended by a newline. |
| `Sse.TrimOff` | transport_streamable.go:820-826 | Spaces around a value are dropped and nothing of the value is. |
| `Sse.DataOnlyEventIsDropped` | transport_streamable.go:783-806 | An event of data alone is dropped, although section 9.2.6 of the WHATWG HTML Living Standard dispatches it. |
| `Sse.CutDeliversWholeItems` | transport_streamable.go:788-841 | A text cut at any byte yields exactly the surviving events of the items wholly before the cut, over-long lines and frames without id included. |
| `Resume.StreamableClientConnection.constructor` | transport_streamable_client.go:137-140 | A new connection has no last event id, no messages and no errors. |
| `Resume.StreamableClientConnection.HandleEvents` | transport_streamable_client.go:176-207 | The event loop queues the messages that decode, in order, and ends with the id of the last event that had one, decoded or not. |
| `Resume.StreamableClientConnection.ProcessEvents` | transport_streamable_client.go:166-208 | On the bytes of a connection the client state is the fold over the scanned events, and the error of the scan, if any, is reported. |
| `Resume.ResumeAfter` | transport_streamable.go:223-237 | A GET with the id of entry idx of stream sid starts at entry idx + 1 of that stream. |
| `Resume.ResumesBehind` | transport_streamable.go:223-237 | A GET whose Last-Event-ID names entry idx of stream sid, in any accepted spelling, starts at entry idx + 1 of that stream. |
| `Resume.ResumesAtStart` | transport_streamable.go:223-237 | A GET without the header, or with one that names no position, starts at entry 0 of stream 0. |
| `Resume.ProcessedAll` | transport_streamable_client.go:166-208 | For any events of any names: the client has queued the unnamed ones that decode, in order, and remembers the last non-empty id. |
| `Resume.EventIdIsOneLine` | transport_streamable.go:844-847 | Every event id prints as a non-empty trimmed line of its own. |
| `Resume.CarriedIsPrintable` | transport_streamable.go:729-738 | Whatever the server sends for entries of its log is printable, and every frame has an id. |
| `Resume.ConnectionReceives` | transport_streamable_client.go:166-208 | A connection cut at any byte hands the client exactly the messages of the first so many entries sent on it and the id of the last of them. |
| `Resume.ConnectionKeepsStep` | transport_streamable_client.go:204-206 | After one more connection, cut at any byte and with messages of any length, the client holds a gapless stretch of the log and would resume exactly behind it. |
| `Delivery.LogsGrowInRuns` | transport_streamable.go:546-546 | Over any part of a run every log is extended only at its end. |
| `Delivery.ConnectionsKeepSync` | transport_streamable_client.go:137-140 | The same after any number of reconnects. |
| `Delivery.SessionDelivery` | transport_streamable.go:210-265 | In every run of a session, with any traffic, message lengths and other readers, a client that reconnects any number of times with its last event id, each connection broken at any byte, has received the messages of one stream from its starting point on, each once and in order. |
| `Delivery.FreshClientDelivery` | transport_streamable.go:223-237 | In every run, a client that starts without a Last-Event-ID, or with one that names no position, has received stream 0 from entry 0 on. |
| `Delivery.ResumedClientDelivery` | transport_streamable.go:223-237 | In every run, a client that starts with the id of entry idx of stream sid has received that stream from entry idx + 1 on. |
| `Delivery.CompleteDelivery` | transport_streamable.go:658-726 | After a connection that arrived whole from a reader that had caught up, the client holds everything on the stream from its starting point. |
| `Sessions.SessionTableInvariant` | transport_streamable.go:405-451 | In every interleaving of create, start, return, delete, reap and self-removal the table is within its cap, an entry is a session of that id, a session still serving is listed or told to stop, and without a panic every entry has a goroutine left to remove it. |
| `Sessions.TendedStepIff` | safego.go:30-45 | A step keeps every entry tended if and only if it is not the panic of a listed session. |
| `Sessions.NoStrayStep` | transport_streamable.go:334-350 | No step takes a serving session off the table without telling it to stop. |
| `Sessions.NoSharedSession` | transport_streamable.go:405-438 | Two ids never share a session. |
| `Sessions.EntryRemovedOnlyByOwner` | transport_streamable.go:441-449 | An entry disappears if and only if its own goroutine removes it or its id is deleted, and never changes session. |
| `Sessions.NewerSessionStays` | transport_streamable.go:441-449 | Over any run, goroutines of older sessions never remove a newer session under the same id. |
| `Sessions.ActiveWhenTouched` | transport_streamable.go:113-115 | In every run a session was last active at the time of its last creation or touch in the history. |
| `Sessions.ReapedIff` | transport_streamable.go:138-149 | In every run the reaper collects a session if and only if it is listed and was last made or touched more than the timeout ago. |
| `Sessions.InUseIsNotReaped` | transport_streamable.go:138-149 | No session made or touched at t is collected at any time up to t + timeout. |
| `Sessions.CancelledIff` | transport_streamable.go:334-350 | In every run a session is cancelled if and only if the reaper or a delete of its id while it was listed told it to stop. |
| `Sessions.PanicLeavesEntry` | safego.go:30-45 | Concrete run: a panicking Serve leaves an entry none of its own steps can remove. |
| `Sessions.StreamableHTTPHandler.GetOrCreateSession` | transport_streamable.go:405-451 | Returns the listed session or a new one; fails for want of a server, or else exactly when the id is new and the table full; changes nothing when it fails. |
| `Sessions.StreamableHTTPHandler.AddSession` | transport_streamable.go:421-438 | The write-locked part: a session made meanwhile wins, a full table fails, otherwise one entry is added; the invariant is kept. |
| `Sessions.StreamableHTTPHandler.ServeReturned` | transport_streamable.go:441-449 | The end of a Serve goroutine is the self-removal step and keeps the invariant. |
| `Sessions.StreamableHTTPHandler.HandleSessionDelete` | transport_streamable.go:334-350 | Deletes and cancels under the lock, for a missing id too, and keeps the invariant. |
| `Sessions.StreamableHTTPHandler.Touch` | transport_streamable.go:113-115 | One call is the touch step and keeps the invariant. |
| `Sessions.StreamableHTTPHandler.CancelSessions` | transport_streamable.go:148-154 | The cancelling loop marks exactly the collected sessions and leaves the table. |
| `Sessions.StreamableHTTPHandler.ReapIdleSessions` | transport_streamable.go:138-149 | Collects exactly the listed sessions older than the cut-off, each once. |
| `Eviction.ForgettingIsInvisible` | ratelimit.go:304-317 | For any limiter whose idle objects are as good as new: over every interleaving of find, use, idle check and delete in which no deletion of a key overlaps with its requests, the answers for the key are those without clean-up. |
| `Eviction.StatelessIsInvisible` | ratelimit.go:304-317 | For a key whose answers do not depend on its object, any interleaving is invisible. |
| `Eviction.LateUseShows` | ratelimit.go:307-315 | A run in which a key is used up between its idle check and its delete, and is then answered differently. |
| `Eviction.PendingShows` | ratelimit.go:125-126 | A run in which a request uses the object it found before the delete, and the next request is answered differently. |
| `Eviction.SlowShows` | ratelimit.go:307-315 | A run without overlap in which an object not as good as new is deleted and the next request is answered differently. |
| `Eviction.AnswersOfOneObject` | ratelimit.go:228-259 | With undisturbed clean-up, the answers for a key are those of one object that is never deleted, to its calls in order. |
| `Eviction.FoundIdleIff` | ratelimit.go:304-317 | In every run the clean-up finds a key idle if and only if its object was last made or used more than the interval before the clean-up started. |
| `Eviction.RateLimiter.constructor` | ratelimit.go:85-110 | A new limiter is the start of the machine with even counters. |
| `Eviction.RateLimiter.Get` | ratelimit.go:228-259 | Finding the object of a key, made if missing, is the find step. |
| `Eviction.RateLimiter.Use` | ratelimit.go:124-138 | The rest of a request is the use step on the object found, in the table or not; the counters stay the sums over the answers given. |
| `Eviction.RateLimiter.AllowN` | ratelimit.go:124-138 | A request nothing comes between is find and use in a row. |
| `Eviction.RateLimiter.CheckIdle` | ratelimit.go:307-311 | The check of one key is the inspect step. |
| `Eviction.RateLimiter.DeleteKey` | ratelimit.go:313-315 | The delete that follows, by key, is the delete step. |
| `Eviction.RateLimiter.Cleanup` | ratelimit.go:304-317 | A clean-up nothing comes between removes exactly the keys whose object was last seen before the cut-off. |
| `TokenBucket.CallKeepsValid` | ratelimit.go:262-285 | Every call keeps 0 <= tokens <= burst. |
| `TokenBucket.AdmittedFromTokens` | ratelimit.go:262-285 | From any state a bucket admits at most its tokens plus what it earns until t. |
| `TokenBucket.AdmittedWithinInterval` | ratelimit.go:262-285 | Over any run of one bucket and any interval [s, t] at most burst + rate * (t - s) requests are admitted. |
| `TokenBucket.DeniedIff` | ratelimit.go:262-285 | The exact law over any run of one bucket: a call is denied if and only if since some moment the admissions, with this call, would exceed burst + rate * time; whatever was earned is given out. |
| `TokenBucket.EvictionInvisibleIff` | ratelimit.go:304-317 | The case of requests and clean-ups as single steps: clean-up is invisible on all sequences if and only if every key earns a full burst within the clean-up interval. |
| `TokenBucket.InterleavedEvictionIff` | ratelimit.go:304-317 | For each key and each allowed kind of overlap: clean-up is invisible in all interleavings if and only if the key earns a full burst within the clean-up interval and either no request overlaps with a deletion or the burst is zero. |
| `TokenBucket.AdmittedPerKey` | ratelimit.go:124-138 | The bound of the limiter: with undisturbed clean-up, a key is admitted at most burst + rate * (t - s) requests in any interval of any interleaved run. |
| `TokenBucket.DeniedPerKeyIff` | ratelimit.go:228-259 | The same law for the k-th request of a key of the limiter, with undisturbed clean-up, by the rule of the key or the defaults. |
| `TokenBucket.SlowRuleShows` | ratelimit.go:304-317 | For a slower rule, a run without overlap that is answered differently. |
| `TokenBucket.AtomicRequest` | ratelimit.go:124-138 | A request nothing comes between is the single step of the atomic case. |
| `TokenBucket.CleanupShows` | ratelimit.go:228-259 | For a key that does not, a concrete sequence is answered differently. |
| `TokenBucket.LiveBucket.constructor` | ratelimit.go:245-254 | A new bucket is full and has even counters. |
| `TokenBucket.LiveBucket.AllowN` | ratelimit.go:262-285 | One call is the bucket step; requests = allowed + rejected is kept. |
| `SlidingWindow.WindowIsRecentHistory` | ratelimit.go:542-560 | What a window remembers is exactly the part of its whole admission history inside the window, so pruning loses nothing a later window needs. |
| `SlidingWindow.AtMostMaxInEveryWindow` | ratelimit.go:542-574 | Over the whole run every interval (x, x + window], wherever it lies, holds at most the limit of admissions, or none. |
| `SlidingWindow.AdmittedIff` | ratelimit.go:542-574 | The exact law over any run of one window: a call is admitted if and only if it and all admissions of the run in the window that ends at it are within the limit. |
| `SlidingWindow.EvictionInvisibleIff` | ratelimit.go:603-616 | The case of requests and clean-ups as single steps: clean-up is invisible on all sequences if and only if for every key the window is within the clean-up interval or the limit admits nothing. |
| `SlidingWindow.InterleavedEvictionIff` | ratelimit.go:603-616 | For each key and each allowed kind of overlap: clean-up is invisible in all interleavings if and only if the window is within the clean-up interval or nothing is admitted, and either no request overlaps with a deletion or nothing is remembered. |
| `SlidingWindow.AdmittedPerKey` | ratelimit.go:403-417 | The bound of the limiter: with undisturbed clean-up, a key has at most its limit of admissions, or none, in every interval of its window length over any interleaved run. |
| `SlidingWindow.AdmittedPerKeyIff` | ratelimit.go:403-417 | The same law for the k-th request of a key of the limiter, with undisturbed clean-up. |
| `SlidingWindow.RuleAtLeast` | ratelimit.go:528-539 | The limit of a key with a rule is its rate times its own window rounded down, or the default if the rule has no rate. |
| `SlidingWindow.DefaultLimit` | ratelimit.go:517-539 | A key without a rule has the default window and limit. |
| `SlidingWindow.RuleBlocksIff` | ratelimit.go:517-539 | A rule never admits anything if and only if its rate times its own window is below one request, or, without a rate, the default limit is. |
| `SlidingWindow.LongWindowShows` | ratelimit.go:603-616 | For a longer window, a run without overlap that is answered differently. |
| `SlidingWindow.AtomicRequest` | ratelimit.go:403-417 | A request nothing comes between is the single step of the atomic case. |
| `SlidingWindow.OneMoreAnswers` | ratelimit.go:500-514 | For any other key, a concrete sequence is answered true with clean-up and false without. |
| `SlidingWindow.LiveWindow.AllowN` | ratelimit.go:542-574 | Both loops together are the window step; requests = allowed + rejected is kept. |
| `Base64Url.DecodeInvertsEncode` | pagination.go:43-53 | Decoding inverts encoding for every byte string (section 5 of RFC 4648, no padding). |
| `Base64Url.DecodedIsEncoding` | pagination.go:47-53 | What decodes is, without its line breaks and up to the unused bits of the last character, the encoding of the bytes it decodes to. |
| `Base64Url.Alphabet` | pagination.go:43-45 | The characters are those of table 2 of RFC 4648, in order. |
| `Base64Url.GroupBits` | pagination.go:43-45 | Four characters hold the 24 bits of three bytes, most significant first. |
| `Base64Url.EncodeEmptyIff` | pagination.go:43-45 | Only the empty key has the empty cursor. |
| `Pagination.SearchAfter` | pagination.go:33-33 | Binary search returns the boundary between the keys not after and after the cursor. |
| `Pagination.SortByKey` | pagination.go:24-24 | Sorting in place yields the stable sort of the items. |
| `Pagination.Paginate` | pagination.go:23-41 | The in-place sort, search and slice return the page function of the unsorted items. |
| `Pagination.PageContents` | pagination.go:23-41 | A page is increasing, at most a hundred long, holds only items after the cursor and the smallest of them; the last page holds all of them, any other is full and its cursor is non-empty and stands for its last key. |
| `Pagination.LessIff` | pagination.go:24-24 | Keys are ordered by their first differing byte, the end of a key before any byte. |
| `Pagination.EmptyPageIff` | pagination.go:20-34 | The page is empty if and only if the cursor is malformed or no item follows its key, and then there is no next cursor. |
| `Pagination.UnknownCursorContinues` | pagination.go:20-34 | Concrete registry and unknown cursor with a non-empty page. |
| `Pagination.OrderDoesNotMatter` | server.go:603-609 | Any two orders of walking the registry give the same page and cursor. |
| `Pagination.TraversalFrom` | pagination.go:23-41 | A finishing traversal from any cursor yields increasing keys, everything after the cursor that was there at its start, and nothing that is not there at its end. |
| `Pagination.TraversalUnderGrowth` | server.go:594-610 | While items are only added, a finishing traversal returns every item present at its start exactly once, keys strictly increasing across pages. |
| `Pagination.WalkStep` | pagination.go:36-40 | A request at position start returns the next hundred sorted items and a cursor for the position behind them, or the rest and no cursor. |
| `Pagination.WalkPages` | pagination_test.go:23-72 | Following cursors over a fixed registry terminates after the least number of pages, none longer than a hundred, which concatenate to the key-sorted registry. |
| `Pagination.Registry.Register` | server.go:859-892 | Adds an item exactly if its key is new and never changes another entry. |
| `Pagination.Registry.List` | server.go:594-610 | Collecting the map in any order and paginating gives the page of any listing of the registry. |
| `Sdk2Pool.Conservation` | exp/sdk2/pool.go:155-276 | In every run each connection is in exactly one place: idle, active or closed once; open = idle + active; registered = open + the three closing counters; the idle list is within its limit. |
| `Sdk2Pool.StepKeepsAccounts` | exp/sdk2/pool.go:220-276 | Every single step keeps these accounts. |
| `Sdk2Pool.PutKeepsHeldIff` | exp/sdk2/pool.go:220-230 | A return leaves every connection with its holder if and only if the lease is still out or nobody has its connection. |
| `Sdk2Pool.HeldThroughoutIff` | exp/sdk2/pool.go:420-423 | Over every run: at all times each active connection has exactly one outstanding lease and conversely, if and only if no lease was returned while its connection was in other hands. |
| `Sdk2Pool.ExclusiveLeasesIff` | exp/sdk2/pool.go:420-423 | Over all runs in which a lease is returned at most k times: no two outstanding leases share a connection if and only if k <= 1 or nothing can be opened. |
| `Sdk2Pool.TwoHolders` | exp/sdk2/pool.go:420-423 | Concrete run: after one lease was returned twice, two leases of one connection are out. |
| `Sdk2Pool.PutOutcome` | exp/sdk2/pool.go:220-270 | A returned connection is closed if and only if it is expired or the idle list is full, counted under the first reason that applies, and kept otherwise. |
| `Sdk2Pool.CapCheckIff` | exp/sdk2/pool.go:177-182 | In every run a getter passes the cap check if and only if fewer connections than the cap are idle or active. |
| `Sdk2Pool.RunAges` | exp/sdk2/pool.go:155-206 | In every run the two times of a connection are when it was dialled and when it was last handed out. |
| `Sdk2Pool.SweptIff` | exp/sdk2/pool.go:344-361 | In every run a sweep closes an idle connection if and only if by its history it was dialled or last handed out too long ago. |
| `Sdk2Pool.KeptOnReturnIff` | exp/sdk2/pool.go:220-270 | In every run a returned connection is kept if and only if it was dialled and handed out recently enough and the idle list has room. |
| `Sdk2Pool.BusyIsClosedAsIdle` | exp/sdk2/pool.go:263-267 | Concrete run: a connection in use all the time is closed for idle time when it is returned. |
| `Sdk2Pool.TrimOutcome` | exp/sdk2/pool.go:377-392 | Lowering the idle limit closes the connections returned last, as few as needed, each counted. |
| `Sdk2Pool.CleanClosesExpired` | exp/sdk2/pool.go:344-361 | A sweep closes exactly the idle connections that are too old or too long unused, and the rest keep their order. |
| `Sdk2Pool.OpenConnectionsBound` | exp/sdk2/pool.go:111-206 | With k getters the open count never exceeds the cap minus one plus k. |
| `Sdk2Pool.BoundIsReached` | exp/sdk2/pool.go:177-206 | For every k there is a run that reaches that bound. |
| `Sdk2Pool.CapRespectedIff` | exp/sdk2/pool.go:111-126 | The configured cap holds in all runs if and only if there is a single getter. |
| `Sdk2Pool.ConnectionPool.GetIdleConn` | exp/sdk2/pool.go:155-174 | Takes the most recently returned connection, as the lease step. |
| `Sdk2Pool.ConnectionPool.CreateConn` | exp/sdk2/pool.go:185-206 | Registers a dialled connection as leased and open. |
| `Sdk2Pool.ConnectionPool.CloseConnLocked` | exp/sdk2/pool.go:273-276 | Closes one connection, one open less, one under the reason. |
| `Sdk2Pool.ConnectionPool.PutConn` | exp/sdk2/pool.go:220-251 | A return is the put step: ignored when not leased, else discarded by age, by a full idle list, or kept. |
| `Sdk2Pool.ConnectionPool.CleanExpiredConns` | exp/sdk2/pool.go:344-361 | The filtering loop is the sweep step. |
| `Sdk2Pool.ConnectionPool.SetMaxIdleConns` | exp/sdk2/pool.go:377-392 | The trimming loop is the trim step, and panics exactly for a negative limit. |
| `TransportPool.RunSound` | connection_pool.go:65-175 | Every run keeps: connections are in the pool or closed, each in-use connection has one unreturned wrapper, the count is right (after Close, off by the leases outstanding then), the pool is within its size. |
| `TransportPool.OpenPoolSafety` | connection_pool.go:65-139 | While open: active count = connections in use, each with exactly one unreturned wrapper, and total <= maximum. |
| `TransportPool.ClosedExactlyOnce` | connection_pool.go:142-175 | The pool closes each dialled connection at most once, and exactly once when it is closed. |
| `TransportPool.CountAfterClose` | connection_pool.go:142-175 | After Close the active count is the leases still out minus those out at Close. |
| `TransportPool.ReturnAfterCloseUnbalances` | connection_pool.go:128-139 | A lease returned after Close makes the active count -1. |
| `TransportPool.GetOutcome` | connection_pool.go:65-125 | Get leases the first usable connection if there is one, else the dialled one if there is room and the dial succeeds, else nothing. |
| `TransportPool.CleanupCloses` | connection_pool.go:224-266 | A clean-up closes exactly the unheld connections that are unhealthy or idle too long, and the rest keep their order. |
| `TransportPool.RunConns` | connection_pool.go:65-139 | In every run a connection was last used when last handed out or returned, made when dialled, and is healthy if and only if no write on it failed and no Get found it idle and unusable. |
| `TransportPool.KeptByCleanupIff` | connection_pool.go:224-266 | In every run a clean-up keeps a connection if and only if it is in use, or nothing found it wanting and it was used recently enough. |
| `TransportPool.ReusedIsSound` | connection_pool.go:65-92 | In every run with health checks, a reused connection was never found wanting, was used and dialled recently enough, and answers the ping. |
| `TransportPool.ActivePlusIdle` | connection_pool.go:178-200 | While open, active + idle = total. |
| `TransportPool.ConnectionPool.FindIdle` | connection_pool.go:74-91 | The search loop with its health marks is the scan function. |
| `TransportPool.ConnectionPool.Get` | connection_pool.go:65-125 | One call is the get step, with closed, dial-failed and exhausted cases. |
| `TransportPool.ConnectionPool.Return` | connection_pool.go:128-139 | One call is the return step, without effect if the connection is not in use. |
| `TransportPool.ConnectionPool.Close` | connection_pool.go:142-175 | One call is the close step; a second call does nothing. |
| `TransportPool.ConnectionPool.Cleanup` | connection_pool.go:224-266 | The rebuilding loop is the sweep step. |
| `TransportPool.ConnectionPool.Stats` | connection_pool.go:178-200 | Counts total, active, idle and healthy; active + idle = total while open. |
| `TransportPool.PooledConnectionWrapper.Close` | connection_pool.go:382-390 | However often a wrapper is closed, it returns its connection once. |
| `NonceGuard.AcceptedAtMostOnce` | auth_security.go:591-608 | In every run of checks, time readings, claims and evictions, a transmission whose timestamp plus the longest check-to-claim stall is at most maxAge ahead of the time stored at its first acceptance is accepted once only. |
| `NonceGuard.AtMostOnceIff` | auth_security.go:591-640 | For a fresh transmission that condition is necessary and sufficient over all runs. |
| `NonceGuard.ReplayAcceptsTwice` | auth_security.go:591-608 | Whenever it fails there is a run that accepts the transmission twice. |
| `NonceGuard.StaysRemembered` | auth_security.go:620-640 | A claimed nonce stays claimed until more than twice the maximum age has passed. |
| `NonceGuard.AcceptsIff` | auth_security.go:591-617 | In every run a claim is accepted if and only if its thread found the transmission fresh, the transmission has a token, and its nonce is not claimed. |
| `NonceGuard.TokenTransmissionGuard.ClaimNonce` | auth_security.go:597-617 | The claim, with the time read before it, and the token extraction are the claim step; a missing token still uses up the nonce. |
| `NonceGuard.TokenTransmissionGuard.CleanupNonces` | auth_security.go:620-640 | One tick removes exactly the nonces older than twice the maximum age. |
| `Sanitizer.InTurnIsOnePass` | security.go:330-337 | The five replacements one after the other equal one simultaneous escape of every byte. |
| `Sanitizer.UnescapeInvertsEscape` | security.go:330-337 | Reading the entities back gives the original string. |
| `Sanitizer.SanitizeRoundTrip` | security.go:325-345 | In strict mode a NUL-free string that was not truncated can be read back. |
| `Sanitizer.SanitizedIsClean` | security.go:325-345 | A sanitized string, truncated or not, has no NUL, respects the length limit, and in strict mode has no raw angle bracket or quote. |
| `Sanitizer.SanitizedText` | security.go:325-345 | The whole text: the bytes other than NUL in order, escaped one by one in strict mode and unchanged otherwise, cut off at the limit. |
| `Sanitizer.EntityOf` | security.go:330-337 | The five entities by name; every other byte stands for itself. |
| `Sanitizer.SanitizeInput` | security.go:311-322 | Returns a possible result for any nested value. |
| `Sanitizer.SanitizeArray` | security.go:348-365 | Sanitizes items in order and keeps as many as the append-then-check loop keeps, at least one of a non-empty array. |
| `Sanitizer.SanitizeObject` | security.go:368-385 | Sanitizes keys and values in any order; the keys of the result are the sanitized keys. |
| `Sanitizer.SanitizedValueIsClean` | security.go:311-385 | Every string and key at any depth of any possible result is clean, and every array is within the limit, or has one item when the limit is below one. |
| `Sanitizer.ArrayLimitIff` | security.go:348-365 | A sanitized array respects the limit if and only if the limit is positive, or zero for an empty array. |
| `Sanitizer.ArrayKeeps` | security.go:348-365 | Exactly the first so many items as the limit says, but one at least, survive, each sanitized. |
| `Sanitizer.ZeroLimitKeepsOne` | security.go:348-365 | Concrete array kept whole under a limit of zero. |
| `Sanitizer.UniqueResultIff` | security.go:368-385 | The result does not depend on the order of walking maps if and only if no object has two keys that sanitize to one with values that do not. |
| `Sanitizer.CollidingKeys` | security.go:368-385 | Concrete object for which it does depend. |
| `Middleware.BubblePass` | middleware_integration.go:135-139 | One inner pass puts one more element in place and does not change the stable sort of the list. |
| `Middleware.BubbleSort` | middleware_integration.go:133-140 | The bubble sort computes the stable sort by descending priority. |
| `Middleware.Apply` | middleware_integration.go:123-148 | The handler built is the right fold of the sorted list over the handler. |
| `Middleware.RequestOrder` | middleware_integration.go:123-148 | A request passes every middleware once, higher priority first, ties in registration order. |
| `Sorting.SortSorts` | middleware_integration.go:133-140 | The sort used as specification is a sorted permutation. |
| `Sorting.SortIsStable` | middleware_integration.go:133-140 | It keeps elements the order does not distinguish in their original order. |
| `Sorting.SwapKeepsSort` | middleware_integration.go:136-138 | Exchanging neighbours that are out of order does not change the sorted result. |

## Left out

- HTTP handling: headers, Accept and host checks, flushing, request size limits, status codes, and `getSession` answering 404.
- JSON: marshalling and decoding are functions; delivery assumes that they are inverse and that the text is one trimmed line. A message that fails to marshal is skipped by the code and is not modelled. Ids are an abstract type with equality, so ids that cannot be map keys are not modelled.
- The `incoming` channel of a transport, its capacity, and context cancellation in `receive` and `Read`.
- 64-bit wrap-around of stream numbers and log indices: counters are unbounded, and delivery assumes a log no longer than the largest 64-bit index.
- The client's endpoint URL and reconnect timing, and what `processEvents` does with an event or an error while the connection is being closed (it drops it).
- Sessions: the reaper's timer and `Close` of the handler; what Serve does before it returns.
- TokenBucket.EvictionInvisibleIff: takes a request, and a whole clean-up, as one step; `TokenBucket.InterleavedEvictionIff` is the result without that.
- SlidingWindow.EvictionInvisibleIff: takes a request, and a whole clean-up, as one step; `SlidingWindow.InterleavedEvictionIff` is the result without that.
- Eviction.RateLimiter: an object is a value under a reference, and `LiveBucket` and `LiveWindow` model the objects; there is one clean-up at a time, as the timer is restarted only after it.
- Rate limiters: `Wait`, `timeToAvailable`, `Reset`, rule changes during a run, negative counts and rates, composite limiters, per-key statistics after eviction; floating point is modelled by reals.
- Pagination.SortByKey: `sort.Slice` is a library call; the model sorts by insertion, and with distinct keys every sort has the same result. Pagination.Paginate requires distinct keys, which the registries guarantee.
- Pagination.Registry: capability flags, list-changed notifications, handlers and the other fields of a registered item.
- Sdk2Pool: `Close`, `Ping`, changing the open cap or the age limits, wait statistics. One call reads the clock once. Connections and the factory are numbers.
- TransportPool: `GracefulShutdown`, errors of closing a connection, pings other than their answer. One call reads the clock once.
- NonceGuard: decrypting and parsing a transmission, with its missing-field errors other than the token; eviction is one event per nonce in the run theorems.
- Sanitizer: the validation functions of security.go; a negative string limit, which makes the code panic.
- Middleware: the middlewares themselves, `MiddlewareGroup` and the metrics; a middleware is its priority and a name.
- `InMemoryCache`, progress and cancel managers, dispatcher, builders, command-line tools and generators.
