# KITT: verified models of its protocols and tables

KITT is a local assistant: a Python daemon that runs turns and keeps an event ledger, a remote
gateway that streams the ledger to a browser, and a Rust daemon for voice, settings and the HUD.
This project models the stateful parts of both daemons in Dafny 4.11 and proves what they promise
over every input, run and interleaving. `dafny verify dfyconfig.toml` checks all of it.

Each module follows one component. Where the source updates state in place, the module has a
class whose methods are proved equal to a step function on values; the lemmas are about runs of
that function. Code between two awaits is one step; threads interleave at their locks.

- **Event delivery.** `EventLedger` (rows, cursors, pages), `StreamGateway` (deduplication,
  catch-up, hand-over), `StreamProtocol` (the step system of ledger, bounded client queue, writer,
  reader and gateway), `StreamDelivery` (what one stream emits), `StreamProgress` (that it gets
  there), `BrowserSession` (reconnects), `SessionProgress` (that the page gets there), `StreamStall`
  (when it never does), `DaemonLedger` (recording and broadcasting), `IpcWriter` (batching writer and
  line reader).
- **The daemon.** `TurnRecorder` (batching and cancelling a turn), `MessagePaging` (keyset pages
  under a byte budget), `DirectApprovals` (the direct-approval table), `RequestClient` (requests
  and their futures).
- **Voice.** `EditDistance` (the bounded two-row distance), `VoiceSegmenter` (the cutter),
  `VoiceActivation` (the handshake of the two loops).
- **HUD and remote tables.** `HudBroadcaster`, `RateLimiter`, `SseSlots`, `PairingAuth`,
  `SettingsOverlay`, `SurfaceRenderer`.

`Wrappers`, `Sets`, `StringOrder` and `Whitespace` hold what several modules share.

## What is false of the code, and when it is true

- A stream emits every entry once and in order exactly under two conditions: at most 200 entries
  wait at the attach, and no live event has an id at or below the resume cursor. The attach reply is one
  page and its `has_more` is not followed (`StitchingExactWhen`, `BurstRun`, `StaleCursorRun`).
- Across reconnects the page loses an entry exactly when it takes a live frame of a connection
  whose attach found more than 200; the entry is then lost for good (`NothingLostExactlyWhen`,
  `BurstLosesAnEntry`). Cut short with no live frame taken, the next resume catches up
  (`CanCatchUpExactlyWhen`).
- A message longer than 65536 bytes is not read by the daemon's client and ends its connection; all
  messages are read exactly when none is (`AllReadExactlyWhen`). A page of the ledger too long for one
  line is asked for again after every reconnect, so the browser never gets past it
  (`OverlongPageIsNeverPassed`, `OneLongEntryStalls`).
- After a cancel, producer events are still recorded exactly when the stream finishes with events
  waiting and yields no further one (`ProducerAfterCancelWhen`); a turn has two terminal entries
  exactly when it ends twice (`OneTerminalWhen`).
- A message cursor leads back to its row exactly when the row's id fits the id pattern
  (`CursorRoundTrip`). Following the cursors shows every message exactly when each page with more to
  follow ends on a row whose id still fits once white space at its end is trimmed, and no other row
  lies between the trimmed and the full id (`WalkIsCompleteExactlyWhen`).
- A direct approval is reported both executed and denied exactly when a granted one is refused
  while the pending list cannot be read (`ReportedBothWaysWhen`).
- A HUD client always gets the last event, but gets it last exactly when no sender of an older
  event writes to it after every sender of the newest is done with it (`LastLineIsLastEventWhen`,
  `LastLineCanBeStale`); sends made one at a time always end with it (`SendsInTurnEndWithTheLast`).
- Two accepted settings requests name the same revision exactly when the 64-bit revision is at its
  maximum (`SharedRevisionOnlyAtTheTop`, `RevisionIsShared`); a request that validates is applied
  exactly when no section it names is stored as something other than an object
  (`ValidatedIsAppliedWhen`, `ValidatedIsNotApplied`).
- A call to the daemon is left waiting for its own timeout exactly when the client is closed before
  its reader task has had a turn (`LeftWaitingExactlyWhen`, `ClosedBeforeReading`).
- Revisions of a surface grow from draw to draw exactly while they are positive
  (`NextIsNewerWhen`). Graphs of `n` components are all drawn as far as they can be reached exactly
  when `n` is at most sixteen: the depth limit can hide a component near the root
  (`SixteenIsTheLimit`, `DeepFirstVisitHidesAChild`).

## Assumptions

- A client cut off for overflow receives nothing put on its queue afterwards, as closing its writer
  asks for.
- Random tokens, codes, request ids and approval ids are fresh and digests injective; clocks do not
  go back, and a call's single reading of the clock stands for all its readings.
- Audio is over the reals, and the loudness of a chunk and the detector's verdicts are inputs.
- The approval manager moves an approval from PENDING to GRANTED or DENIED and grants only from
  PENDING. Cancelling a turn leaves exactly one entry in the ledger.
- Storage does not fail. Message times are ranks of doubles under a printing that reads back.
- One capture loop sees fewer than 2^64 wakes. HUD stream clones succeed.
- A client is connected once. Ids of surfaces and components hold no character a script counts as two.
- The revision of a surface is a finite number.
- The text of a time holds no colon, and nothing holding one reads as a time.
- In the stream model a message arrives whole, so lines are within the reader's limit; an over-long
  one ends the connection like any other break, with what was sent before it read. That a stream
  settles and a page catches up (`StreamSettles`, `CatchesUp`) needs them within it, as
  `OverlongPageIsNeverPassed` shows.

## Model

| member | source | states |
|---|---|---|
| `EventLedger.GetEventsSince` | packages/kitt-assistant-runtime/kitt/daemon/server.py:1829-1850 | the row loop returns the first `limit` unseen rows, whether there are more, and the greatest id seen |
| `EventLedger.SinceMembers` | packages/kitt-assistant-runtime/kitt/daemon/server.py:1830-1836 | what a cursor has yet to see is exactly the rows of its session with a larger id |
| `EventLedger.SinceDrop` | packages/kitt-assistant-runtime/kitt/daemon/server.py:1830-1836 | moving the cursor to the id of the `k`th unseen row leaves exactly the rows after it |
| `EventLedger.PageSplitsUnseen` | packages/kitt-assistant-runtime/kitt/daemon/server.py:1837-1850 | on an ordered ledger a page and what its `next` cursor still sees make up the unseen rows; `has_more` is true exactly when something is left; at most `limit` rows |
| `StreamGateway.RememberedNearHead` | packages/kitt-assistant-runtime/kitt/remote/gateway.py:158-170 | after any sequence of `emit_once` ids the set has at most 4096 ids, all of them emitted, and holds every emitted id within 2048 of the largest |
| `StreamGateway.NoneTwiceNearHead` | packages/kitt-assistant-runtime/kitt/remote/gateway.py:158-219 | whatever pages, attach replies and live events a gateway is sent, it emits an id a second time only after emitting one more than 2048 beyond it |
| `StreamGateway.LargestOf` | packages/kitt-assistant-runtime/kitt/remote/gateway.py:167-168 | the maximum of the dedupe set |
| `StreamGateway.EmitAllFresh` | packages/kitt-assistant-runtime/kitt/remote/gateway.py:160-170 | events that continue what was emitted in id order are all emitted, in order, and the frames written stay a prefix of them |
| `StreamGateway.SortOfOrdered` | packages/kitt-assistant-runtime/kitt/remote/gateway.py:217 | the stable sort by id leaves an ordered list alone |
| `StreamGateway.Stream.SendFrame` | packages/kitt-assistant-runtime/kitt/remote/server.py:544-558 | a frame is written unless the stream has stopped; a failed write stops it |
| `StreamGateway.Stream.EmitOnceHere` | packages/kitt-assistant-runtime/kitt/remote/gateway.py:160-170 | the state after one `emit_once`: deduplicated, bounded, emitted |
| `StreamGateway.Stream.HandleLive` | packages/kitt-assistant-runtime/kitt/remote/gateway.py:172-176 | a live event is held back before the attach and emitted after it |
| `StreamGateway.Stream.HandlePage` | packages/kitt-assistant-runtime/kitt/remote/gateway.py:198-204 | a catch-up page is emitted row by row and the cursor moves past it |
| `StreamGateway.Stream.HandleAttach` | packages/kitt-assistant-runtime/kitt/remote/gateway.py:214-219 | the attach replay, then the held live events in id order, and nothing is held any more |
| `StreamProtocol.HandOver` | packages/kitt-assistant-runtime/kitt/remote/gateway.py:214-219 | when the replay and the held events continue the emitted ones, the hand-over emits exactly both, in order |
| `StreamProtocol.BroadcastKeeps` | packages/kitt-assistant-runtime/kitt/daemon/server.py:1906-1925 | recording and broadcasting an entry keeps the stream invariant, overflow included |
| `StreamProtocol.ServePageKeeps` | packages/kitt-assistant-runtime/kitt/daemon/server.py:1829-1850 | serving a catch-up page keeps it |
| `StreamProtocol.ServeAttachKeeps` | packages/kitt-assistant-runtime/kitt/daemon/server.py:1640-1652 | subscribing and replaying in one step keeps it: no row falls between the replay and the first live event while the replay is not cut short at 200 |
| `StreamProtocol.ReadKeeps` | packages/kitt-assistant-runtime/kitt/daemon/client.py:96-118 | reading one message, live or reply, keeps it |
| `StreamProtocol.ResumeKeeps` | packages/kitt-assistant-runtime/kitt/remote/gateway.py:182-219 | picking up a page or the attach reply keeps it |
| `StreamProtocol.StepKeeps` | packages/kitt-assistant-runtime/kitt/remote/gateway.py:147-229 | every step of daemon, writer, reader and gateway keeps the stream invariant |
| `StreamProtocol.RunKeeps` | packages/kitt-assistant-runtime/kitt/remote/gateway.py:147-229 | so does every interleaving of them, from the opening of the stream |
| `StreamDelivery.EmittedSoFar` | packages/kitt-assistant-runtime/kitt/remote/gateway.py:147-229 | what was written to the browser is a prefix of what was emitted, itself a prefix of the ledger stretch replayed and followed, which is strictly increasing |
| `StreamDelivery.StitchingExactWhen` | packages/kitt-assistant-runtime/kitt/remote/gateway.py:182-219 | an attached stream emits a gapless, duplicate-free, ordered prefix of the entries beyond the resume cursor if and only if it has not yet emitted live events, or at most 200 entries were waiting at the attach and no live event lies at or below the cursor |
| `StreamDelivery.StreamIsExact` | packages/kitt-assistant-runtime/kitt/remote/gateway.py:147-229 | the same for every run from the opening, and unconditionally while catching up |
| `StreamDelivery.QuietStreamIsComplete` | packages/kitt-assistant-runtime/kitt/remote/gateway.py:206-224 | a healthy stream with empty queues has written everything it should |
| `StreamDelivery.BurstRun` | packages/kitt-assistant-runtime/kitt/daemon/server.py:1643-1652 | a run in which 201 entries land between the last page and the attach: entry 201 is skipped and later ones are emitted |
| `StreamDelivery.StaleCursorRun` | packages/kitt-assistant-runtime/kitt/remote/server.py:520-529 | a run with a resume cursor ahead of the ledger: an entry below the cursor is emitted |
| `DaemonLedger.OfferIsBroadcast` | packages/kitt-assistant-runtime/kitt/daemon/server.py:1906-1925 | the queue step used by the stream protocol is the daemon's broadcast to one client |
| `DaemonLedger.OfferedPrefix` | packages/kitt-assistant-runtime/kitt/daemon/server.py:1906-1925 | offering events to a queue of 500 appends a prefix of them, all unless the queue filled, in which case the client is cut off |
| `DaemonLedger.Daemon.BroadcastEvent` | packages/kitt-assistant-runtime/kitt/daemon/server.py:1906-1925 | the event goes to every subscriber of its session and to no other queue |
| `DaemonLedger.Daemon.RecordEvents` | packages/kitt-assistant-runtime/kitt/daemon/server.py:1852-1878 | the batch is appended to the ledger in order under new ids and offered to the session's subscribers only |
| `IpcWriter.Writer.WriteBatch` | packages/kitt-assistant-runtime/kitt/daemon/server.py:1811-1825 | one batch takes a front part of the queue: at most the message limit, and stops early only when the byte limit is reached or the queue is empty |
| `IpcWriter.ReadBack` | packages/kitt-assistant-runtime/kitt/daemon/client.py:99-130 | reading what was joined hands out exactly the messages before the first over-long line, at which the reader fails and the connection ends |
| `IpcWriter.AllReadExactlyWhen` | packages/kitt-assistant-runtime/kitt/daemon/client.py:99-130 | all messages are read and the connection stays up if and only if none is longer than the 65536-byte limit of a reader opened without one |
| `IpcWriter.OverlongEndsTheConnection` | packages/kitt-assistant-runtime/kitt/daemon/client.py:74-81 | a line of 65537 bytes is not read, nor is anything after it |
| `IpcWriter.BatchingIsInvisible` | packages/kitt-assistant-runtime/kitt/daemon/server.py:1809-1827 | whatever the batching, the reader hands out the written messages in order, up to the first that is over-long |
| `StreamProgress.OnwardKeeps` | packages/kitt-assistant-runtime/kitt/remote/gateway.py:147-229 | a step that only carries on leaves of the stretch to be emitted a front part, never more, and does not stop a socket that takes a frame for each entry of it |
| `StreamProgress.StreamSettles` | packages/kitt-assistant-runtime/kitt/remote/gateway.py:147-229 | from every reachable state of a stream neither cut nor stopped, some finite run of serving, writing, reading and resuming alone writes out everything and leaves nothing in flight |
| `BrowserSession.HandledPlusUnseen` | packages/kitt-assistant-runtime/kitt/remote/static/app.js:337-340 | until the page takes a live frame that follows a replay cut short, what it handled and what lies beyond its cursor are the entries beyond its start |
| `BrowserSession.NothingLostExactlyWhen` | packages/kitt-assistant-runtime/kitt/remote/server.py:520-558 | over any number of overflows, closes and resumes from the larger of `after` and Last-Event-ID (section 9.2.4 of the WHATWG HTML Standard), nothing is lost if and only if the page never takes a live frame of a connection whose attach found more than 200 entries |
| `BrowserSession.MissedForGood` | packages/kitt-assistant-runtime/kitt/remote/static/app.js:337-340 | an entry the page has moved past without handling it is never handled |
| `BrowserSession.HandledIdsIncrease` | packages/kitt-assistant-runtime/kitt/remote/static/app.js:337-340 | over every session, lossy or not, handled ids strictly increase and are ledger rows beyond the start |
| `BrowserSession.ReconnectKeeps` | packages/kitt-assistant-runtime/kitt/remote/server.py:520-529 | resuming from the larger cursor after any cut keeps the session invariant, a replay cut short included |
| `BrowserSession.QuietPageIsUpToDateWhen` | packages/kitt-assistant-runtime/kitt/remote/static/app.js:406-415 | over every session, once its healthy connection has gone quiet the page is fully up to date if and only if it never took a live frame of a connection whose attach found more than 200 entries and its last attach found at most 200 |
| `BrowserSession.BurstLosesAnEntry` | packages/kitt-assistant-runtime/kitt/daemon/server.py:1643-1652 | a session in which 202 entries are written and the page handles all but the 201st |
| `SessionProgress.CatchesUp` | packages/kitt-assistant-runtime/kitt/remote/static/app.js:337-340 | from every session that has lost nothing, one more connection, left alone, brings the page fully up to date in finitely many moves |
| `SessionProgress.CanCatchUpExactlyWhen` | packages/kitt-assistant-runtime/kitt/remote/static/app.js:337-340 | some continuation of a session brings the page fully up to date if and only if it never took a live frame of a connection whose attach found more than 200 entries |
| `StreamStall.OverlongPageIsNeverPassed` | packages/kitt-assistant-runtime/kitt/remote/gateway.py:182-204 | when the next page takes a line longer than the reader takes, no reconnect and nothing written later ever moves the page beyond its cursor |
| `StreamStall.OneLongEntryStalls` | packages/kitt-assistant-runtime/kitt/daemon/client.py:96-130 | one entry of 65538 characters keeps the page from handling anything |
| `StreamStall.WordyEncoderExists` | packages/kitt-assistant-runtime/kitt/daemon/client.py:96-130 | encodings into lines that spend a byte on every character exist |
| `TurnRecorder.TurnTask.CancelTurn` | packages/kitt-assistant-runtime/kitt/daemon/server.py:1711-1742 | cancelling is accepted exactly for an active turn and leaves one cancellation entry |
| `TurnRecorder.TurnTask.Receive` | packages/kitt-assistant-runtime/kitt/daemon/server.py:1950-1982 | one producer event: dropped after a cancel, else batched, flushed when critical, full or due |
| `TurnRecorder.TurnTask.End` | packages/kitt-assistant-runtime/kitt/daemon/server.py:1994-2016 | the end of the stream, normal or by an exception |
| `TurnRecorder.TurnTask.Execute` | packages/kitt-assistant-runtime/kitt/daemon/server.py:1927-2016 | the whole loop over any sequence of arrivals, cancels and ends |
| `TurnRecorder.RecordedIsPrefix` | packages/kitt-assistant-runtime/kitt/daemon/server.py:1950-1995 | the producer events recorded are a prefix of those produced, in order |
| `TurnRecorder.FlushCatchesUp` | packages/kitt-assistant-runtime/kitt/daemon/server.py:1966-1978 | at an event that is critical, due or the 24th waiting, everything produced so far is recorded |
| `TurnRecorder.BatchesAreBounded` | packages/kitt-assistant-runtime/kitt/daemon/server.py:1966-1978 | no batch exceeds 24, and no critical event is ever left waiting |
| `TurnRecorder.UncancelledIsComplete` | packages/kitt-assistant-runtime/kitt/daemon/server.py:1994-2006 | without a cancel everything produced is recorded once the stream is over |
| `TurnRecorder.UncancelledLedgerIs` | packages/kitt-assistant-runtime/kitt/daemon/server.py:1950-2012 | a turn nobody cancels leaves in the ledger exactly the events of its stream in order, and after them a failure note if and only if the stream ended in an exception |
| `TurnRecorder.ProducerAfterCancelWhen` | packages/kitt-assistant-runtime/kitt/daemon/server.py:1994-1995 | a producer event follows the cancellation if and only if the stream finishes with events waiting since before the cancel |
| `TurnRecorder.NothingAfterCancel` | packages/kitt-assistant-runtime/kitt/daemon/server.py:1950-1953 | a stream that ends in a terminal event records nothing after the cancellation |
| `TurnRecorder.OneTerminalWhen` | packages/kitt-assistant-runtime/kitt/daemon/server.py:1981-2016 | a turn has at most one terminal entry if and only if it never ends a second time |
| `TurnRecorder.OneTerminalEvent` | packages/kitt-assistant-runtime/kitt/daemon/server.py:1981-2016 | one terminal event last and nothing raised after it give at most one terminal entry, whenever it is cancelled |
| `TurnRecorder.ExceptionsHappen` | packages/kitt-assistant-runtime/kitt/daemon/server.py:1994-2012 | both exceptional cases occur |
| `TurnRecorder.CancelledExactlyWhen` | packages/kitt-assistant-runtime/kitt/daemon/server.py:1711-1742 | after any inputs a turn can be cancelled, and the cancellation leaves its entry, if and only if it was not cancelled before, streamed no terminal event, and its stream has not ended, or ended without raising after asking for an approval |
| `TurnRecorder.PausedStaysActive` | packages/kitt-assistant-runtime/kitt/daemon/server.py:1980-2016 | a turn that asked for an approval and ended, still active until it is cancelled |
| `MessagePaging.SelectRows` | packages/kitt-assistant-runtime/kitt/daemon/server.py:925-946 | the budget loop keeps the longest front part within 512 KiB, and always one row |
| `MessagePaging.SessionPage` | packages/kitt-assistant-runtime/kitt/daemon/server.py:895-954 | a page is the selected rows oldest first with its flags and cursor; an invalid cursor is an error |
| `MessagePaging.CursorRoundTrip` | packages/kitt-assistant-runtime/kitt/daemon/server.py:538-554 | a cursor decodes to the row it was made from if and only if that row's id fits the id pattern |
| `MessagePaging.DecodedCursor` | packages/kitt-assistant-runtime/kitt/daemon/server.py:538-554 | a cursor made from a row decodes to its time and its id less white space at the end, and is refused if that id is ill formed |
| `MessagePaging.SoundCodecExists` | packages/kitt-assistant-runtime/kitt/daemon/server.py:540 | the assumption on printing times can be met |
| `MessagePaging.PageSizeIsFitting` | packages/kitt-assistant-runtime/kitt/daemon/server.py:930-946 | the budget loop selects the first row and then as many as still fit |
| `MessagePaging.PageIsAsLongAsMayBe` | packages/kitt-assistant-runtime/kitt/daemon/server.py:895-946 | a page from row `k` is the longest that exists, is within the limit and 100, and within 524288 bytes, one row at least |
| `MessagePaging.CostIsWhatIsSent` | packages/kitt-assistant-runtime/kitt/daemon/server.py:932-936 | the bytes counted are those of the contents, each cut to 65536, and 512 for each row |
| `MessagePaging.ShortRowsFillThePage` | packages/kitt-assistant-runtime/kitt/daemon/server.py:895-946 | rows of at most 4730 bytes always fit, so a page of them has as many rows as asked for, one to a hundred, or is the last |
| `MessagePaging.TruncatedExactlyWhen` | packages/kitt-assistant-runtime/kitt/daemon/server.py:937-940 | a page is called truncated if and only if rows follow and it is shorter than the limit and 100 |
| `MessagePaging.NewestFirst` | packages/kitt-assistant-runtime/kitt/daemon/server.py:898-910 | the order of the query: newest first, the larger id first among equal times |
| `MessagePaging.PageAdvances` | packages/kitt-assistant-runtime/kitt/daemon/server.py:895-954 | a page asked for from row `k` shows the next rows, at least one if there are any, within budget; its cursor is empty exactly at the end and else made from its last row |
| `MessagePaging.PageIsOldestFirst` | packages/kitt-assistant-runtime/kitt/daemon/server.py:954 | the messages of a page are its rows reversed |
| `MessagePaging.ReversedTurns` | packages/kitt-assistant-runtime/kitt/daemon/server.py:954 | reversing puts the oldest row first |
| `MessagePaging.NextAsksLess` | packages/kitt-assistant-runtime/kitt/daemon/server.py:898-910 | following a cursor asks for strictly fewer rows, whatever the ids, so every walk ends |
| `MessagePaging.WalkFits` | packages/kitt-assistant-runtime/kitt/daemon/server.py:925-946 | every page of a walk is within the budget and every page but the last is non-empty |
| `MessagePaging.WalkIsCompleteExactlyWhen` | packages/kitt-assistant-runtime/kitt/daemon/server.py:884-954 | following the cursors from any row shows every message from there on once, newest first, for any contents and limit, if and only if each page with more to follow ends on a row whose id, trimmed, is well formed and below which, so trimmed, the next row lies |
| `MessagePaging.SessionIsShownOnceExactlyWhen` | packages/kitt-assistant-runtime/kitt/daemon/server.py:884-954 | the same for the whole session from the first request |
| `MessagePaging.ValidEndsSuffice` | packages/kitt-assistant-runtime/kitt/daemon/server.py:552 | well-formed ids at the page ends are enough |
| `MessagePaging.ValidEndsAreNeeded` | packages/kitt-assistant-runtime/kitt/daemon/server.py:552 | and, where no id ends in white space, needed |
| `MessagePaging.RefusedCursorHidesTheRest` | packages/kitt-assistant-runtime/kitt/daemon/server.py:552-553 | two messages of which the second is never shown |
| `MessagePaging.LostSpaceSkipsARow` | packages/kitt-assistant-runtime/kitt/daemon/server.py:544 | two messages of which the second is skipped because the cursor lost a space |
| `MessagePaging.LostSpaceMayDoNoHarm` | packages/kitt-assistant-runtime/kitt/daemon/server.py:544 | two messages shown both, though the first page ends on an ill-formed id |
| `DirectApprovals.ApprovalTable.PruneDirectPending` | packages/kitt-assistant-runtime/kitt/daemon/server.py:564-581 | entries no longer pending are dropped, unless the pending list cannot be read |
| `DirectApprovals.ApprovalTable.RegisterDirect` | packages/kitt-assistant-runtime/kitt/daemon/server.py:688-709 | a request is refused at 64 entries and entered as pending otherwise |
| `DirectApprovals.ApprovalTable.ResolveDirect` | packages/kitt-assistant-runtime/kitt/daemon/server.py:749-775 | a decision denies, or executes only after a grant from PENDING |
| `DirectApprovals.ApprovalTable.FinishDirect` | packages/kitt-assistant-runtime/kitt/daemon/server.py:770-775 | the entry leaves the table when the tool has run, and stays behind when the tool raised |
| `DirectApprovals.TableIsSound` | packages/kitt-assistant-runtime/kitt/daemon/server.py:664-789 | in every interleaving: at most 64 entries, every pending approval registered here is in the table, each is executed at most once and only when granted |
| `DirectApprovals.PendingIsNeverDropped` | packages/kitt-assistant-runtime/kitt/daemon/server.py:564-581 | no step removes an entry whose approval is still pending |
| `DirectApprovals.ExecutedExactlyWhen` | packages/kitt-assistant-runtime/kitt/daemon/server.py:1103-1110 | over every run an approval is executed if and only if, before anything else settled it, an allowing decision came on it that named no session or the one it was registered for |
| `DirectApprovals.DeniedExactlyWhen` | packages/kitt-assistant-runtime/kitt/daemon/server.py:753-762 | it is reported denied if and only if a refusing decision of that kind came while its entry was in the table, which it leaves at such a refusal, when its tool comes back, or when the list is read after it was settled |
| `DirectApprovals.DecisionDoneExactlyWhen` | packages/kitt-assistant-runtime/kitt/daemon/server.py:1097-1110 | a decision succeeds if and only if it executes or denies an approval in that way |
| `DirectApprovals.RegistrationDoneExactlyWhen` | packages/kitt-assistant-runtime/kitt/daemon/server.py:688-690 | a registration succeeds if and only if fewer than 64 registered approvals are still in the table, as told from the history |
| `DirectApprovals.ReportedBothWaysWhen` | packages/kitt-assistant-runtime/kitt/daemon/server.py:1103-1110 | an approval is reported both executed and denied if and only if a granted one is refused while the pending list cannot be read |
| `DirectApprovals.ReportedBothWaysHappens` | packages/kitt-assistant-runtime/kitt/daemon/server.py:753-775 | a run of three calls in which that happens |
| `RequestClient.Client.BeginRequest` | packages/kitt-assistant-runtime/kitt/daemon/client.py:132-139 | a request is registered exactly on an open connection |
| `RequestClient.Client.EndRequest` | packages/kitt-assistant-runtime/kitt/daemon/client.py:142-144 | a call that returns or fails leaves the pending map |
| `RequestClient.Client.OnResponse` | packages/kitt-assistant-runtime/kitt/daemon/client.py:114-118 | a response completes the future with its own id, if it is still waiting |
| `RequestClient.Client.OnReaderEnd` | packages/kitt-assistant-runtime/kitt/daemon/client.py:124-130 | the end of the reader breaks every waiting future |
| `RequestClient.TableMatchesCalls` | packages/kitt-assistant-runtime/kitt/daemon/client.py:96-144 | on every run the pending map holds exactly the calls in flight, and none waits once the reader loop has run to its end |
| `RequestClient.LeftWaitingExactlyWhen` | packages/kitt-assistant-runtime/kitt/daemon/client.py:70-134 | a call is left waiting by a reader that will run no more if and only if the client was closed before the first turn of the reader task, with the call in flight |
| `RequestClient.OnlyTheCallerGivesUp` | packages/kitt-assistant-runtime/kitt/daemon/client.py:132-144 | such a call waits until its own timeout or a failing write of its own |
| `RequestClient.ClosedBeforeReading` | packages/kitt-assistant-runtime/kitt/daemon/client.py:222-228 | a run in which a request is sent and the client closed before its reader has had a turn |
| `RequestClient.CompletedOnce` | packages/kitt-assistant-runtime/kitt/daemon/client.py:114-130 | a future is completed only by its own response, its timeout or the end of the connection, and never changes afterwards |
| `RequestClient.CompletionsAreUnique` | packages/kitt-assistant-runtime/kitt/daemon/client.py:132-144 | over any run a future is completed at most once |
| `RequestClient.CompletedExactlyWhen` | packages/kitt-assistant-runtime/kitt/daemon/client.py:96-144 | over every run a call is answered with a body, timed out or broken if and only if the first of its own responses, its timeout, its failing write and the end of the reader, after it was sent, is a response with that body, the timeout, or the end of the reader |
| `RequestClient.WaitingExactlyWhen` | packages/kitt-assistant-runtime/kitt/daemon/client.py:96-144 | its future is left waiting if and only if none of these has come yet, or the failing write came first |
| `EditDistance.OneEditMoves` | apps/kittd/src/voice.rs:1661-1680 | one insertion, deletion or replacement anywhere changes the recurrence by at most one |
| `EditDistance.DistanceIsLowerBound` | apps/kittd/src/voice.rs:1661-1680 | no edit script is cheaper than the recurrence |
| `EditDistance.DistanceIsAttained` | apps/kittd/src/voice.rs:1661-1680 | some edit script costs exactly the recurrence |
| `EditDistance.DistanceIsEditDistance` | apps/kittd/src/voice.rs:1661-1680 | the recurrence is the least cost over all edit scripts |
| `EditDistance.LengthGapIsLowerBound` | apps/kittd/src/voice.rs:1662-1664 | the length difference never exceeds the distance, so the early exit rejects nothing within the bound |
| `EditDistance.Cell` | apps/kittd/src/voice.rs:1671-1674 | the cell formula computes the distance of the two prefixes |
| `EditDistance.FillRow` | apps/kittd/src/voice.rs:1669-1675 | the inner loop turns row `i` of the table into row `i + 1` |
| `EditDistance.BoundedEditDistance` | apps/kittd/src/voice.rs:1661-1680 | the two-row loop returns the edit distance when it is within the bound, and nothing exactly when every script costs more |
| `VoiceSegmenter.Segmenter.ExtendPreRoll` | apps/kittd/src/voice.rs:1795-1801 | the pre-roll keeps the last `limit` samples |
| `VoiceSegmenter.Segmenter.PushChunk` | apps/kittd/src/voice.rs:1732-1793 | one push: thresholds with hysteresis, onset, accumulation and closing |
| `VoiceSegmenter.Segmenter.ResetAll` | apps/kittd/src/voice.rs:1803-1810 | a reset forgets everything but the noise floor |
| `VoiceSegmenter.FeedKeeps` | apps/kittd/src/voice.rs:1732-1810 | every push and reset keeps the segmenter invariant: pre-roll is the last samples since the buffers were emptied, an open segment is the stream from its beginning on and shorter than the limit, noise floor in its bounds |
| `VoiceSegmenter.UtterancesAreSlices` | apps/kittd/src/voice.rs:1732-1810 | over any run the utterances are disjoint, ordered slices of the pushed stream, each with at least `min_speech` samples counted as voiced |
| `VoiceSegmenter.UtteranceEndsHere` | apps/kittd/src/voice.rs:1778-1792 | an utterance handed back ends at the current position and is as short as the limits promise |
| `VoiceSegmenter.JudgedByLevel` | apps/kittd/src/voice.rs:1737-1746 | a chunk counts as speech by its level alone: outside a segment at least the minimum and the multiple of the noise floor, in one at least both times the release ratio |
| `VoiceSegmenter.NoiseFollows` | apps/kittd/src/voice.rs:1748-1755 | the noise floor moves 1.5 per cent towards the level, capped at four times the minimum, at a chunk without speech outside a segment, and at no other |
| `VoiceSegmenter.OpensExactlyWhen` | apps/kittd/src/voice.rs:1748-1768 | a segment opens if and only if the speech at the end of what was heard, told from the stream, is long enough; it begins a pre-roll back, no further than the last segment |
| `VoiceSegmenter.ClosesExactlyWhen` | apps/kittd/src/voice.rs:1778-1792 | a segment closes if and only if the silence at its end or its audio is long enough, and its audio is handed back if and only if enough of it was speech |
| `VoiceSegmenter.QuietNeverOpens` | apps/kittd/src/voice.rs:1737-1755 | chunks below the minimum level never open a segment, however many |
| `VoiceSegmenter.LoudOpens` | apps/kittd/src/voice.rs:1737-1768 | consecutive chunks above the minimum and the multiple of the top of the noise band open one once they are long enough |
| `VoiceSegmenter.SilenceCloses` | apps/kittd/src/voice.rs:1769-1792 | an open segment closes once chunks below the minimum times the release ratio are long enough |
| `VoiceSegmenter.BetweenTheBars` | apps/kittd/src/voice.rs:1742-1746 | between the release and the start level an open segment goes on up to its maximum length and an idle one does not open |
| `VoiceActivation.Handshake.TrySend` | apps/kittd/src/voice.rs:831-838 | the channel takes an event unless it holds eight |
| `VoiceActivation.Handshake.Detected` | apps/kittd/src/voice.rs:818-839 | a detection outside the cooldown numbers a wake and announces it |
| `VoiceActivation.Handshake.Spoken` | apps/kittd/src/voice.rs:844-870 | an utterance is stamped with the active wake if it ended in time |
| `VoiceActivation.Handshake.TakeOne` | apps/kittd/src/voice.rs:1303-1391 | the pipeline runs a command only for the wake it is waiting for |
| `VoiceActivation.RunKeeps` | apps/kittd/src/voice.rs:785-870 | every run of both loops over the lossy channel keeps the handshake invariant |
| `VoiceActivation.CommandsMatchWakes` | apps/kittd/src/voice.rs:1301-1391 | commands run for distinct announced wakes, within the command timeout of them; wakes are a cooldown apart |
| `VoiceActivation.CommandsRunExactlyWhen` | apps/kittd/src/voice.rs:1303-1390 | over every run a command is run, in the order taken, if and only if an utterance taken leaves one to run and is stamped with the wake the pipeline was last told of, no utterance taken since |
| `VoiceActivation.SentInARow` | apps/kittd/src/voice.rs:818-870 | a wake past the cooldown and the utterance after it within the timeout lie next to each other in the channel, stamped alike |
| `VoiceActivation.WakeThenCommand` | apps/kittd/src/voice.rs:818-1390 | end to end: a wake past the cooldown, then a saved utterance within the timeout, neither dropped and nothing else sent between: once both are taken, leaving a command to run, that wake's command has run |
| `HudBroadcaster.Broadcaster.Register` | apps/kittd/src/main.rs:152-153 | a new client gets a new id at the end of the list |
| `HudBroadcaster.Broadcaster.Retain` | apps/kittd/src/main.rs:186-190 | exactly the failed clients leave the list |
| `HudBroadcaster.StepKeeps` | apps/kittd/src/main.rs:121-191 | every locked region and every write of concurrent `send` and `subscribe` calls keeps the delivery invariant |
| `HudBroadcaster.HandOverIsComplete` | apps/kittd/src/main.rs:121-191 | with nothing in flight every listed client has been written the last event and every single event stored since it was added, equal lines apart; at most 8 clients, distinct ids |
| `HudBroadcaster.ComesToRest` | apps/kittd/src/main.rs:121-191 | from every state reached the calls in flight can all finish with no new one: none waits for a lock for ever |
| `HudBroadcaster.LockIsFree` | apps/kittd/src/main.rs:121-156 | over every run the list lock is free unless a subscriber is between taking it and joining or giving up |
| `HudBroadcaster.ListedExactlyWhen` | apps/kittd/src/main.rs:152-191 | over every run a client that joined stays listed as long as no write to it fails, and with no call in flight the listed clients are exactly those |
| `HudBroadcaster.FreshStep` | apps/kittd/src/main.rs:157-191 | only a write that overtakes makes what a client was written last stale, and only a new store, or joining, refreshes it |
| `HudBroadcaster.LastLineIsLastEventWhen` | apps/kittd/src/main.rs:157-191 | with nothing in flight, what a listed client was written last is the last event if and only if, since it was stored, no sender of an older one wrote to the client once the last event was no longer under way to it |
| `HudBroadcaster.SendsInTurnEndWithTheLast` | apps/kittd/src/main.rs:157-191 | if no event is stored while another sender is under way, every listed client ends with the last event |
| `HudBroadcaster.LastLineCanBeStale` | apps/kittd/src/main.rs:157-191 | two overlapping sends can leave the older event as the last a client was written |
| `HudBroadcaster.StaleButRefreshed` | apps/kittd/src/main.rs:121-191 | an older event written after the newest does no harm if the newest is written once more |
| `RateLimiter.Clamped` | packages/kitt-assistant-runtime/kitt/remote/security.py:57-60 | each setting is raised to its minimum if it is below, and otherwise kept, whatever the others |
| `RateLimiter.Limiter.Trim` | packages/kitt-assistant-runtime/kitt/remote/security.py:69-70 | grants at or before the cutoff are dropped from the front |
| `RateLimiter.Limiter.Evict` | packages/kitt-assistant-runtime/kitt/remote/security.py:75-77 | the oldest keys other than the caller's are removed |
| `RateLimiter.Limiter.Check` | packages/kitt-assistant-runtime/kitt/remote/security.py:64-78 | one call: touched, trimmed, refused or granted, bounded |
| `RateLimiter.CallKeeps` | packages/kitt-assistant-runtime/kitt/remote/security.py:64-78 | each call keeps the table equal to the recent part of the grant history, and within `max_keys` |
| `RateLimiter.NoWindowOverflows` | packages/kitt-assistant-runtime/kitt/remote/security.py:64-78 | no half-open span of one window holds more than `limit` grants of a key since it was last inserted; at most `max_keys` keys |
| `RateLimiter.RefusedExactlyWhenFull` | packages/kitt-assistant-runtime/kitt/remote/security.py:71-72 | a call is refused if and only if exactly `limit` grants lie in the preceding window |
| `RateLimiter.KeyLeavesExactlyWhen` | packages/kitt-assistant-runtime/kitt/remote/security.py:74-77 | over every history a key leaves the table if and only if a key not in it is granted while it is full, and it is the one inserted earliest |
| `RateLimiter.FewKeysRefusedExactlyWhen` | packages/kitt-assistant-runtime/kitt/remote/security.py:64-78 | over calls naming at most `max_keys` keys a call is refused if and only if exactly `limit` of all its key's grants ever lie in the preceding window |
| `SseSlots.Gate.TryAcquire` | packages/kitt-assistant-runtime/kitt/remote/server.py:506-508 | a permit is taken unless 48 are out |
| `SseSlots.Gate.Enter` | packages/kitt-assistant-runtime/kitt/remote/server.py:510-516 | the session's count goes up, or the permit is given back at four |
| `SseSlots.Gate.Leave` | packages/kitt-assistant-runtime/kitt/remote/server.py:578-583 | the session's count goes down and leaves the map at zero |
| `SseSlots.SlotsAreConserved` | packages/kitt-assistant-runtime/kitt/remote/server.py:505-584 | in every interleaving, permits out are the sum of the counts plus the streams between their two bookkeeping steps; four a session, 48 in all; none left when all have ended |
| `SseSlots.ReleaseIsAlwaysPossible` | packages/kitt-assistant-runtime/kitt/remote/server.py:584 | the bounded semaphore is never released too often |
| `SseSlots.AdmittedExactlyWhen` | packages/kitt-assistant-runtime/kitt/remote/server.py:505-516 | in every interleaving a handler gets a permit if and only if fewer than 48 are at work, and then streams if and only if fewer than 4 of its session do |
| `PairingAuth.Oldest` | packages/kitt-assistant-runtime/kitt/remote/auth.py:114-117 | the first of the sessions created earliest |
| `PairingAuth.Auth.Rotate` | packages/kitt-assistant-runtime/kitt/remote/auth.py:85-93 | a new code with a full lifetime |
| `PairingAuth.Auth.Prune` | packages/kitt-assistant-runtime/kitt/remote/auth.py:95-99 | exactly the expired sessions leave the table |
| `PairingAuth.Auth.Admit` | packages/kitt-assistant-runtime/kitt/remote/auth.py:113-125 | the oldest session makes room in a full table |
| `PairingAuth.Auth.Pair` | packages/kitt-assistant-runtime/kitt/remote/auth.py:101-130 | pairing succeeds exactly with the current unexpired code, white space around it aside, enters a session and consumes the code |
| `PairingAuth.Auth.Authenticate` | packages/kitt-assistant-runtime/kitt/remote/auth.py:132-149 | the session of a token, if it is in the table and bound to this address |
| `PairingAuth.Auth.Logout` | packages/kitt-assistant-runtime/kitt/remote/auth.py:168-172 | the session of the token leaves the table |
| `PairingAuth.TableIsBounded` | packages/kitt-assistant-runtime/kitt/remote/auth.py:113-118 | the table never exceeds `max_sessions`, whatever the history |
| `PairingAuth.TableMirrors` | packages/kitt-assistant-runtime/kitt/remote/auth.py:95-130 | at any time the unexpired table lists, in order, the pairings that the history alone says are signed in |
| `PairingAuth.AuthenticatesExactlyWhen` | packages/kitt-assistant-runtime/kitt/remote/auth.py:132-149 | a token authenticates if and only if some pairing drew it, is within its lifetime, was not logged out, was not pushed out as the oldest of a full table, and has this address |
| `PairingAuth.CodePairsOnce` | packages/kitt-assistant-runtime/kitt/remote/auth.py:101-130 | with fresh codes no code pairs two sessions |
| `PairingAuth.PairsExactlyWhen` | packages/kitt-assistant-runtime/kitt/remote/auth.py:85-130 | over any uses an attempt pairs if and only if it gives, in time, the code issued last: the first one, or that of the latest rotation or pairing |
| `SettingsOverlay.PassesExactlyWhen` | apps/kittd/src/settings_web.rs:454-508 | the cascade of checks passes a value if and only if the field admits it, kind by kind: booleans, 64-bit integers and numbers within bounds, texts, options, web addresses, identifiers, lists of texts; no other kind admits any |
| `SettingsOverlay.LookupExactly` | apps/kittd/src/settings_web.rs:421-435 | the field found for a setting is the first with its key in the first section with its id, and none is found if and only if there is none |
| `SettingsOverlay.ChangesFaultExactly` | apps/kittd/src/settings_web.rs:418-439 | a request has no fault if and only if every section is known, lists its fields and is given settings, and every setting is described by a field that admits its value |
| `SettingsOverlay.FirstFaultIsReported` | apps/kittd/src/settings_web.rs:418-439 | the fault reported is that of the first change that is not sound, and tells whether its section is unknown or lists no fields, its settings are no object, or its first setting that is not admissible is unknown or of a value not admitted |
| `SettingsOverlay.ConflictExactly` | apps/kittd/src/settings_web.rs:399-408 | the conflict answer is given exactly for a stated revision other than the current one |
| `SettingsOverlay.RestartIsExact` | apps/kittd/src/settings_web.rs:440-451 | `restart_required` is the sorted, duplicate-free list of exactly the sections with a changed setting whose describing field names an apply mode other than `live` |
| `SettingsOverlay.Store.ValidateChangeRequest` | apps/kittd/src/settings_web.rs:394-452 | the nested loops report the first fault in order, or the restart list |
| `SettingsOverlay.Store.MergeChanges` | apps/kittd/src/settings_web.rs:510-528 | the nested insertion loops compute the merged components, or fail on an override that is no object |
| `SettingsOverlay.Store.Put` | apps/kittd/src/settings_web.rs:214-226 | an accepted request merges and raises the revision; a refused one changes nothing |
| `SettingsOverlay.MergesExactlyWhen` | apps/kittd/src/settings_web.rs:517-522 | a merge fails exactly on naming a section whose stored override is no object |
| `SettingsOverlay.ValidatedIsAppliedWhen` | apps/kittd/src/settings_web.rs:193-221 | what the validation endpoint calls valid is applied if and only if it names no such section |
| `SettingsOverlay.ValidatedIsNotApplied` | apps/kittd/src/settings_web.rs:193-221 | a request that is called valid and is not applied |
| `SettingsOverlay.RevisionCountsAccepted` | apps/kittd/src/settings_web.rs:538-548 | the revision is the initial one plus the accepted requests, up to the largest 64-bit number |
| `SettingsOverlay.SharedRevisionOnlyAtTheTop` | apps/kittd/src/settings_web.rs:399-408 | two accepted requests name the same revision if and only if the revision can grow no more |
| `SettingsOverlay.RevisionIsShared` | apps/kittd/src/settings_web.rs:537-548 | a run at the largest revision in which two requests naming it are both accepted, the second undoing the first |
| `SettingsOverlay.MergeWrites` | apps/kittd/src/settings_web.rs:517-526 | a merged value is the one the changes give it, else the old one |
| `SettingsOverlay.StoredIsLatestWritten` | apps/kittd/src/settings_web.rs:214-226 | a stored value is that of the latest accepted request naming it |
| `SettingsOverlay.UnwrittenIsInitial` | apps/kittd/src/settings_web.rs:214-226 | a setting no accepted request names keeps its initial value or absence |
| `SettingsOverlay.StoredIsChecked` | apps/kittd/src/settings_web.rs:436-437 | every value a run stores has passed the catalog check |
| `SurfaceRenderer.Walk.RenderComponent` | packages/kitt-assistant-runtime/kitt/remote/static/surface.js:73-163 | the recursive walk over the shared visited set |
| `SurfaceRenderer.OneIsSound` | packages/kitt-assistant-runtime/kitt/remote/static/surface.js:73-163 | on any graph, cycles included, what is drawn is a tree of distinct allowed components, of height at most 16 from the root, whose edges are declared children in order |
| `SurfaceRenderer.TreeIsShown` | packages/kitt-assistant-runtime/kitt/remote/static/surface.js:156-161 | a tree of allowed components within the limits is drawn whole and in order |
| `SurfaceRenderer.DrawsExactlyTheReachable` | packages/kitt-assistant-runtime/kitt/remote/static/surface.js:73-77 | with at most sixteen components, what is drawn is exactly what the root reaches through allowed components |
| `SurfaceRenderer.DeepFirstVisitHidesAChild` | packages/kitt-assistant-runtime/kitt/remote/static/surface.js:74-77 | in a graph holding the example chain a component two steps from the root is not drawn |
| `SurfaceRenderer.ChainIsLasso` | packages/kitt-assistant-runtime/kitt/remote/static/surface.js:74-77 | for every size above sixteen there is such a graph |
| `SurfaceRenderer.SixteenIsTheLimit` | packages/kitt-assistant-runtime/kitt/remote/static/surface.js:73-77 | all graphs of `n` components with an allowed root are drawn as far as they can be reached if and only if `n` is at most sixteen |
| `SurfaceRenderer.ByIdKeepsTheLast` | packages/kitt-assistant-runtime/kitt/remote/static/surface.js:175-180 | the component of an id is the last usable one given for it |
| `SurfaceRenderer.Renderer.Table` | packages/kitt-assistant-runtime/kitt/remote/static/surface.js:175-180 | the loop builds the id table |
| `SurfaceRenderer.Renderer.Render` | packages/kitt-assistant-runtime/kitt/remote/static/surface.js:165-205 | a surface, known by its id without outer white space, is shown exactly when it can be drawn and its revision is zero or newer; then its card replaces the old one |
| `SurfaceRenderer.PaddedIdIsTheSame` | packages/kitt-assistant-runtime/kitt/remote/static/surface.js:165-175 | white space around the id of a surface makes no difference to whether and what it draws |
| `SurfaceRenderer.DrawingExactlyWhen` | packages/kitt-assistant-runtime/kitt/remote/static/surface.js:33-47 | a surface can be drawn if and only if it is within the limits and the last usable component with the root id is of a kind announced, or built in if none is announced; then all it draws are such components |
| `SurfaceRenderer.DrawnExactlyWhen` | packages/kitt-assistant-runtime/kitt/remote/static/surface.js:165-203 | over every history a surface is drawn if and only if it can be drawn and its revision is not positive or above that of its latest draw since the renderer was cleared |
| `SurfaceRenderer.NextIsNewerWhen` | packages/kitt-assistant-runtime/kitt/remote/static/surface.js:168-172 | of two consecutive draws of a surface the second has the larger revision if and only if it is positive |
| `SurfaceRenderer.PositiveRevisionsIncrease` | packages/kitt-assistant-runtime/kitt/remote/static/surface.js:168-203 | with positive revisions the revisions drawn of one surface strictly increase |
| `SurfaceRenderer.RevisionZeroForgets` | packages/kitt-assistant-runtime/kitt/remote/static/surface.js:172-203 | a draw of revision zero lets an older revision replace a newer one |
| `SurfaceRenderer.CardsShowTheLastDraw` | packages/kitt-assistant-runtime/kitt/remote/static/surface.js:186-202 | there is one card for each surface drawn and it shows what was drawn of it last |
| `SurfaceRenderer.CardsStandAsDrawn` | packages/kitt-assistant-runtime/kitt/remote/static/surface.js:186-202 | of two cards the one drawn later stands above the other if and only if it was drawn to be prepended |

## Left out

- Sockets, HTTP, TLS, SQLite, JSON text and file I/O: the ledger and the tables are sequences and maps.
- `_continue_turn`, which adds re-activation to the turn modelled here, and the thread bridge of
  `_astream_blocking`: its producer is some sequence of events that ends or raises.
- Catch-up and attach failing with an error status, and request timeouts inside a stream: they end the
  connection, which the browser model reaches by reconnecting from any state.
- Several sessions attached in turn on one client connection: the gateway opens one for each stream.
- The wake-phrase matcher around the edit distance, the instant commands and the transcript-prefix modes.
- Audio devices, speech workers and their supervision, telemetry counters.
- Redaction of public events and the contents of payloads; an event is its id, session and text.
- The recent-events part of a session's detail, which is not paged.
- Concurrent settings requests: the handlers share no lock, so only requests one at a time are modelled.
- Integers beyond 2^53 compared as doubles against a catalog bound; the model compares them exactly.
- Text, layout and controls inside a drawn surface component; the surface's `invoke` call; chat messages that
  stand between the cards.
- Two pairings whose handlers read the clock in one order and take the lock in the other.
- A supplied pairing code with characters outside ASCII, on which the comparison raises; the table is
  left as by a wrong code.
- The cross-site request token of a session and the canonical form of a client address.
- `VoiceSegmenter.UtterancesAreSlices`: audio over the reals, because rounding of 32-bit samples does not enter any of its claims.
