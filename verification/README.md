# xrunner stream protocols

xrunner is a headless job runner with a durable remote shell. Its daemons pass byte logs and job logs around in
pieces: they tail files, hold back unfinished frames, number chunks, drop what a slow subscriber cannot take, resume
at offsets, and rebuild their state from a journal. This project models those protocols and proves what they keep.

- **Durable shell log.** `XrMarkers` has the control frames a shell's hooks write into its log, and the code that
  finds, withholds and removes them; `XrStreaming` and `XrLog` compare rewriting chunk by chunk with rewriting the
  whole log, and with the log's own grammar. `ShellCommands` turns markers into command records, and `ShellTimeline` is
  the file of the completed ones. `ShellSession` is a session with any number of attachments at once, as a machine of
  plain values and as the objects that refine it: what they share, and their send loops. `ShellRuns` has what each
  attachment sends and what a resuming client gets over any run, and `ShellResume` where attachments start.
  `ShellOutbox` is the queue between an attachment and
  its stream, and how it is shut down. `ShellRecords` has how often each command is recorded, and `ShellWriters` what
  the timeline file holds when its writers interleave. `ShellSearch` is the windowed search of the log.
- **Job logs and jobs.** `JobTables` has the job and log tables as values, with the journal and its replay, and
  `JobHistory` what they hold after any run, in terms of the calls that were made. `JobStore`
  is the store itself with its bounded subscriber channels, and `JobStoreRuns` the store under any sequence of calls
  and restarts, down to what every subscriber was offered. `JobStream` interleaves the appender, the streaming server,
  the network and the reconnecting client. `JobDispatch` is one dispatcher, and `JobFleet` any number of them at once
  over the shared tables.
- **Session event log.** `Framing` has varints and length-delimited records; `SessionLog` the write buffer, replay
  with a cursor, and the recovery of ids.
- **Chat.** `StreamAssembly` reads a streamed completion, `EventStream` holds it against the WHATWG standard, and
  `ToolLoop` builds prompts and answers tool calls.
- **Smaller pieces.** `Coalescers` (the batching writer and the PTY stream), `Buffers` (the tail buffer and the
  limited buffer), `ShellQuoting` (against the quoting rules of POSIX.1). `Bytes`, `Seqs` and `Wrappers` are shared.

A file is a byte sequence with a read position; a Go channel is a bounded queue with an open flag; time, flush
schedules, scheduling, failing sends and dropped connections are arbitrary steps. Code that updates state in the source
is a class or a method with a loop here, proved against a function or a predicate that the theorems are about.
Automatic induction is off in every lemma, and inductions are written out.

## What the code does not keep

Each of these says exactly when the code falls short, and when it does not.

- A chunk boundary inside the nine bytes of an introducer lets that frame through to the client as text
  (`XrStreaming.ChunkedEqualsWhole`, `XrLog.StreamDeliversLog`, `ShellRuns.ResumingTiles`). Nothing else does, on
  well-framed logs.
- A command is not recorded once: every attachment whose send loop handles its end frame appends a record, refused
  sends included, and one that started behind its start frame appends a record without it
  (`ShellRecords.TimelineCounts`, `ShellRecords.RecordedTwice`).
- A record goes into the timeline with two calls and no lock. As long as no other writer's call falls between them,
  the file lists what was recorded (`ShellWriters.ListsTheTimeline`). When two writers both write their headers first,
  the first record read is cut from the second header on, and the two come back only if that header commutes with the
  first record (`ShellWriters.TwoWriters`).
- An ack beyond what a client was sent moves its resume point, and the next attachment that resumes starts there
  (`ShellRuns.ForeignAckSkips`).
- `send` answers for queueing a chunk, not for sending it, and the resume point follows that answer. What a resuming
  client receives tiles the log up to its resume point exactly when nothing is left in the queues of its attachments
  (`ShellOutbox.ReceivedTilesIff`), and what is left there when the sending goroutine returns stays there
  (`ShellOutbox.GoneForGood`).
- A `send` entered after `stopSend` is through may pick the closed channel, which panics; no other does
  (`ShellOutbox.PanicsIff`, `ShellOutbox.SendAfterStop`).
- A client that reaches a clean end of a job's log has all of it exactly when its last connection took no step that
  loses chunks and began without a gap; a chunk appended between the snapshot and the subscription is lost, and nobody
  notices
  (`JobStream.EndToEndDelivery`, `JobStream.AppendBeforeSubscribeIsLost`).
- A subscription made after the dispatcher has closed a job's streams never ends by itself (`JobStream.ReturnsIff`).
- A terminal response that names another job leaves the dispatched one RUNNING for good
  (`JobDispatch.StrayResponseStrandsJob`), and changes the other one, finished or not (`JobFleet.LifeIsRegularIff`,
  `JobFleet.FinishedIsOverwrittenIff`).
- The journal restores counters in any order of delivery, but logs only if each key's messages come once each and in
  order, and jobs only if each key's newest job comes last (`JobTables.CountersSurviveReordering`,
  `JobTables.LogsComeBack`, `JobTables.JobsComeBack`).
- A file that stops right behind a record's header passes for complete, and the next records are then read as part of
  the torn one, or not at all (`Framing.TornFrame`, `Framing.FramesBehindHeader`, `SessionLog.BehindLoneHeader`). Any
  other torn tail keeps a session from opening, and hides the whole command timeline (`SessionLog.Session.Reopen`,
  `ShellTimeline.Timeline.ListAfterCrash`).
- A session record of no bytes, or of more than 64 MiB, is written but never read back (`Framing.FrameRoundTrip`).
- A tool call is dropped from a completion when its index is not below the number of indices, and only then
  (`StreamAssembly.NoCallDroppedIff`).
- The completion reader departs from the event-stream standard in white space, empty data, bare `data` lines and
  unfinished events, and in nothing else (`EventStream.ReaderFollowsStandardIff`).
- A limited buffer that is full to the byte reports a truncation after an empty write (`Buffers.LimitedBuffer.String`).

Three branches of the source never do anything: the range test in `searchLogRange` (the window never leaves the
range), the `Buffered() > 256*1024` flush of the session log (the buffer is no larger), and the `room == 0` flush of
`StreamPTY` (a full buffer has just been sent; the model keeps the branch). Where comment and code differ, the model
follows the code: proto/xrunner/v1/remote.proto:180 speaks of the last acknowledged offset, which the server also
moves whenever it sends a chunk.

## Model

| member | source | states |
|---|---|---|
| XrMarkers.FlushPoint | internal/remote/shell.go:1450-1465 | at most 4096 bytes are ever held back |
| XrMarkers.FlushPointIs | internal/remote/shell.go:1450-1465 | everything is flushed, except from the last introducer on if it has no BEL behind it and is at most 4096 bytes back |
| XrMarkers.StripXRMarkers | internal/remote/shell.go:1467-1500 | the loop computes `Rewrite`, whose meaning `RewriteRendered` gives |
| XrLog.RewriteRendered | internal/remote/shell.go:1467-1500 | from a log written as text and frames, exactly the frames go, and each is reported where it lies |
| XrLog.HookPayloadParses | internal/remote/shell.go:1502-1541 | what the hook scripts print parses to the marker it describes |
| XrLog.FieldsParse | internal/remote/shell.go:1502-1541 | four fields or more parse if the first is one of the two kinds, to the marker the next three describe |
| XrLog.ParsedFields | internal/remote/shell.go:1502-1541 | nothing else parses |
| XrLog.RenderedWellFramed | internal/remote/shell.go:1450-1465 | a log of frames within the limit is well framed, and every introducer opens a complete frame |
| XrStreaming.RewriteSplit | internal/remote/shell.go:1467-1500 | cutting a log at a point changes the result exactly when the point lies in a frame |
| XrStreaming.FlushPointShape | internal/remote/shell.go:1450-1465 | a flush stops at the read position or at the introducer of the frame still open there |
| XrStreaming.FlushCutsOnlyIntros | internal/remote/shell.go:1450-1465 | withheld bytes keep chunk ends out of frames except when the read position is inside an introducer |
| XrStreaming.SentTo | internal/remote/shell.go:687-761 | after any flush, all but at most 4096 bytes of what was read have been sent |
| XrStreaming.ChunkedEqualsWhole | internal/remote/shell.go:687-761 | chunked equals whole, text and markers with absolute offsets, if and only if no flush caught the reader inside an introducer |
| XrLog.AllSent | internal/remote/shell.go:687-761 | a flush with everything read leaves nothing pending |
| XrLog.StreamDeliversLog | internal/remote/shell.go:687-800 | the client gets the log's text and markers exactly when no flush position lies inside an introducer |
| ShellCommands.OnAllInBatches | internal/remote/shell.go:698-736 | markers spread over several flushes give the same records as markers of one flush |
| ShellCommands.OnlyOwnMarkersMatter | internal/remote/shell.go:698-736 | a command's events depend on its own markers only |
| ShellCommands.EventsOfMarkers | internal/remote/shell.go:698-736 | for any markers, one event each: a start; an end with what the start said, if that was the last marker of the command; or an end alone |
| ShellCommands.RewriteOrdered | internal/remote/shell.go:1467-1500 | markers come in log order, without overlap, at offsets inside the rewritten range |
| ShellCommands.CommandRecordsAcrossFlushes | internal/remote/shell.go:685-736 | one start event and one completed record per command, with Begin at the end of the start frame, End at the start of the end frame, and OutputBytes their difference, however flushes fell |
| ShellSession.SameRewrite | internal/remote/shell.go:697-697 | rewriting the pending buffer at its start offset is rewriting that stretch of the log |
| ShellSession.DeliveredSurvivesOutput | internal/remote/shell.go:763-800 | later output does not change what was sent before |
| ShellSession.DeliveredSnoc | internal/remote/shell.go:687-761 | one more flush sends exactly one more rewritten chunk, from where the last one stopped |
| ShellSession.SendLoop.constructor | internal/remote/shell.go:407-449 | where an attachment starts: at the offset asked for, at the last ack if the client resumes, never past the end |
| ShellSession.SendLoop.Read | internal/remote/shell.go:763-771 | `pendingStart + len(pending) == offset` is kept, and pending holds the log's bytes |
| ShellSession.SendLoop.Flush | internal/remote/shell.go:687-761 | the attachment, the timeline and the resume points after one flush; at most 4096 bytes stay pending; a refused chunk is recorded and moves no resume point |
| ShellSession.SendLoop.SendChunk | internal/remote/shell.go:698-760 | the chunk starts where the last one ended, and the resume point follows an accepted one |
| ShellSession.SendLoop.RecordCommands | internal/remote/shell.go:698-736 | the loop over the markers of one flush appends exactly the records they complete |
| ShellRuns.AttachmentsTile | internal/remote/shell.go:669-801 | in every reachable state of any number of attachments, each one's accepted chunks tile the log from its start and carry its one-pass rewriting if and only if no flush caught an introducer |
| ShellRuns.ResumingTiles | internal/remote/shell.go:407-449 | a client that resumes from its last ack, over any number of attachments, refused sends and other clients, is sent a tiling of the log from its first byte to its resume point, with the same condition on the text |
| ShellRuns.ForeignAckSkips | internal/remote/shell.go:641-646 | an ack moves the resume point exactly if it lies beyond what the client was sent, and where the next attachment then starts |
| ShellResume.ResumePointIsGreatest | internal/remote/shell.go:968-982 | over any run, a resume point is the greatest of the offsets the client acked and the ends of the chunks accepted for it; the empty client has none |
| ShellResume.AttachStarts | internal/remote/shell.go:407-446 | after any run, a new attachment starts at the resume point exactly if the client asked to resume, named no offset and has one, and else at the offset it named, never past the end |
| ShellResume.FlushCatchesUp | internal/remote/shell.go:687-761 | after any run, a flush leaves at most 4096 of the bytes read unsent, and ends the attachment exactly if its chunk is refused |
| ShellOutbox.DeliveredIsPrefix | internal/remote/shell.go:451-489 | for any interleaving, what the stream took is a prefix of what `send` accepted, and the rest is at most one message refused or being sent, and the queue |
| ShellOutbox.NothingTwice | internal/remote/shell.go:479-489 | what is accepted or waits was sent, each message as often as it was sent at most |
| ShellOutbox.GoneForGood | internal/remote/shell.go:460-478 | once the sending goroutine has returned, nothing more is delivered |
| ShellOutbox.PanicsIff | internal/remote/shell.go:454-489 | the process panics if and only if a `send` entered after `stopSend` was through picks the closed channel; one that was waiting never does |
| ShellOutbox.SendAfterStop | internal/remote/shell.go:479-489 | after `stopSend`, the next `send` may return false and may panic |
| ShellOutbox.SendBeforeStop | internal/remote/shell.go:479-489 | before that, a `send` queues its message while there is room for it, and waits if no case is ready |
| ShellOutbox.NextIsDelivered | internal/remote/shell.go:460-478 | while the sending goroutine runs, the oldest queued message can be taken and delivered |
| ShellOutbox.GoesWhen | internal/remote/shell.go:460-478 | it returns exactly after a failed send, or between two sends once `stopSend` has begun |
| ShellOutbox.ReceivedTilesIff | internal/remote/shell.go:744-759 | over any run of a resuming client, what the streams took tiles the log up to the resume point if and only if no accepted chunk is queued, being sent, or refused |
| ShellRuns.Do | internal/remote/shell.go:383-814 | every step of the objects is the step of the plain machine |
| ShellRuns.Follow | internal/remote/shell.go:383-814 | over any run the objects are in the state the machine runs to: log, resume points, timeline, and every attachment with its chunks and flushes |
| ShellRecords.RewriteReports | internal/remote/shell.go:1467-1500 | one pass reports the markers of the frames in its range, and nothing else |
| ShellRecords.DeliveredReports | internal/remote/shell.go:687-761 | a stream reports the markers of exactly the frames it has sent, but for those whose introducer a flush cut |
| ShellRecords.RecordsOf | internal/remote/shell.go:685-736 | what an attachment records of a command: one record with its output's offsets if it saw both frames, one without the start if it saw the end only, otherwise none |
| ShellRecords.RecordFields | internal/remote/shell.go:702-732 | the two records that a command can leave, field by field |
| ShellRecords.TimelineCounts | internal/remote/shell.go:698-760 | over any run, how often each record of a command is handed to the timeline: once per attachment that saw both frames, and once per attachment that saw the end only, refused flushes included |
| ShellRecords.RecordedTwice | internal/remote/shell.go:728-756 | a refused send followed by a resume records a command twice; a replay from its BeginOffset adds a record without its start |
| ShellRecords.HookedCommand | internal/remote/shell.go:1058-1104 | what the hooks print around one command is a log that starts and ends it once |
| ShellTimeline.ReadLastCommandRecords | internal/remote/shell.go:1279-1323 | the last records of a clean file; an error for a torn one |
| ShellTimeline.DecodableConcat | internal/remote/shell.go:1290-1304 | messages are decoded one by one, in order |
| ShellTimeline.DecodableOne | internal/remote/shell.go:1290-1304 | a message that does not decode is skipped |
| ShellTimeline.Timeline.WriteHeader | internal/remote/shell.go:1141-1145 | the first call of a record, behind any calls of any writers |
| ShellTimeline.Timeline.WriteBody | internal/remote/shell.go:1146-1147 | the second call of a record |
| ShellTimeline.Timeline.Append | internal/remote/shell.go:1124-1148 | both calls with nothing between them: one record more, and the file stays whole if it was |
| ShellTimeline.Timeline.List | internal/remote/shell.go:1279-1310 | the last `limit` records of whatever the file holds; those recorded, if no call came between a header and its record |
| ShellTimeline.Timeline.ListAfterCrash | internal/remote/shell.go:1279-1323 | for every prefix of the file, exactly what is listed and exactly when listing fails |
| ShellWriters.UndisturbedIsPaired | internal/remote/shell.go:1124-1148 | if each writer writes its records in its own order and no other call falls between a header and its body, every header is followed by its own body |
| ShellWriters.ListsTheTimeline | internal/remote/shell.go:1124-1148 | under that condition, over any run and any order of the writers, the file lists exactly the records that run requests and send loops recorded, each as often |
| ShellWriters.ListedCounts | internal/remote/shell.go:698-736 | under that condition, how often each record of a command is listed |
| ShellWriters.TwoWriters | internal/remote/shell.go:1141-1147 | with both headers first: what is read first, and exactly when the two records come back |
| ShellSearch.SearchLogRange | internal/remote/shell.go:1325-1397 | reports are true occurrences with the surroundings their window has, the whole left context unless they lie in that window's carry; windows report in turn, without overlaps, and repeat only what lies in their carry; below the limit no occurrence in the range is missed, and whatever the limit none that starts before the last report or ends before its chunk; the loop terminates |
| ShellSearch.ScanWindow | internal/remote/shell.go:1359-1382 | one window: its matches do not overlap, and none is skipped, nor one before the last report if the limit ends the scan |
| ShellSearch.MatchIsGood | internal/remote/shell.go:1367-1376 | the exact snippet of a report: its context on both sides as far as the window reaches |
| ShellSearch.LeftContextIsWhole | internal/remote/shell.go:1373-1391 | outside the carry of its window, a report has its whole left context |
| ShellSearch.NextCarry | internal/remote/shell.go:1386-1391 | the carry is the last `overlap` bytes of the window, still the file's own bytes |
| ShellSearch.NextCovered | internal/remote/shell.go:1348-1395 | with that carry, the next window holds every occurrence that ends in its new bytes |
| JobTables.ReplayPut | internal/control/store/store.go:88-102 | replaying the message of a Put does what the Put did |
| JobTables.ReplayAppend | internal/control/store/store.go:137-159 | replaying the messages of an AppendLogs one by one does what it did |
| JobTables.RestartsAreInvisible | internal/control/store/jetstream.go:101-156 | over any run, the journal rebuilds all four tables exactly, and restarts make no difference |
| JobTables.CountersSurviveReordering | internal/control/store/store.go:249-280 | any order and any repetition of the messages restores versions and offsets, and none is issued again |
| JobTables.SameLogs | internal/control/store/store.go:259-270 | two deliveries give the same logs if and only if they hold the same chunks per key in the same order |
| JobTables.SameJobs | internal/control/store/store.go:249-257 | two deliveries give the same jobs if and only if their last messages per key carry the same jobs |
| JobTables.LogsComeBack | internal/control/store/store.go:259-270 | a delivery of the journal's messages restores the logs if and only if each key's offsets read 1, 2, ..., n |
| JobTables.JobsComeBack | internal/control/store/store.go:249-257 | it restores the jobs if and only if what comes last for each key carries the job of its newest message |
| JobTables.LogsAreNumbered | internal/control/store/store.go:137-159 | stored logs are numbered 1, 2, 3, ... over every run, restarts among it |
| JobHistory.StoredJob | internal/control/store/store.go:88-102 | over any run, the stored job is the one last put, its version is the number of puts, and each put was published once with its number |
| JobHistory.StoredLog | internal/control/store/store.go:137-159 | over any run, the stored log is what was appended, in order, unchanged but for its numbers 1, 2, 3, ... |
| JobHistory.KeysDiffer | internal/control/store/store.go:80-86 | different jobs have different keys, for tenants without a colon in their name |
| JobStore.LogChannel.TrySend | internal/control/store/store.go:239-246 | a full queue drops the chunk, an open one with room takes it |
| JobStore.LogChannel.OfferAll | internal/control/store/store.go:240-245 | a subscriber is offered all chunks of a batch in order |
| JobStore.LogChannel.Receive | internal/control/jobsvc/service.go:274-277 | queued chunks come first, and then the end of a closed channel |
| JobStore.Store.Put | internal/control/store/store.go:88-102 | the new tables and the published message; the journal still rebuilds the store |
| JobStore.Store.AppendLogs | internal/control/store/store.go:137-159 | numbering, storing, publishing, and offering to every subscriber of the job; the journal still rebuilds the store |
| JobStore.Store.StampChunks | internal/control/store/store.go:144-148 | the loop gives consecutive offsets and moves the counter by the number of chunks |
| JobStore.Store.Broadcast | internal/control/store/store.go:231-247 | every subscriber of the key, and no other, is offered the chunks |
| JobStore.Store.ApplyReplayedJob | internal/control/store/store.go:249-257 | one replayed job message |
| JobStore.Store.ApplyReplayedLog | internal/control/store/store.go:259-270 | one replayed log message, offered to subscribers as well |
| JobStore.Store.Hydrate | internal/control/store/jetstream.go:101-156 | the tables after replaying both streams |
| JobStore.Store.SubscribeLogs | internal/control/store/store.go:182-194 | a fresh open channel under a new id |
| JobStore.Store.UnsubscribeLogs | internal/control/store/store.go:197-229 | exactly that subscriber leaves the map and is closed once |
| JobStore.Store.CloseLogStreams | internal/control/store/store.go:205-215 | exactly the job's subscribers leave the map and are closed |
| JobStoreRuns.Append | internal/control/store/store.go:137-159 | what every channel has been offered after an append |
| JobStoreRuns.Leave | internal/control/store/store.go:197-229 | exactly one channel is closed, and all others hold what they held |
| JobStoreRuns.Serve | internal/control/store/store.go:88-280 | over any sequence of calls and restarts the store is in the state the model runs to: its tables and journal, who is subscribed, and what every channel was offered and has received; the registered channels are exactly the open ones, and ids are not reused |
| JobStoreRuns.PlaneOfCalls | internal/control/store/store.go:88-280 | subscribers make no difference to the tables and the journal |
| JobStoreRuns.SubscriberSees | internal/control/store/store.go:182-247 | after any sequence of calls, what a subscriber was offered is exactly its job's log from where it stood at the subscription; what it gets is strictly rising, and all of that exactly when its queue was never full |
| JobStoreRuns.SubscriptionStarts | internal/control/store/store.go:182-194 | a subscription starts open, at the end of the log |
| JobStoreRuns.OpenUntilEnded | internal/control/store/store.go:197-229 | until a restart, a subscription stays open exactly as long as neither its own unsubscription nor the end of its job's streams is called |
| JobStream.OfferRising | internal/control/store/store.go:231-247 | a queue of stored chunks stays strictly rising under offers, with drops |
| JobStream.RunOk | internal/control/jobsvc/service.go:230-289 | the invariant of store, server, network and client holds in every reachable state |
| JobStream.StreamOrder | internal/control/jobsvc/service.go:230-289 | in every interleaving, data is stored chunks at strictly rising offsets above AfterOffset, and every heartbeat carries the last data offset |
| JobStream.HeartbeatGoes | internal/control/jobsvc/service.go:262-273 | a live connection can send a heartbeat at any time, at the offset of the last data |
| JobStream.EndToEndDelivery | cmd/xrunner/main.go:257-358 | over any disconnects and resumes: at a clean end the client has the whole final log if and only if its last connection took no step that loses chunks and began without a gap; until such a step it has the log up to its cursor |
| JobStream.MissedStep | internal/control/store/store.go:231-247 | which steps make a connection miss chunks: appends before the subscription, appends the queue has no room for, and nothing else |
| JobStream.LosslessDelivery | cmd/xrunner/main.go:257-358 | with no append before a subscription and no full queue, the client always holds exactly the log up to its cursor |
| JobStream.AppendBeforeSubscribeIsLost | internal/control/jobsvc/service.go:248-254 | a run in which a chunk is lost although the stream ends cleanly |
| JobStream.ReturnsIff | internal/control/jobsvc/service.go:248-277 | when exactly a connection can still return by itself, in every reachable state |
| JobDispatch.Service.SubmitJob | internal/control/jobsvc/service.go:64-104 | refused requests store nothing; accepted ones store a new ACCEPTED job |
| JobDispatch.Service.Dispatch | internal/control/jobsvc/service.go:124-180 | the job and log tables and the subscribers after any worker behaviour; the job holds what the ending says, field by field |
| JobDispatch.Service.Follow | internal/control/jobsvc/service.go:160-179 | the receive loop finds the first end of the stream and stores the logs up to it |
| JobDispatch.Service.Finish | internal/control/jobsvc/service.go:182-209 | the ended job holds the response's state, exit code and message, or FAILED and the failure's message; all others stay, and its subscribers are gone |
| JobDispatch.FollowedToTheEnd | internal/control/jobsvc/service.go:160-179 | a stream logs everything up to and with the message that ends it, in order, and ends as that message says, or as closed if none does |
| JobDispatch.Service.RunJob | internal/control/jobsvc/service.go:152-179 | the tables and subscribers after the worker's run |
| JobDispatch.NothingAfterTheEnd | internal/control/jobsvc/service.go:160-179 | messages after the first terminal one or the first error are not consumed |
| JobDispatch.StrayResponseStrandsJob | internal/control/jobsvc/service.go:194-209 | a job stays RUNNING at version 2 if and only if the terminal response names another job |
| JobFleet.DispatchIsAlone | internal/control/jobsvc/service.go:124-209 | taken alone, a dispatcher of the fleet does to the tables what `Dispatch` does |
| JobFleet.JobLifecycle | internal/control/jobsvc/service.go:64-209 | for any interleaving of any number of jobs with well-behaved workers, what is published of each is a prefix of 1 ACCEPTED, 2 RUNNING, 3 terminal; a finished job holds what was submitted and, field by field, what the last input of its dispatcher said; SUCCEEDED if and only if that was a terminal response with exit code 0 |
| JobFleet.EndingIsHeard | internal/control/jobsvc/service.go:124-180 | over any interleaving, whatever the workers do, a dispatcher is past its stream exactly if the last input it consumed ended it, and that input is its ending |
| JobFleet.SubmitStarts | internal/control/jobsvc/service.go:64-104 | what a submission adds: a task with the reference and spec given, and its job ACCEPTED with version 1; or nothing |
| JobFleet.TerminalStays | internal/control/jobsvc/service.go:182-209 | a terminal job is never touched again, whatever the others do |
| JobFleet.RunActs | internal/control/store/store.go:88-102 | for any workers, what is published of a job is exactly what was done to it, one version each |
| JobFleet.AppliersAreDone | internal/control/jobsvc/service.go:182-209 | a dispatcher that stored an ending for a job is done, and its ending names that job |
| JobFleet.LifeIsRegularIff | internal/control/jobsvc/service.go:194-209 | when workers may answer for other jobs, a job's versions are regular if and only if no dispatcher stored an ending for it before it began and at most one has since |
| JobFleet.FinishedIsOverwrittenIff | internal/control/jobsvc/service.go:194-209 | a finished job gets a new version exactly by another dispatcher's ending that names it |
| Framing.VarintRoundTrip | internal/remote/sessionstore/store.go:304-330 | every 64-bit length reads back, whatever follows |
| Framing.VarintCutShort | internal/remote/sessionstore/store.go:304-308 | a cut varint is told apart from the end of the file |
| Framing.VarintReads | internal/remote/sessionstore/store.go:304-308 | exactly which bytes read as a varint, which stop early, and which overflow 64 bits |
| Framing.FrameRoundTrip | internal/remote/sessionstore/store.go:304-330 | a frame reads back exactly when its length is one the reader takes |
| Framing.TornFrame | internal/remote/sessionstore/store.go:304-320 | which torn frames pass for the end of the file |
| Framing.StrayHeader | internal/remote/sessionstore/store.go:304-320 | what a lone header makes of the bytes after it |
| Framing.ReadFrames | internal/remote/sessionstore/store.go:304-330 | reading a run of frames gives its messages, and then what follows |
| Framing.FramesBehindHeader | internal/remote/sessionstore/store.go:304-330 | frames behind a lone header: none is read until as many bytes are there as it announces, and then those bytes are read as one record |
| Framing.InterleavedFrames | internal/remote/shell.go:1141-1147 | two records whose headers were both written first: what is read first, and exactly when both come back |
| Framing.ReadPrefix | internal/remote/sessionstore/store.go:172-180 | reading any prefix of a file gives exactly the whole frames, and ends cleanly in exactly two cases |
| SessionLog.Writer.Write | internal/remote/sessionstore/store.go:322-330 | file and buffer together grow by exactly the bytes written |
| SessionLog.Session.Append | internal/remote/sessionstore/store.go:121-145 | file and buffer are the framed history with ids 1, 2, 3, ...; after an append that is not LOW the file is the whole history |
| SessionLog.Session.FileIsPrefix | internal/remote/sessionstore/store.go:250-272 | the file decodes to exactly a prefix of the history |
| SessionLog.Replay | internal/remote/sessionstore/store.go:172-192 | the loop sends the decodable events above the cursor |
| SessionLog.DecodedUpTo | internal/remote/sessionstore/store.go:172-192 | decoding goes up to the first record that does not decode, which is an error |
| SessionLog.SessionReads | internal/remote/sessionstore/store.go:304-320 | a session record reads back exactly if it has 1 byte to 64 MiB |
| SessionLog.Session.ReplayFrom | internal/remote/sessionstore/store.go:147-192 | replay is the history after the cursor, as far as it is on file; all of it once nothing is buffered |
| SessionLog.ScanNextID | internal/remote/sessionstore/store.go:274-302 | one more than the largest id on file, or an error for a damaged file |
| SessionLog.Session.Reopen | internal/remote/sessionstore/store.go:219-238 | when a session opens again, that ids go on from what is on file, and what the file looks like when it opens on a lone header |
| SessionLog.BehindLoneHeader | internal/remote/sessionstore/store.go:172-192 | what a session that opened on a lone header reads back of what it appends |
| StreamAssembly.Reader.ReadStream | internal/llm/openai_compat.go:184-288 | an error exactly if the first event that is DONE or carries an error carries one, with its message; else the text and the merged calls of all events before it; the deltas handed on are what those events say, one by one |
| StreamAssembly.AcceptedUpToStop | internal/llm/openai_compat.go:192-250 | what is taken in: the choices of all events that decode, up to the first one that is DONE or carries an error |
| StreamAssembly.Reader.FlushEvent | internal/llm/openai_compat.go:192-250 | whether an event ends the stream, fails with its message, adds its choices, or does nothing |
| StreamAssembly.Reader.TakeChoice | internal/llm/openai_compat.go:212-248 | text, deltas and calls stay those of the choices taken in |
| StreamAssembly.MergeFragments | internal/llm/openai_compat.go:217-247 | the merging loops fold the fragments in order, with the slice-order fallback |
| StreamAssembly.MergedCalls | internal/llm/openai_compat.go:217-247 | each index has its first id, its first name, and its arguments joined in order |
| StreamAssembly.FirstIdIs | internal/llm/openai_compat.go:236-239 | the id of a call is that of its first fragment that has one |
| StreamAssembly.FirstNameIs | internal/llm/openai_compat.go:236-242 | the name of a call is that of its first fragment that has one |
| StreamAssembly.DenseCallsAllReturned | internal/llm/openai_compat.go:281-286 | dense indices: every call comes back, in index order, whole |
| StreamAssembly.NoCallDroppedIff | internal/llm/openai_compat.go:281-286 | for any stream, every call comes back if and only if each has an index below the number of indices |
| StreamAssembly.NoCallDroppedIffDense | internal/llm/openai_compat.go:281-286 | in a stream without empty calls that means that the indices are dense |
| EventStream.ReaderIsLooseStandard | internal/llm/openai_compat.go:192-280 | for any lines, the reader's events are the trimmed non-empty ones that section 9.2.6 of the WHATWG HTML Standard prescribes for the lines as the reader takes them |
| EventStream.ReaderFollowsStandardIff | internal/llm/openai_compat.go:192-280 | the exact condition on the lines under which the reader's events are the standard's |
| ToolLoop.BuildMessages | internal/remote/session_service.go:528-564 | the prompt is the projection of the last MaxHistoryEvents events, or 50, behind the system prompt |
| ToolLoop.ProjectionConcat | internal/remote/session_service.go:555-563 | the projection goes event by event, in order |
| ToolLoop.FillRing | internal/remote/session_service.go:536-548 | the ring, shifted in place, holds the last events |
| ToolLoop.PairedConcat | internal/remote/session_service.go:466-486 | well-paired transcripts joined are well paired |
| ToolLoop.NormalizeIds | internal/remote/session_service.go:459-464 | calls without an id are named by position |
| ToolLoop.DigitsDenote | internal/remote/session_service.go:459-464 | the position in a name is its decimal number |
| ToolLoop.AnswerCalls | internal/remote/session_service.go:459-486 | one turn: the assistant's calls, then exactly one answer each, in order, with the same ids |
| ToolLoop.RunTools | internal/remote/session_service.go:413-488 | every prompt is well paired and extends the last by one answered turn; at most MaxToolIters generations, or one, and that many if the last one asked for tools; the final text is that of a generation without calls |
| ToolLoop.ChatTurn | internal/remote/session_service.go:413-564 | from the log to the final text: the first prompt, the chain of answered turns, and the rule of the final text |
| Coalescers.BatchWriter.Conserves | cmd/xrunner/ssh.go:1887-1942 | output, buffer and queue are all writes in order |
| Coalescers.BatchWriter.Receive | cmd/xrunner/ssh.go:1924-1937 | what one turn of the loop writes and what it buffers, keeping the conservation and the limit |
| Coalescers.BatchWriter.Close | cmd/xrunner/ssh.go:1901-1906 | after Close everything is out; later calls do nothing |
| Coalescers.RunBatchWriter | cmd/xrunner/ssh.go:1869-1942 | for any interleaving, the destination gets every piece in order, in groups of whole pieces within the limit unless one piece alone exceeds it |
| Coalescers.PtyStream.Fill | internal/remote/pty.go:198-216 | one turn of the inner loop takes in a part of what was read and sends full chunks only |
| Coalescers.PtyStream.Absorb | internal/remote/pty.go:195-217 | the inner loop terminates, takes in exactly what was read, and sends full chunks only |
| Coalescers.PtyStream.AfterRead | internal/remote/pty.go:218-251 | how each turn ends and what it flushes |
| Coalescers.StreamPTY | internal/remote/pty.go:166-253 | the call ends with the first turn that ends it or the first send that fails; sent chunks of at most 64 KiB are a prefix of what was read; all of it at the end, and after every idle tick, unless a send failed; a send that failed had bytes and was due |
| Buffers.TailBuffer.Write | cmd/xrunner/runbook.go:75-92 | in place, the buffer is the last `max` bytes of everything written |
| Buffers.ShiftDown | cmd/xrunner/runbook.go:87-90 | the overlapping copy moves the kept bytes down unchanged |
| Buffers.LimitedBuffer.Write | internal/remote/session_service.go:594-609 | the buffer is the first `max` bytes, and when it counts as truncated |
| Buffers.LimitedBuffer.String | internal/remote/session_service.go:611-620 | the kept bytes and the exact condition of the notice |
| Buffers.Capture | internal/remote/session_service.go:587-620 | both captures over any sequence of writes |
| ShellQuoting.QuotingRoundTrip | cmd/xrunner/runbook.go:361-367 | `shellEscape` and `shellQuoteSingle` of any NUL-free string read as one word equal to it, ending at the closing quote |
| ShellQuoting.QuotingIsInjective | internal/remote/shell.go:1770-1775 | no two strings share a quoted form |

## Left out

- tmux, SSH, gRPC, NATS and its batches and timeouts, zstd, fsync, permissions: foreign calls; only their byte and message sequences appear.
- Protobuf and JSON: a message is a datatype, marshalling a function of which only that decoding undoes encoding is used, JSON decoding an arbitrary function; undecodable journal messages are not in the journal.
- Timestamps, clocks and intervals: steps and flags instead; timestamps of jobs and records are dropped, marker timestamps kept raw.
- ParsePayload: keeps the timestamp, exit code and base64 fields of a marker as bytes, because parsing numbers and base64 is the library's.
- SendLoop: one shell session name, no log removal; a flush is one step but for its writes to the timeline, which `ShellWriters` takes in any order.
- ListsTheTimeline: every writer has written all of its records; a process that dies earlier is in `ListAfterCrash` for undisturbed writes.
- ReceivedTilesIff: what each outbox accepted is taken to be what its attachment's `send` accepted; a client that resumes from an offset of its own is not in it.
- Artifact extraction from command output, shell input, resizing and adaptive chunk sizes: chunk sizes and flush times are arbitrary here.
- waitForRunEnd: its result depends on read-ahead and on lines arriving whole.
- Aliasing of a record after its start event was handed to gRPC: records are values.
- TimelineCounts: records that run requests append are counted as such, however their offsets came about.
- ReadLastCommandRecords: a length beyond memory, for which Go panics, is a torn record here.
- SearchLogRange: cancellation and read errors are left out.
- Store.Put: nil arguments, failing publishes, and publishes of concurrent writers overtaking each other except as reordering; counters do not wrap at 64 bits.
- JobStream: one server call and one client at a time; `StreamJobLogs` and the client are steps of a value, with the queue of `JobStore`, so a server goroutine that outlives its client is not shown.
- The filter and the printing of the logs command, and stored chunks that look like heartbeats, which it does not print.
- JobFleet: job ids are fresh UUIDs, so a key that was used before is not submitted; closing a job's log streams is in `Dispatch` only.
- Dispatch: the stored log need not equal the worker's output, because a terminal response carries all chunks again.
- Session.Append: I/O errors, and the creation, listing and deletion of sessions.
- StreamEvents: it subscribes after it replays and promises no gap-free delivery.
- ReadStream: a last line without its newline is dropped by the source and is not among the lines here.
- ReaderFollowsStandardIff: lines that end in a carriage return alone, and the standard's byte-order mark.
- ToolLoop: what the tools do, events broadcast around the loop, and storing the final text.
- RunBatchWriter: one writer; a write after Close, which panics in Go.
- TailBuffer: the growth of the slice; the array has its full size from the start.
- ReadWord: expansions, patterns, comments and operators; the reader gives up or stops there.
- Configuration, flag handling, tool bundles, path cleaning, terminal and desktop interfaces: easy members.
