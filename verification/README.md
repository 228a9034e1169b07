# A verified model of pollmux's resumable transport

pollmux carries a yamux session over HTTP polls, HTTP streams or a WebSocket, and keeps it alive when
the transport dies. This project models the parts that make that safe and proves what they promise:

- **The byte layer** (`reliable.go`). Every byte gets an offset and is kept until acknowledged; a resume
  rewinds to what the peer has; a receiver drops duplicates and refuses gaps. `Layer.dfy` is the layer as a
  value, `Reliable.dfy` the same layer updated in place on 64-bit offsets, proved to make the same transitions.
- **The protocol around it.** `Endpoint.dfy` is one end (pipes, bytes in hand, layer). `EndToEnd.dfy` runs two
  ends over a network that may lose, duplicate, delay and reorder anything. `Recovery.dfy` shows a handshake
  and a loss-free leg always catch up. `Legs.dfy` runs them over well-behaved legs and shows nothing breaks by
  itself, `LegLaws.dfy` when a buffer overflows and that acks catch up; `LateResume.dfy` and `Cuts.dfy` say exactly when an overtaken resume request, or a cut that looks like a
  clean end, does break it. `BatchPoll.dfy` and `Exchange.dfy` do the same for finite polls whose answers may vanish.
- **Who may touch it** (`resume_server.go`). `Attachments.dfy` is the slot table with its wait loops;
  `Handlers.dfy` interleaves handlers, resumes and the sections of the sending layer at lock granularity, and
  `HandlerProgress.dfy` shows what they can always do, `ServerRuns.dfy` that every such interleaving is a run of
  `EndToEnd.dfy`'s server.
- **Session lifecycle** (`session.go`, `store.go`). `Session.dfy`, `Store.dfy` and `Lifecycle.dfy`: grace,
  sweeping, the detached cap and disconnect callbacks, alone and interleaved.
- **Smaller parts.** `Pipe.dfy` (the interruptible pipe), `Frames.dfy` (the wire format), `Supervisor.dfy` (the
  bounded resume loop), `Flusher.dfy` (the non-resumable client's upload queue), `Backoff.dfy`.

Machines are total step functions over a state and an event; an event that is not enabled changes nothing, and a
theorem about runs quantifies over every sequence of events. Where a goroutine waits, what the others do meanwhile
is a parameter, in bursts: any number of their critical sections may run before a woken goroutine has its lock. Clocks, buffer sizes, lost messages, transport failures and what the application writes are
parameters too.

Where the code and its comments disagree the model follows the code:

- `frameReader.next` is documented to report a clean end only at a frame boundary (frame.go:125-131), but a body cut
  right after the header of a frame with a payload also ends cleanly (frame.go:155). `doStreamPoll` then opens the next
  poll with no handshake (resumable_client.go:508-509); `Cuts.CutHarmlessIff` says exactly when that can end the session.
- A resume request delayed past the start of the next leg can be refused and breaks the layer, although the peer was
  honest (resume_server.go:263-266); `LateResumes.LateResumeExactly` says exactly when.
- `Session.Close` leaves the session in the store, where deletes, conditional closes and sweeps then skip it;
  `Lifecycle.InStoreExactly` says exactly what is there.
- A failed send can leave queued bytes with no flusher until the next write (client.go:994-1012);
  `Flushers.UnattendedExactly` says exactly when.

## Model

| member | source | states |
|---|---|---|
| `EndToEnd.EndToEndSafety` | reliable.go:93-157 | in every run over any network, each application was handed exactly the first `recvOffset` bytes its peer wrote, broken or not |
| `EndToEnd.Conservation` | reliable.go:43-58 | acked <= cursor <= send; an unbroken layer retains exactly the numbered unacked bytes and never more than its bound; acked prefix, replay, bytes in hand and pipe are everything written; a broken layer retains nothing |
| `EndToEnd.RunMonotone` | reliable.go:258-292 | over any run acked, received and sent offsets never go back, accepted bytes only grow and broken is absorbing |
| `EndToEnd.StaleResumeExact` | resume_server.go:263-270 | a resume message of any age is refused exactly when the layer is broken or has been acked past it; only a refused one breaks the server |
| `EndToEnd.Step` | reliable.go:93-238 | every step keeps all indices in range and neither end loses what it wrote, accepted or confirmed |
| `EndToEnd.StepInv` | reliable.go:93-238 | every event of either end or the network keeps the two ends paired and every message in flight honest |
| `Recovery.Recoverability` | reliable.go:93-122 | from every reachable unbroken quiescent pair, a handshake and a loss-free leg each way deliver everything written, for any non-empty buffer sizes, in a bounded number of steps |
| `Recovery.LegDelivers` | reliable.go:93-122 | a loss-free leg whose cursor is where the receiver stands delivers everything, whether or not replay overflows on the way |
| `Recovery.HandshakeInStep` | resume_server.go:175-179 | after the symmetric exchange both cursors are exactly where the other end stands |
| `Recovery.AcksRelease` | reliable.go:160-202 | an ack reported on a request, or given by a leg that has just opened, leaves an unbroken peer knowing exactly what was received and retaining exactly the rest |
| `Recovery.ClosedHearsNothing` | reliable.go:139-145 | an application that stops reading is handed nothing more over any run |
| `Legs.NoFalseBreak` | reliable.go:126-179 | over in-order legs with clean rollovers or a finished handshake between them, no gap, no bad ack, and a resume is refused only by a side whose own replay overflowed, or as a request that arrives after a later one succeeded |
| `Legs.NumberingSkipsNothing` | reliable.go:93-122 | from the check for pending replay until it is back, a sender has no replay left to send, whatever arrives in between |
| `Legs.QuiescentDelivered` | reliable.go:93-157 | in every reachable state without a fault, legs running and nothing left to send or in flight, the receiver has everything its peer wrote |
| `Legs.LegStepInv` | resumable_client.go:309-400 | every leg, rollover, failure, retry, lost attach and late request keeps the direction free of holes |
| `Legs.ConsumeFlow` | reliable.go:126-157 | consuming the next frame leaves no hole in what is still in flight or about to be sent |
| `Legs.ConsumeBackFlow` | reliable.go:160-179 | an ack that jumps the cursor mid-replay opens no hole the other way |
| `LegLaws.OverflowExactly` | reliable.go:115-119 | over any run a side overflows exactly when at some numbering its unacknowledged bytes passed its configured bound |
| `LegLaws.WithinBoundNeverRefused` | reliable.go:115-119 | so a session whose sides never write more than their bounds is never refused and never broken, a late request apart |
| `LegLaws.AcksCatchUp` | reliable.go:181-202 | in every reachable running state, once no ack is left to give or hear, an unbroken sender knows exactly what its peer has and retains exactly the rest |
| `LegLaws.FreshLegsAck` | reliable.go:195-202 | a leg that rolls over or opens acknowledges again everything received |
| `LegLaws.AttachUnheard` | resumable_client.go:363-385 | an attach the client never hears of changes nothing the next resume relies on |
| `LateResumes.LateResumeExactly` | resume_server.go:263-270 | in any reachable state a late resume request ends the session exactly when the server overflowed or the client has confirmed more than it says |
| `LateResumes.LateResumeBreaks` | resumable_client.go:363-400 | a run with nothing overflowing in which it does: the retry succeeds, a byte is confirmed on the new legs, then the first request arrives |
| `Cuts.CutHarmlessIff` | resumable_client.go:504-510 | in any reachable state a cut taken for a clean end is harmless, whatever follows, if and only if the receiver has all that was sent |
| `Cuts.CutExactly` | resumable_client.go:451-462 | after a cut that loses something, until the receiver stops there is a gap exactly when it meets another data frame, whether or not the sender stops; if the receiver stops first, the handshake repairs it |
| `Cuts.LosingCutEnds` | reliable.go:126-132 | from every reachable state, a cut that loses something can be followed by the gap that ends the session, with no leg stopping |
| `Cuts.LosingCutReachable` | resumable_client.go:504-510 | such a cut is reachable: one byte sent and not yet received |
| `Cuts.HoledStep` | resumable_client.go:451-462 | until the receiver stops, every event keeps the hole, and nothing else ends the session but a late resume request once the sender has stopped |
| `Layers.NumberRepresents` | reliable.go:110-121 | numbering appends to the history and keeps replay equal to its unacked part, or breaks |
| `Layers.NumberBreaksExactly` | reliable.go:110-121 | it breaks an unbroken layer exactly when the unacknowledged bytes would pass the bound; the frame starts where numbering stood |
| `Layers.SendReplayRepresents` | reliable.go:94-102 | replay sends the history's bytes from the cursor on, as many as there is room for |
| `Layers.AckRepresents` | reliable.go:160-179 | refused exactly if never sent; otherwise releases exactly what it covers and moves the cursor past it |
| `Layers.ResumeOutRepresents` | reliable.go:211-224 | an accepted resume leaves exactly the bytes from the peer's offset on |
| `Layers.Layer.RecvIn` | reliable.go:126-157 | gap, duplicate and closed pipe exactly as their offsets say; otherwise what is handed on is the frame without the part already had, and everything stays in range |
| `Endpoints.ReceiveHonest` | reliable.go:126-157 | an honest frame extends what was accepted along what the peer wrote, whatever it overlaps |
| `Endpoints.FreshLegAck` | reliable.go:181-202 | after a reset the next ack reports everything received, once, and leaves the peer retaining exactly what this side lacks |
| `Endpoints.PairedResume` | reliable.go:211-224 | an honest resume is accepted exactly when the layer is unbroken and not acked past it |
| `Reliables.Reliable.NextOut` | reliable.go:93-122 | the in-place `nextOut` makes the layer's transition: replay first, else what the pipe gives, numbered; history equals what was taken from the pipe; no index or 64-bit sum out of range |
| `Reliables.Reliable.RecvIn` | reliable.go:126-157 | the in-place `recvIn`, for any claimed offset, with the eager interrupt |
| `Reliables.Reliable.Ack` | reliable.go:160-179 | the in-place `ack` |
| `Reliables.Reliable.TakeAck` | reliable.go:185-193 | the in-place `takeAck` |
| `Reliables.Reliable.ResetAck` | reliable.go:198-202 | the in-place `resetAck` |
| `Reliables.Reliable.ResumeOut` | reliable.go:211-224 | the in-place `resumeOut` |
| `Reliables.Reliable.RewindToAcked` | reliable.go:232-238 | the in-place `rewindToAcked` |
| `Reliables.Reliable.MarkBroken` | reliable.go:281-292 | the in-place `markBroken` |
| `Reliables.Reliable.Progress` | reliable.go:258-262 | progress is what the peer confirmed and what was received; with replay it accounts for everything taken |
| `Reliables.Reliable.constructor` | reliable.go:67-72 | a new layer is empty, with the default bound when none is given |
| `BatchPoll.SerialPolls` | batch.go:118-163 | under lost answers, stale polls and concurrent acks, every data answer of an unbroken server starts at its acked offset, and the one the poller hears starts where it stands and is accepted in full |
| `BatchPoll.StepInv` | batch.go:118-163 | every section of a poll handler, every upload ack and every client step keeps that |
| `BatchPoll.PollDelivers` | batch.go:118-163 | from any reachable state with an unbroken server, a fresh poll that is heard hands the client bytes it lacked |
| `Exchanges.PollBatch` | batch.go:118-163 | ack, rewind, send on the in-place layer: the answer starts at the greater of the ack and what was acked and carries the stream's bytes from there; there is one whenever bytes are unacknowledged or the wait brought some |
| `Exchanges.UploadBatch` | batch.go:118-134 | an upload is taken in full from where it extends the stream exactly when it reaches past it with no gap and the pipe is open; a gap or impossible ack breaks the layer |
| `Exchanges.AnswerResume` | resume_server.go:263-274 | either the next transport replays exactly from the client's offset, or the layer is broken for good |
| `Exchanges.SerialPoll` | batch.go:184-240 | one whole poll, answered or lost, leaves the client with exactly a prefix of what the server numbered, and needs no handshake before the next |
| `Attachments.AttachmentTable.Attach` | resume_server.go:70-99 | success owns every direction asked for; failure, only for a resume or a deadline, owns none and has closed its done channel; free directions nobody disturbs are always got |
| `Attachments.AttachmentTable.KickAndWait` | resume_server.go:140-148 | an owner already done succeeds at once, success means it is done, failure means a deadline; the waiter's own slots stay |
| `Attachments.AttachmentTable.KickAll` | resume_server.go:125-138 | success inside a resume means both slots are empty, and empty slots succeed; failure means a deadline |
| `Attachments.AttachmentTable.Detach` | resume_server.go:102-112 | releases exactly this attachment's slots, then closes its done channel |
| `Attachments.AttachmentTable.TryClaim` | resume_server.go:78-91 | one locked round of attach |
| `Attachments.AttachmentTable.IsCurrent` | resume_server.go:117-121 | true exactly while some direction names it, and then its done channel is still open |
| `Attachments.AttachmentTable.BeginResume` | resume_server.go:153-161 | only one resume at a time |
| `Attachments.AttachmentTable.EndResume` | resume_server.go:163-167 | claims are allowed again, slots untouched |
| `Handlers.ResumeExclusivity` | resume_server.go:70-167 | in every interleaving each direction has at most one owner, a finished or failed attachment holds no slot, and both slots are empty from the end of kickAll to endResume |
| `Handlers.TwoPhaseNumbering` | reliable.go:93-122 | in every interleaving at most one handler holds unnumbered bytes, numbering order is pipe order, whoever is past the check for replay has the cursor at the end of what is numbered, and nobody is while a resume may rewind |
| `Handlers.NeverAlreadyAttached` | websocket.go:78-125 | on a resumable session wsAttached is set exactly while a WebSocket serves, at most one does, and one past attach never finds it set |
| `Handlers.StepInv` | resume_server.go:70-167 | every locked section of handlers, resumes and the layer, and every channel close, keeps the slots, flags and bytes exact |
| `HandlerProgress.CanLeave` | resume_server.go:102-112 | from any reachable state a handler can leave by a bounded number of its own steps, and then holds no slot |
| `HandlerProgress.NewcomerAttaches` | resume_server.go:70-99 | a newcomer that finds its directions free gets to work in them |
| `HandlerProgress.ReplacementAttaches` | resume_server.go:86-95 | one that finds its direction taken gets to work in it once the owner has left |
| `HandlerProgress.WorkerSends` | reliable.go:93-122 | a handler at work sends what is to be sent, replay first, then the pipe |
| `HandlerProgress.ResumeCompletes` | resume_server.go:125-167 | a resume whose predecessors are at work can be seen through: once they have left it rewinds or breaks the layer and ends |
| `ServerRuns.HandlersImplementServer` | resume_server.go:33-47 | every interleaving of the handlers, with acks and resumes the client sent, is a run of the end-to-end protocol with the same bytes and sending layer, so the client has exactly a prefix of what the server wrote |
| `ServerRuns.HandIsHeld` | reliable.go:89-122 | the bytes some handler holds are the bytes the protocol's one sender has in hand |
| `Lifecycle.SweepSafety` | store.go:148-199 | however attaches and detaches interleave: nothing attached is closed, expiry is past grace or timeout, eviction is past the normal poll gap, a close inside the grace is the owner's or cap excess; a finished sweep leaves at most the cap and no resumable session past its grace |
| `Lifecycle.SweepCompletes` | store.go:148-199 | a sweep can always be run to its end, and alone it leaves nothing past its grace or timeout |
| `Lifecycle.DeleteNotifies` | handler.go:880-909 | deleting an open session closes it, drops it and calls back once |
| `Lifecycle.ConditionalExactly` | store.go:120-134 | a conditional close wins exactly when the session is idle and out of its grace |
| `Lifecycle.LeftAloneExpires` | session.go:156-162 | a detached resumable session left alone past its grace refuses every attach |
| `Lifecycle.GraceExpiryFinal` | session.go:156-264 | once past its grace a detached resumable session can only be closed or unindexed |
| `Lifecycle.NotifiedAtMostOnce` | handler.go:880-909 | one callback exactly when a delete, conditional close or sweep won the close, none otherwise; what the last two closed never has a transport again |
| `Lifecycle.InStoreExactly` | session.go:196-226 | in every reachable state a closed session is still in the store exactly when its owner closed it directly and never removed it by name, with no callback run or owed |
| `Lifecycle.DirectCloseLingers` | session.go:196-212 | two events reach such a state: connect, then close directly |
| `Lifecycle.StepInv` | store.go:120-199 | every lifecycle section of any goroutine keeps the lifecycle sound |
| `Stores.SessionStore.Sweep` | store.go:148-199 | with nothing interleaved: everything past its grace or timeout leaves, each once; what else leaves was past its poll gap, inside its grace and exactly the excess over the cap, and nobody waiting outlives one evicted who waited less |
| `Stores.SessionStore.Scan` | store.go:153-173 | the scan's expired and detached lists and the map after it, the same for every visiting order |
| `Stores.SessionStore.EvictExcess` | store.go:180-188 | exactly the head of the sorted list leaves |
| `Stores.SessionStore.RemoveAndMarkClosed` | store.go:120-134 | wins exactly when it is held, open and, if asked, idle and past its grace |
| `Stores.SortOrdered` | store.go:179 | the detached list is sorted longest detached first |
| `Sessions.SweepCriteria` | session.go:145-171 | due, counted, waiting, in grace and expired, in the fields the code reads |
| `Sessions.Session.BeginPoll` | session.go:230-238 | refused exactly if closed or past the grace, changing nothing; granted, no sweep at any time may take the session |
| `Sessions.Session.EndPoll` | session.go:240-253 | with others attached the session stays held; the last one leaving starts a grace of exactly its length |
| `Sessions.Session.BeginWebSocket` | session.go:255-264 | as a poll, and refused while a WebSocket is attached: never two |
| `Sessions.Session.EndWebSocket` | session.go:266-272 | as a poll, and the WebSocket place is free again |
| `Sessions.OneCloseWins` | session.go:201-221 | over any interleaving exactly the first close answers true, if the session was open, and nothing attaches after it |
| `Sessions.InFlightExact` | session.go:228-272 | over any interleaving transports attached are attaches granted minus leaves, the WebSocket among them |
| `Sessions.TouchPostpones` | session.go:302-309 | activity postpones the idle timeout to exactly that long after |
| `Sessions.BreakForfeitsGrace` | session.go:127-171 | a session whose layer breaks has no grace and is judged by its last activity |
| `Sessions.Session.Serve` | session.go:201-272 | the in-place session, through any sequence of its critical sections, is in the state and gives the answers those theorems are about |
| `Supervision.Supervise` | resumable_client.go:244-303 | successful resumes are at most five per byte of progress and stable leg, plus five; only a recoverable round is followed by another; it gives up only for an inconsistency, a failed resume, five idle rounds or three empty bodies in a row |
| `Supervision.FinishRound` | resumable_client.go:250-299 | the decision after one set of legs, and what it leaves in the guard |
| `Supervision.StabilityGuard.Record` | resumable_client.go:227-234 | counts consecutive short idle legs and abandons at five |
| `Supervision.StabilityGuard.RecordBodyTimeout` | resumable_client.go:213-220 | counts consecutive empty body timeouts and abandons at three |
| `Supervision.SampledChain` | reliable.go:252-262 | what the supervisor samples along any run of the protocol never goes back, round after round |
| `Supervision.SuperviseRun` | resumable_client.go:244-303 | over any run of the protocol successful resumes are at most five per byte either application writes and per stable leg, plus five |
| `Frames.Truncation` | frame.go:132-159 | any cut of any list of well-sized frames yields exactly the frames before it, then a clean end iff on a boundary or right after a header, else an unexpected end |
| `Frames.WriterToReader` | frame.go:65-159 | numbered data up to the bound and acks under any bound are read back with their offsets; data over the bound is refused |
| `Frames.WireLayout` | frame.go:15-81 | the bytes on the wire: type, big-endian length, payload; big-endian offsets; types one to six |
| `Frames.CutPosition` | frame.go:44-63 | the boundary before a cut and the distance to it |
| `Frames.HeaderCutLooksClean` | frame.go:125-157 | the documented promise about clean ends fails for every frame with a payload cut after its header |
| `Frames.ReadReencodes` | frame.go:132-159 | from any input at all, what is read re-encodes to what was consumed and respects the bounds |
| `Frames.OffsetRoundTrip` | frame.go:83-104 | offsets survive acks and seq-data payloads, both ways |
| `Frames.SeqFrameIsFrame` | frame.go:65-81 | the copy-free seq frame is the plain frame of its payload |
| `Frames.WsRoundTrip` | websocket.go:29-51 | WebSocket messages, numbered data and acks decode to what was encoded, and back |
| `Frames.FrameReader.NextFrame` | frame.go:132-159 | the in-place reader reads what `ReadFrame` says |
| `Pipes.PipeRefinement` | pipe.go:80-224 | over every run, any number of actions landing before a woken waiter has the lock again, bytes handed out followed by bytes buffered are bytes accepted |
| `Pipes.ReadAvailableKeeps` | pipe.go:155-224 | whatever happens during its waits: end of file means closed and drained, a pending interrupt wins and touches nothing, any other return without data means none arrived |
| `Pipes.OutcomeExactly` | pipe.go:172-224 | exactly when a call still waits, reports the end, an interrupt or its timer, or hands out data, and how much |
| `Pipes.WaitParkedExactly` | pipe.go:185-219 | a wait is still on exactly when no burst closed, interrupted, expired or brought enough bytes |
| `Pipes.ReturnsAtOnce` | pipe.go:172-224 | closed and empty is the end; bytes in a closed pipe, or filling the room, come at once |
| `Pipes.ReadBlockingExactly` | pipe.go:115-129 | a blocking read waits exactly while nothing is written and the pipe is open, and hands out what fits |
| `Pipes.InterruptExact` | pipe.go:163-238 | an interrupt is pending after a call exactly if it was pending or raised and not reported |
| `Pipes.ReportsExactly` | pipe.go:163-200 | a call reports an interrupt exactly if it was pending, or ended the first wait with no byte there and the pipe open |
| `Pipes.DataBeforeInterrupt` | pipe.go:202-223 | data that lands right after the interrupt goes out first, with no second wait, and the interrupt stays pending |
| `Pipes.InterruptReportedNext` | pipe.go:202-238 | an interrupt is reported by the current call or the next `ReadAvailable` |
| `Pipes.BufferedPipe.ReadAvailableNow` | pipe.go:155-224 | the in-place two-phase wait |
| `Pipes.BufferedPipe.Await` | pipe.go:185-219 | the condition-variable loop of both phases |
| `Pipes.BufferedPipe.Read` | pipe.go:115-129 | the in-place blocking read, which no interrupt or timer ends |
| `Pipes.BufferedPipe.Write` | pipe.go:80-111 | appends unless closed, and tracks the high-water mark |
| `Flushers.FlusherCorrect` | client.go:654-679 | in every interleaving at most one flusher, flagged exactly; bodies within the server's limit; nothing lost or reordered exactly while no send has failed |
| `Flushers.AttendedStep` | client.go:994-1012 | a step leaves queued bytes without a flusher exactly when a flusher that gave up clears the flag over them, and gives them one again exactly when it is a non-empty write |
| `Flushers.UnattendedExactly` | client.go:969-1012 | over whole runs: queued bytes have no flusher exactly when that happened and nothing was written since |
| `Flushers.Drains` | client.go:969-1006 | a flusher that has not given up, left to itself, posts what it holds and what is queued in order and ends, whatever was dropped before |
| `Flushers.TurnsAndRequestsAreFull` | client.go:984-1004 | a turn takes all that is queued and a request all that fits it |
| `Flushers.FailureStrands` | client.go:994-1012 | a failed send can leave queued bytes with no flusher |
| `Flushers.CancelGivesUp` | client.go:973-980 | a flusher cancelled in its window posts nothing and keeps the queue |
| `Flushers.UploadQueue.FlushLoop` | client.go:969-1012 | finished, failed or cancelled, with writes during its window and its requests, it clears the flag, and what it posted within the limit, lost and left queued are what was queued and arrived, in order |
| `Flushers.UploadQueue.Write` | client.go:654-679 | queues, and starts a flusher exactly when none is flagged |
| `Reconnects.Run` | reconnect.go:93-160 | every wait is the initial one doubled per failure since the last stable run, capped |
| `Reconnects.ClosedForm` | reconnect.go:120-159 | the waits are min(initial*2^k, max) for all k exactly when the initial wait is within the cap, and then never shrink |
| `Reconnects.StableWaitsInitial` | reconnect.go:143-160 | a failure after a stable run waits the initial wait |
| `Reconnects.ShortsAfterStableDouble` | reconnect.go:143-160 | the k-th short failure after it waits that doubled k times, capped |
| `Reconnects.ShortsDouble` | reconnect.go:120-160 | and so from the first failure while no run was stable |
| `Reconnects.PeerClosedIsNeutral` | reconnect.go:143-148 | a peer-closed outcome anywhere changes no later wait |

## Left out

- HTTP, WebSocket and JSON I/O, headers, TLS, authentication, redirects and hooks: messages carry offsets and data, nothing else.
- yamux, `AcceptLoop` and window sizing: they belong to another library.
- How promptly anything happens (kicked handlers, heartbeats, watchdogs, jitter, the retry pacing inside `resume`): time is a parameter or a forward-moving clock, and a wait may end at any point its code allows.
- Mode negotiation, configuration defaults, the upload-stream probe, session ids, metadata, high-water logging and superseded sessions: a reading settles them.
- Non-resumable stream and WebSocket loops: their data path is the pipe and the frames.
- Aliasing of session objects: `Store.dfy` and `Lifecycle.dfy` name a session by its id and keep its fields by value; an id is never reused.
- Layers that break for a protocol violation by the peer (an unnumbered data frame) appear as a step that may happen at any time, not as the frames that cause it.
- `pollInFlight` is an unbounded count; the source's 32-bit counter is taken not to overflow.
- Recovery.Recoverability: assumes both applications still read and no sender is inside `nextOut`, which is when a resume can run at all (`Handlers.TwoPhaseNumbering`).
- Legs.NoFalseBreak: assumes what the supervisor arranges, a handshake finished before the next legs start, and that a leg taken for finished was; `LateResumes.LateResumeExactly` and `Cuts.CutExactly` cover the rest.
- Pipes.BufferedPipe.Read: one reader at a time; two readers of one pipe, which only `Signal` would tell apart, are not modelled.
- Exchanges.PollBatch: runs as one call; what uploads do between its sections is interleaved in `BatchPoll.dfy`.
- Exchanges.SerialPoll: one client and one server with no concurrent upload; `BatchPoll.SerialPolls` covers the interleavings on values.
- Reliables.Reliable.NextOut: runs as one call; acks, receipts and breaks between its two critical sections are interleaved in `EndToEnd.dfy` and `Handlers.dfy`.
