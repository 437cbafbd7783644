# presto-pasta: a verified model of the datapath

presto-pasta is a user-mode NAT: it terminates TCP towards a guest over a lossy tap, relays UDP and
ping, and bridges everything to host sockets from one io_uring event loop. This project models that
datapath in Dafny and proves what it promises over every run. `dafny verify dfyconfig.toml` checks
all of it.

## Layers

- `Words`, `Buffers`: machine words as integers, with explicit 32-bit wrap-around, and the layout of a buffer.
- `TcpModel`: one TCP flow as a state machine on values, branch for branch: guest segments, host-socket
  readiness, poll failures and timer ticks. The host socket answers any read with any bytes up to the
  free space, with nothing, with EOF or with an error, and takes any prefix of what is written. The
  history records the host's stream, the bytes the host socket took, and every segment given to the
  tap, with the unbounded stream offset each segment came from.
- `TcpInvariant`, `TcpLabels`, `TcpDelivery`, `TcpLiveness`: the invariant of every reachable state and
  the run theorems: download and upload fidelity, graceful close, ack arithmetic across the wrap, no
  stuck flow, delayed acks, segmentation.
- `TcpEffects`, `TcpResends`: what one event does to a flow, said of the whole step: what the host socket
  takes and gives, which segments go out, when bytes go out again, and when the flow ends.
- `EndToEnd`, `Recovery`, `Windows`, `Rounds`: the flow together with a guest that reassembles by 32-bit
  sequence numbers, keeping or dropping whatever comes ahead of a gap, and a tap that loses any frames.
  Delivery over every run, recovery from any loss in one round, delivery of the whole stream in finitely
  many rounds, and exactly when a round gets nowhere.
- `Examples`, `ShrunkExample`, `LeakExample`: concrete runs on which a property fails without its condition;
  `CloseExample`, `LossExample`: runs that meet what graceful close and delivery in rounds ask for.
- `Ring`, `TcpFlow`: the imperative form. `RingBuffer` is a part of the pool's memory with head and length;
  class `Connection` has the fields of the `Tcp` record, and each method is proved to do to the abstract
  state exactly what the function in `TcpModel` says, and to touch no memory but its own ring.
- `FlowTable`, `EventLoop`, `TcpPolls`, `Dispatch`, `Wakeups`: slots, buffers, the submission queue (first
  in, first out) and the operations in the kernel (completing in any order), as a state machine.
- `LoopDelivery`: every connection in the loop is a run of the single-flow model, so the run theorems hold
  of every flow while slots and buffers are reused around it.
- `LoopSlots`, `LoopLiveness`, `LoopOps`: what each event of the loop does to each slot, as a definition of one
  slot that the handlers with their lists and queues are proved to meet; hence a stalled flow of the loop
  is never left alone; and what becomes of operations and cancel requests.
- `Lifecycle`: the imperative form: classes `Pool`, `Flows` and `Engine`. The pool is one array of bytes, a
  TCP flow is a `Connection` object whose ring is the part of that array its buffer number selects, and
  the kernel writes into other parts. `Engine.Valid()` says that every flow's ring holds exactly what
  that flow has queued; the partition of buffers proved in `EventLoop` is what keeps it true.
- `Checksum`, `Wire`, `Headers`, `TapChecksums`: RFC 1071 arithmetic and the headers that use it.
- `UdpCoalescing`: super-frames of UDP datagrams in both directions.
- `Dns64`: discovery of the NAT64 prefix (RFC 7050) and the embedding it inverts (RFC 6052).

## What the proofs found

- A SYN on an established flow rewinds `seq_una` to the start of the stream but leaves the ring as it
  is (`src/uring.rs:1037-1045`, `src/uring.rs:1381-1383`). Labels stay right exactly when the acknowledged
  bytes are a multiple of 2^32, for instance none (`SynSync`); otherwise every data segment up to the
  next SYN is labelled wrongly (`OutOfSync`, and the run in `SynMislabels`). A whole run is faithful if
  and only if no data goes out after such a SYN and before the next one (`DownloadFidelity`); likewise for
  the FIN (`FinFidelity`, and the run in `SynMislabelsFin`). Theorems about both ends together ask that
  every SYN leaves the labels right (`SynSafe`).
- The same branch forgets what is in flight. It leaves the flow a wake-up source exactly when the poll
  is armed, a FIN is out, or the guest's window is closed (`SynAwake`); a flow always has one if and only
  if every SYN finds it so (`AwakeExactly`). Otherwise it waits for the guest (`SynStalls`), whose next
  segment revives it (`GuestRevives`).
- A TCP poll that completes with an error other than a cancellation resets the flow while `poll_armed`
  is still set (`src/uring.rs:230-232`). The slot then waits for a completion that will never come: a
  completion keeps the one-operation-per-slot bookkeeping exact if and only if it is not that one
  (`ExactUnlessPollFails`), and slot and buffer are lost for good (`LeakIsForever`). Three events from
  the start are enough (`FailureLeaksForGood`).
- After a retransmission timeout only as much counts as in flight as the guest's present window lets out
  again (`src/uring.rs:308-316`), and an ack of more than that is dropped (`src/uring.rs:1124-1127`). A guest
  that already holds more than its window covers, because it shrank the window, is therefore never heard:
  a round moves the acked position if and only if the window covers what the guest holds
  (`OneRoundRecovers`), and no number of rounds with the same window changes that (`ShrunkForever`, and
  the run in `WindowShrinks`). As long as the edge of the window does not move left this cannot happen
  (`StaysWithin`).
- Once the FIN is acked, an ack of one byte further still moves the send position (`FinPositionStays`, and
  the run in `AckBehindFinMoves`).
- DESIGN.md speaks of 64k buffers and no user-space retransmission. The code has a TCP sender with fast
  retransmit and a timeout, over rings of 262144 bytes; the model follows the code.

## Model

| member | source | states |
|---|---|---|
| `TcpInvariant.StepKeeps` | src/uring.rs:980-1333 | every event of a flow keeps the invariant: the queue is the unacked tail of the host's stream, `sent_unacked <= buffered <= FRAME`, a FIN out means EOF with nothing buffered, every segment on the tap carries the stream's bytes at its offset and fits 16-bit lengths, `seq_from_guest` counts exactly the bytes the host took, an owed ack is on the tap or deferred |
| `TcpInvariant.Run` | src/uring.rs:179-249 | the invariant holds in every state of every run |
| `TcpInvariant.Opened` | src/uring.rs:926-954 | a flow opened by any SYN (any MSS, window, scale) satisfies the invariant |
| `TcpInvariant.CutTiles` | src/uring.rs:1237-1258 | the frames of one send are contiguous and join to exactly the bytes to send |
| `TcpInvariant.CutSlices` | src/uring.rs:1237-1258 | each of them is a non-empty slice of the data, at most one chunk long, labelled with its offset |
| `TcpInvariant.WindowBound` | src/uring.rs:1122-1123 | the scaled guest window stays below 2^30, so the shift never leaves 32 bits |
| `TcpInvariant.AckKeeps` | src/uring.rs:1118-1164 | an ack, whatever it says, keeps the invariant |
| `TcpInvariant.DataToGuestKeeps` | src/uring.rs:1171-1333 | so does reading from the host and sending, whatever the socket answers |
| `TcpInvariant.UploadKeeps` | src/uring.rs:1050-1105 | so do payload and FIN from the guest |
| `TcpInvariant.DataToGuestFrame` | src/uring.rs:1171-1271 | sending host bytes never touches the upload side, the ack position, the window or the handshake |
| `TcpLabels.StepConsistent` | src/uring.rs:1020-1333 | every event but a SYN appends segments labelled with the current offset between sequence numbers and stream, carrying nothing already acked, and keeps that offset; the acked position never moves back |
| `TcpDelivery.SynSync` | src/uring.rs:1037-1045 | after a SYN sequence numbers match the stream if and only if the acked bytes are a multiple of 2^32 |
| `TcpDelivery.DownloadFidelity` | src/uring.rs:1118-1333 | over every run, every data segment carries exactly the host's bytes at the offset its sequence number names, first transmission or not, if and only if no data goes out between a SYN that met acked bytes off a multiple of 2^32 and the next SYN |
| `TcpDelivery.SafeSynsSuffice` | src/uring.rs:1037-1045 | in particular over every run whose SYNs each leave the labels right |
| `TcpDelivery.OutOfSync` | src/uring.rs:1381-1383 | once out of step, every data segment and every FIN of every run up to the next SYN names a wrong offset |
| `Examples.SynMislabels` | src/uring.rs:1037-1045 | a run in which a SYN after a data ack puts the second byte under the first one's sequence number, so that download fidelity fails |
| `TcpDelivery.FinFidelity` | src/uring.rs:1210-1218 | over every run, every FIN's sequence number names the end of the host's stream if and only if no FIN goes out between a SYN that met acked bytes off a multiple of 2^32 and the next SYN |
| `Examples.SynMislabelsFin` | src/uring.rs:1037-1045 | a run in which a SYN after the last data ack puts the FIN under the first byte's sequence number |
| `Examples.SynStalls` | src/uring.rs:1037-1045 | a run in which a SYN leaves the flow with no wake-up source |
| `TcpDelivery.UploadFidelity` | src/uring.rs:1050-1099 | over every run, the host socket has taken exactly a prefix of the guest's stream ending at `seq_from_guest`, all of it once the write side is shut down, under partial writes, reordering and retransmission |
| `TcpEffects.SegmentTaken` | src/uring.rs:1050-1094 | of an in-order segment the host socket takes exactly what it accepts and `seq_from_guest` moves by exactly that, and by one more exactly if the FIN behind it counts; a segment out of order or after the shutdown changes nothing |
| `TcpEffects.OthersTakeNothing` | src/uring.rs:1020-1045 | no other event writes to the host socket |
| `TcpEffects.SegmentAcked` | src/uring.rs:1072-1105 | a segment is acked at once if and only if its data was not taken in full, is pushed or is the second in a row, or it brings a FIN with nothing missing; otherwise its ack is deferred |
| `TcpEffects.StepReads` | src/uring.rs:1277-1333 | the host's stream grows by what the socket had waiting, in order, all of it or as much as the buffer takes, and ends only when a read finds EOF; a read that the flow has room for is not dropped; a guest RST removes the flow, and a failed read or a host error does so with an RST at the send position as its last segment |
| `TcpEffects.EofWasRead` | src/uring.rs:1318 | over every run, the stream counts as ended only if some event of the run read EOF |
| `TcpEffects.ClosesAtOnce` | src/uring.rs:1517-1524 | over every run, a flow is removed as soon as our FIN is acked and the guest's has come |
| `TcpEffects.StepProper` | src/uring.rs:1385-1409 | every segment acks what the host has taken; data carries no other flag; an RST goes out exactly as the last segment of a reset, which sends no FIN |
| `TcpEffects.OpensAsOffered` | src/uring.rs:926-954 | a new flow honours the SYN's MSS, but no less than 536, its window as it stands, and a scale of at most 14 |
| `TcpEffects.Handshake` | src/uring.rs:980-1005 | until the host accepts, a flow answers and changes nothing; then a SYN-ACK numbered with the initial sequence number acks the guest's SYN, and the stream starts right behind it |
| `TcpEffects.SynAnswered` | src/uring.rs:1037-1045 | a SYN on an established flow is answered with the same SYN-ACK and nothing else |
| `TcpDelivery.AckReleases` | src/uring.rs:1118-1147 | across the 2^32 wrap an ack releases k bytes exactly when it names the position k past the oldest unacked byte and that much is in flight; stale or future acks release nothing; the FIN is acked exactly by the position behind it |
| `TcpResends.ThreeDuplicates` | src/uring.rs:1148-1163 | of three bare acks in a row of the oldest byte in flight, with the window unchanged and open, exactly one, the third counted, puts the stream from that byte on back on the tap as far as the window goes, and the others resend nothing |
| `TcpResends.NothingTwice` | src/uring.rs:1118-1163 | no event but a third duplicate ack and a timeout sends anything that was sent before: not a changed window, not a payload, not a FIN |
| `TcpResends.SegmentCounts` | src/uring.rs:1127-1157 | the count of duplicates restarts exactly when the ack position moves, the clock of the timeout exactly when it does or data or a FIN goes out |
| `TcpResends.AckAtSendPosition` | src/uring.rs:1388-1409 | the ack of a guest segment carries the sequence number of the send position |
| `TcpResends.TickAcks` | src/uring.rs:297-304 | a tick sends a deferred ack first, at the send position |
| `TcpResends.TickResendsItsFin` | src/uring.rs:317-319 | a FIN unacked for a timeout goes out again at its own position |
| `TcpResends.TickProbesWindow` | src/uring.rs:1414-1434 | a closed window is probed one sequence number left of the oldest unacked byte |
| `TcpResends.TickLeavesAlone` | src/flow.rs:215-232 | the timer changes nothing of a flow that is not stale or waits for its socket only |
| `TcpResends.ScaleDoubles` | src/uring.rs:1122-1123 | each step of the window scale doubles what a window field stands for |
| `TcpResends.BurstIsFull` | src/uring.rs:1227-1258 | all frames of one send but the last are as large as they may be, and resegmentation is asked for exactly if one MSS is not enough |
| `TcpDelivery.FinPositionStays` | src/uring.rs:1126-1138 | after the FIN is acked the send position stays if and only if the guest does not ack the byte after it |
| `Examples.AckBehindFinMoves` | src/uring.rs:1126-1138 | a run in which it does, and the send position moves past the end of the stream |
| `CloseExample.ClosesGracefully` | src/uring.rs:1517-1524 | a run with a byte each way that meets the conditions of graceful close and closes gracefully |
| `TcpDelivery.GracefulClose` | src/uring.rs:1517-1524 | over every run in which the guest sends slices of one stream: whenever the flow was closed gracefully, some event read EOF from the host, every host byte before it was acked, every FIN sat right behind the last of them, the host took every guest byte, and its write side was shut down after all of them |
| `TcpLiveness.DataToGuestAwake` | src/uring.rs:1171-1271 | trying to send leaves an established flow with a wake-up source, whatever state it was in |
| `TcpLiveness.GuestRevives` | src/uring.rs:1020-1109 | any guest segment but a SYN revives an established flow |
| `TcpLiveness.SynAwake` | src/uring.rs:1037-1045 | the SYN branch leaves a wake-up source if and only if the poll is armed, a FIN is out or the window is closed |
| `TcpLiveness.NeverStuck` | src/uring.rs:293-325 | after every run with such SYNs only, the flow has its poll armed, data in flight, a FIN out or acked, or a closed guest window |
| `TcpLiveness.AwakeExactly` | src/uring.rs:1037-1045 | a flow that has one of these has one in every state of a run if and only if every SYN of the run leaves it one |
| `TcpLiveness.TimerSelects` | src/flow.rs:215-232 | a flow that waits for neither its poll nor the guest's FIN is selected by the timer once stale |
| `TcpLiveness.StalledFlowSpeaks` | src/uring.rs:293-325 | of two ticks more than a timeout apart, with any events in between: by the end of the second, a segment went to the tap for such a flow, unless the guest dropped it |
| `TcpLiveness.EverySecondFrameAcked` | src/uring.rs:1072-1105 | a data frame is answered at once or leaves a deferral behind, and the next one after a deferral is always answered (section 4.2.3.2 of RFC 1122) |
| `TcpLiveness.TimerFlushes` | src/uring.rs:297-304 | a timer tick clears every deferral and sends the ack it stood for |
| `TcpLiveness.DataToGuestSends` | src/uring.rs:1191-1265 | one call sends exactly the next stretch of the host's stream in contiguous frames, each within the guest's MSS or marked for resegmentation at it, and leaves no more in flight than the guest's window |
| `EndToEnd.EndToEndDelivery` | src/uring.rs:1020-1333 | over every run of flow, guest and lossy tap with honest acks and safe SYNs, across any number of wraps, whatever the guest keeps of frames ahead of a gap: each end holds a prefix of the other's stream, the guest all of it by the time our FIN goes out, and both all of it after a graceful close |
| `EndToEnd.RunSystem` | src/uring.rs:179-249 | the invariant holds whatever moves flow, guest and tap make |
| `EndToEnd.ReceiveExtends` | src/uring.rs:1244-1256 | a guest that places a frame by its 32-bit sequence number alone, in order or behind a gap, holds nothing but the host's bytes at their positions, and reaches the frame's end if it had reached its start |
| `EndToEnd.AckBounded` | src/uring.rs:1124-1147 | after an honest ack no more counts as acked than the guest has |
| `Recovery.DeliverCovers` | src/uring.rs:1237-1258 | contiguous frames from a position the guest has reached bring the guest to their end |
| `Recovery.CumulativeAck` | src/uring.rs:1124-1147 | an ack of all that the guest holds counts in full if that much is in flight, and not at all otherwise |
| `Recovery.OneRoundRecovers` | src/uring.rs:308-316 | from any reachable state with data in flight, an open window and no progress for a timeout: the tick resends, the tap delivers, and the guest's honest cumulative ack advances the acked position, to all that the guest holds, if and only if the guest's window covers what it holds |
| `Recovery.OneRoundRecoversFin` | src/uring.rs:317-319 | the same for the FIN: after tick, delivery and honest ack it is acked |
| `Windows.StepEnds` | src/uring.rs:1191-1265 | whatever an event puts on the tap ends by the right edge of the window that the guest then has |
| `Windows.AckPutsEdge` | src/uring.rs:1122-1147 | an ack of bytes in flight, or of none, puts that edge at the position it names plus the window it announces |
| `Windows.OthersKeepEdge` | src/uring.rs:1171-1271 | no other event moves it |
| `Windows.StaysWithin` | src/uring.rs:1122-1127 | over every run in which the edge does not move left, all that the guest holds or that is on its way lies within its window |
| `Rounds.RoundsFrom` | src/uring.rs:293-325 | from any state in which that holds and the host has ended its stream, once the tap delivers and the guest acks all it has with an open window, at most one round per unacked byte and two more until the guest holds the whole stream and has acked the FIN; while nothing is in flight, the first reply is not to take window back |
| `Rounds.RoundsDeliver` | src/uring.rs:293-325 | hence the same after every run in which the edge of the guest's window does not move left, whatever was lost |
| `LossExample.LostIsDelivered` | src/uring.rs:308-316 | after a run that loses every frame, four rounds deliver both bytes and the FIN |
| `Rounds.ClosedWindowRound` | src/uring.rs:319-323 | behind a closed window the tick probes, and a reply with an open window gets bytes in flight again |
| `Rounds.ShrunkForever` | src/uring.rs:1124-1127 | while the guest keeps a window below what it holds, no number of rounds moves the acked position |
| `ShrunkExample.WindowShrinks` | src/uring.rs:1122-1127 | a run with an honest guest that moves the edge left and ends in such a state |
| `ShrunkExample.NeverAcked` | src/uring.rs:1124-1127 | after it, no number of rounds gets a byte acked |
| `Ring.HeldDrop` | src/uring.rs:1139-1144 | advancing the head drops exactly the oldest bytes |
| `Ring.HeldSlice` | src/uring.rs:1239-1253 | `payload ++ payload2` is the logical slice, wherever it wraps |
| `Ring.HeldAppend` | src/uring.rs:1287-1330 | writing behind the held bytes, around the end, appends them and overwrites none |
| `Ring.RingBuffer.Release` | src/uring.rs:1139-1144 | the ring's queue loses exactly its first n bytes |
| `Ring.RingBuffer.Store` | src/uring.rs:1287-1330 | the ring's queue gains exactly the bytes of one read |
| `Ring.RingBuffer.Slices` | src/uring.rs:1239-1253 | the two slices handed to the tap join to the requested stretch of the queue |
| `TcpFlow.Connection.constructor` | src/uring.rs:926-954 | a new flow's fields stand for the opened connection |
| `TcpFlow.Connection.AckFromGuest` | src/uring.rs:1118-1164 | the ack handler on u32 fields and ring does what the model's does, of which `AckReleases`, `ThreeDuplicates` and `NothingTwice` say what that is |
| `TcpFlow.Connection.FillBuffer` | src/uring.rs:1277-1333 | the read into the ring is the model's read, of which `StepReads` says what it makes of each answer; `None` exactly for a failed read, which resets the flow |
| `TcpFlow.Frames` | src/uring.rs:1237-1258 | the send loop, reading frames straight from the ring, yields the frames cut from the queue |
| `TcpFlow.Connection.SendFrames` | src/uring.rs:1227-1258 | frame size and resegmentation size are chosen as the model says, and all frames reach the tap |
| `TcpFlow.Connection.DataToGuest` | src/uring.rs:1171-1271 | the whole send path refines the model |
| `TcpFlow.Connection.Upload` | src/uring.rs:1050-1105 | payload, deferral, FIN and ack are the model's, of which `SegmentTaken` and `SegmentAcked` say what they are |
| `TcpFlow.Connection.FromGuest` | src/uring.rs:1020-1109 | the segment handler refines the model and keeps the invariant |
| `TcpFlow.Connection.SocketReady` | src/uring.rs:980-1016 | so does the poll handler |
| `TcpFlow.Connection.Tick` | src/uring.rs:293-325 | so does timer-driven maintenance |
| `TcpFlow.Connection.Handle` | src/uring.rs:980-1333 | any event is one step of the model, keeps the invariant and touches no memory but the flow's ring |
| `TcpFlow.Connection.TimerDueNow` | src/flow.rs:222-229 | the timer's filter on the fields is the model's |
| `FlowTable.InsertKeeps` | src/flow.rs:145-156 | inserting under an absent key keeps the index exact and takes an empty slot |
| `FlowTable.RemoveKeeps` | src/flow.rs:159-168 | removal keeps index and free list exact and leaves a newer flow on the same key untouched |
| `FlowTable.MarkClosingKeeps` | src/flow.rs:173-180 | so does marking a flow as closing, which takes it out of the index |
| `Dispatch.LruEvictable` | src/flow.rs:199-207 | the result is the first of the longest-idle live UDP and ping flows, or none when there is none |
| `Dispatch.Select` | src/flow.rs:184-232 | a slot is selected if and only if its flow passes the filter, in ascending order |
| `EventLoop.RemoveFlowSafe` | src/uring.rs:340-356 | closing or freeing a flow keeps the loop safe |
| `EventLoop.AddFlowSafe` | src/uring.rs:553-561 | a new flow gets a slot that no operation names and a buffer that nobody else has |
| `EventLoop.CancelReachesOwner` | src/uring.rs:348-353 | a cancel request that reaches the kernel meets only an operation of the flow it was made for, never one of the slot's next owner |
| `EventLoop.KernelTakesSafe` | src/uring.rs:187-194 | handing the queue to the kernel entry by entry keeps the loop safe, whether cancels come in time or not; the operations not yet in the kernel are exactly those still in the queue |
| `TcpPolls.GuestArms` | src/uring.rs:1020-1109 | a segment handler submits a poll exactly when it arms a flow that was not armed, so at most one |
| `TcpPolls.ReadyArms` | src/uring.rs:980-1016 | so does the handler of a completed poll, counting from disarmed |
| `TcpPolls.TimerArms` | src/uring.rs:293-325 | so does the timer |
| `Dispatch.StepLoop` | src/uring.rs:179-249 | every event keeps the loop safe: operations name the flow they were submitted for, at most one per slot; index and free list exact; pool, tap buffer and flow buffers partition all buffers |
| `LoopSlots.StepSlots` | src/uring.rs:179-249 | every event of the loop does to every slot exactly what a definition of one slot says: the flow a completion or segment is for does one step and leaves if its connection is over, a SYN or datagram of a new flow takes the next slot or makes the longest-idle flow go, every other slot is untouched |
| `LoopSlots.TimerSlot` | src/uring.rs:211-215 | a timer event ticks every live TCP flow once, with its own read, then gives up every live flow idle for too long, and touches no other slot |
| `LoopLiveness.TimerReclaims` | src/uring.rs:328-335 | after a timer event no live flow has been idle for more than the expiry |
| `LoopLiveness.FlowGoesOn` | src/uring.rs:179-249 | a flow still in its slot after a run of the loop was there all along, and its connection is where a run of the single-flow model leads from where it was |
| `LoopLiveness.LoopSpeaks` | src/uring.rs:211-215 | of two timer events of the loop more than a timeout apart, with any events in between, a flow that only the timer can wake has put a segment on the tap by the end of the second, or has left its slot |
| `LoopLiveness.RunSpeaks` | src/uring.rs:293-325 | so it is in every state of every benign run of the loop |
| `LoopOps.TakesOldest` | src/uring.rs:187-194 | the kernel takes the oldest entry: it marks that operation submitted, or, in time, the operation of that slot cancelled, and nothing else |
| `LoopOps.ClosingIsCancelled` | src/uring.rs:340-356 | whatever event makes a flow close, a cancel request for it is in the queue, and none is lost before the kernel takes it |
| `Dispatch.RunLoop` | src/uring.rs:179-249 | the loop is safe in every state of every run |
| `Dispatch.Start` | src/uring.rs:155-157 | the loop starts safe, with the first buffer taken for the tap |
| `Dispatch.CompletionsReachTheirFlow` | src/uring.rs:218-245 | in every state of every run an operation in flight names an occupied slot that holds the flow it was submitted for; no other operation names it; only closing flows' operations are cancelled; slot numbers stay clear of the reserved values |
| `Wakeups.StepExact` | src/uring.rs:179-249 | every benign event keeps the bookkeeping exact: a UDP, ping or armed TCP flow has an operation, a closing flow has one, and every live connection has a wake-up source |
| `Wakeups.RunExact` | src/uring.rs:179-249 | so it is in every state of every benign run |
| `Wakeups.ExactUnlessPollFails` | src/uring.rs:227-232 | a completion keeps it exact if and only if it is not a failed poll of a live TCP flow |
| `Wakeups.LeakIsForever` | src/uring.rs:223-232 | the slot and buffer that such a failure leaks stay as they are over every run that follows |
| `LeakExample.FailureLeaksForGood` | src/uring.rs:227-232 | a guest's SYN and a failed poll leak the only flow buffer, and after any further events the pool is empty |
| `LoopDelivery.ConnectionsAreRuns` | src/uring.rs:179-249 | in every state of every run of the loop, each live connection is the outcome of a run of the single-flow model from its opening SYN |
| `LoopDelivery.LoopFidelity` | src/uring.rs:179-249 | hence over every run of the loop in which every guest's SYNs are safe and its segments are slices of one stream, with flows coming and going and slots and buffers reused, each live flow carries exactly its own host's and its own guest's bytes |
| `Lifecycle.Pool.Alloc` | src/buf.rs:39-41 | the last freed buffer is handed out, and nothing when the list is empty |
| `Lifecycle.Engine.constructor` | src/uring.rs:124-172 | the event loop starts as the model does, with all buffers in one memory |
| `Lifecycle.Engine.RunConnection` | src/uring.rs:1171-1333 | an event of one flow, on its fields and on its ring within the pool's memory, is one step of the model and changes no byte outside its buffer; every other flow's ring still holds what that flow has queued |
| `Lifecycle.Engine.Received` | src/uring.rs:358-370 | what the kernel receives for a UDP or ping flow, whenever it arrives, overwrites no byte that a connection has queued |
| `Lifecycle.Engine.TapRead` | src/uring.rs:262-269 | neither do the guest's frames, which change nothing but the tap's buffer |
| `Lifecycle.Engine.AllocFlowBuf` | src/uring.rs:578-587 | a dry pool evicts the least recently used candidate and yields no buffer yet |
| `Lifecycle.Engine.Complete` | src/uring.rs:218-245 | dispatch of a completion is the model's step, and every ring still holds its flow's queue |
| `Lifecycle.Engine.HandleTcp` | src/uring.rs:869-889 | the same for dispatch of a guest segment, a SYN that takes a fresh ring from the pool included |
| `Lifecycle.Engine.Forward` | src/uring.rs:493-573 | the same for a guest's datagram or echo request |
| `Lifecycle.Engine.TcpPeriodic` | src/uring.rs:293-325 | the same for the timer loop over the flows that are due |
| `Lifecycle.Engine.ExpireFlows` | src/uring.rs:328-335 | the same for reclaiming of idle flows |
| `Lifecycle.Engine.Handle` | src/uring.rs:179-249 | every event of the loop, on objects and memory, is one step of the model and keeps every flow's bytes apart |
| `Lifecycle.Engine.Run` | src/uring.rs:179-249 | hence every run on objects and memory, with the kernel writing received datagrams and tap frames into buffers at any time, is a run of the model, and every ring holds its flow's queue throughout |
| `Checksum.FoldValue` | src/proto.rs:404-406 | folding is reduction modulo 0xffff, except that only zero folds to zero |
| `Checksum.Sum2Same` | src/proto.rs:371-382 | a split sum agrees with the contiguous one modulo 0xffff and in being zero, odd splits included |
| `Checksum.SplitSumFolds` | src/proto.rs:371-382 | folding the split sum gives exactly the fold of the contiguous sum (section 2 of RFC 1071) |
| `Checksum.SumFits` | src/proto.rs:387-397 | sums of up to 131072 bytes fit 32 bits |
| `Checksum.ComputeSum` | src/proto.rs:387-397 | the loop over pairs computes the sum of the big-endian words |
| `Checksum.ComputeFold` | src/proto.rs:404-406 | the carry loop terminates and folds |
| `Checksum.ComputeSum2` | src/proto.rs:371-382 | the split sum is computed without leaving 32 bits |
| `Checksum.ComputeCheck` | src/proto.rs:402-409 | the checksum is the complement of the folded sum |
| `Checksum.FieldVerifies` | src/proto.rs:280-286 | a field computed over zeroed data makes the data check to zero, and so does 0xffff in place of zero |
| `Checksum.OffloadAgrees` | src/proto.rs:280-285 | completing a field that holds the folded pseudo sum gives what software computes |
| `Wire.TcpVerifies` | src/proto.rs:258-287 | for any header, options and payload in two parts, the software checksum verifies and the offloaded one completes to it |
| `Wire.ScanOptions` | src/proto.rs:228-246 | the option loop terminates on every input and computes the specified parse |
| `Wire.ParseHeader` | src/proto.rs:209-248 | so does the whole parser, malformed headers included |
| `Wire.OptionsRoundTrip` | src/proto.rs:228-246 | parsing any well-formed option list, with no-ops, unknown kinds and an end marker, recovers the last MSS and window scale |
| `Wire.TcpRoundTrip` | src/proto.rs:209-287 | parsing a written header recovers every field, the header length and the options' offers (section 3.1 of RFC 9293) |
| `Wire.SynAckParses` | src/uring.rs:1361-1365 | a guest reads MSS 65495 from the SYN-ACK, and scale 7 exactly when it offered scaling |
| `Wire.WriteTcp` | src/proto.rs:258-287 | the header written in place is the specified one, and the payload behind it is untouched |
| `Headers.PseudoV4` | src/proto.rs:346-355 | the result is the sum of the IPv4 pseudo header's words |
| `Headers.PseudoV6` | src/proto.rs:359-365 | the loop computes the sum of the IPv6 pseudo header's words |
| `Headers.SegmentVerifies` | src/uring.rs:1562-1580 | over either family, the receiver's check of pseudo header, header and wrapped payload is zero; the offloaded form completes to the same field |
| `Headers.FrameTcp` | src/uring.rs:1546-1580 | the header of a segment whose payload stays in the ring is written with that field, with no 32-bit overflow |
| `TapChecksums.TapSegmentsVerify` | src/uring.rs:1546-1580 | this applies to every segment a flow ever hands to the tap, wherever its payload wraps |
| `Headers.UdpVerifies` | src/proto.rs:326-341 | the UDP checksum verifies, is never zero, and agrees with the completed offloaded form |
| `Headers.UdpRoundTrip` | src/proto.rs:297-315 | parsing a written UDP header recovers both ports and the length, and a length below the header's own is malformed |
| `Headers.WriteUdp` | src/proto.rs:326-341 | a receiver parses the given ports and the datagram's length from the header written in place, the payload is untouched, and the software checksum verifies and is not zero |
| `Headers.WriteIpv4` | src/proto.rs:97-109 | a receiver parses the given addresses, protocol and total length from the header written in place, which checks to zero |
| `Headers.PatchId` | src/proto.rs:173-178 | a receiver parses the new identifier and the old type, the message checks to zero, nothing else changes |
| `Headers.WriteUnreachable` | src/proto.rs:184-190 | the message checks to zero and the excerpt is untouched |
| `UdpCoalescing.CoalescePreserves` | src/uring.rs:616-674 | resegmenting the emitted frames gives exactly the drained datagrams, in order, with boundaries, and the rest is still queued |
| `UdpCoalescing.CoalesceFits` | src/uring.rs:626-637 | every emitted frame fits its 16-bit lengths, every super-frame the IPv4 limit |
| `UdpCoalescing.RunIsOneFrame` | src/uring.rs:651-658 | datagrams of one size that fit one super-frame leave as one |
| `UdpCoalescing.ToGuest` | src/uring.rs:616-674 | the drain loop over the buffer, with its copy down, emits exactly the specified frames; no datagram is truncated |
| `UdpCoalescing.SplitFromGuest` | src/uring.rs:447-458 | the splitting loop forwards exactly the datagrams a frame stands for |
| `UdpCoalescing.SplitConcat` | src/uring.rs:447-458 | splitting inverts joining for datagrams that may share a frame |
| `UdpCoalescing.ConcatSplit` | src/uring.rs:447-458 | joining inverts splitting, whose pieces may always share a frame |
| `Dns64.SkipNameAt` | src/dns.rs:89-100 | the name loop terminates on every input and computes the specified end |
| `Dns64.FindPrefix` | src/dns.rs:63-86 | the parser's loops terminate on every input and compute the specified result |
| `Dns64.ParsePrefix` | src/dns.rs:79-83 | whatever the input, only a /96 prefix is ever found |
| `Dns64.DiscoveryFindsFirst` | src/dns.rs:63-86 | on every encoded response (labels up to 63 bytes, optional compression pointers) the result is the prefix of the first AAAA record embedding a well-known address, or none |
| `Dns64.TargetOfEvery` | src/lib.rs:134-145 | every IPv4 destination but loopback is reached under the prefix, from which it can be read off again; loopback, IPv6, and everything without a prefix is reached as it is |
| `Dns64.DiscoveryInvertsEmbedding` | src/lib.rs:134-145 | a record made by embedding a well-known address gives back the prefix it was made with |

## Left out

- Sockets, the tap and io_uring are an environment that may answer anything; time is one number per event.
- After the write side is shut down, the host socket takes nothing more (`send` fails with EPIPE).
- `push` succeeds except when a flow is created, where its failure is modelled; the source ignores other failures.
- The guest of `EndToEnd` acks what it has up to the first gap; selective acks are not modelled, since the source ignores options of data segments.
- The window advertised to the guest, statistics, the flow policy and the RST for unknown connections.
- Vnet, Ethernet, IPv6 and ICMP echo headers as fixed-offset copies.
- resolv.conf, the DNS query itself, netdev, seccomp and offload probing.
- UDP replies under NAT64 that exceed the IPv4 length: payloads are bounded by the 16-bit UDP length.
- Lifecycle.Engine.HandleTcp: does not send the RST that answers a segment of an unknown connection; such a segment changes nothing else.
- Lifecycle.Engine.Run: takes the events as a list; the source takes them from the completion queue, in a loop that ends with the tap or on a stop request.
- Headers that replies of UDP and ping flows get in the headroom of the flow's own buffer are written in `Headers`, not in the pool's memory.
- TcpFlow.Frames: builds the frames of one send before `Connection.SendFrames` logs them; the source writes each to the tap within the loop.
- UdpCoalescing.ToGuest: takes the datagrams that the socket yields before it would block as an argument.
- TcpDelivery.UploadFidelity: asks that the guest's segments are slices of one stream within one sequence space of what was accepted.
