# A verified model of the gen_utp driver

gen_utp gives Erlang programs uTP sockets. An Erlang module talks to a C++ port driver, and the driver
talks to libutp through callbacks. This project models the driver's per-connection state and the byte
accounting around it, the Erlang calls that block on it, the accept queue with its process monitors, and
the options codec, and proves what they promise for every run.

| file | content |
|---|---|
| `Bytes.dfy` | byte strings, sums, big-endian integers |
| `WriteQueue.dfy` | the segmented queue between `outputv` and libutp, as a class that refines a flat byte string |
| `Options.dfy` | option validation, the binary encoding, the decoder and `decode_and_merge` |
| `Validation.dfy` | what a caller's options become, in validation and in the driver |
| `Driver.dfy` | one connection as a value: every command and every callback as a function on it, and a summary of everything observable |
| `Handler.dfy` | `SocketHandler` and `UtpHandler` as classes updated in place; every method is proved to do what its function in `Driver.dfy` says |
| `Lifecycle.dfy` | whole runs: what the environment may do, the invariant, graceful close, the handle, reclamation, close accounting, stranded closes |
| `ReadSide.dfy` | whole runs: raw-mode conservation, framed-mode accounting, active mode in both |
| `Framing.dfy` | two connected ends: framing end to end |
| `Observed.dfy` | everything each step shows from outside, case by case, and closes over whole runs |
| `Calls.dfy` | blocking calls: replies reach the right call, the outcome of a connect |
| `Closers.dfy` | when a process that waits in close is answered, and when it never will be |
| `Waiting.dfy` | whether a process that waits in send or recv can still be woken |
| `Requests.dfy` | what a recv asks for, what it gets, and when |
| `Caller.dfy` | the one field that says whom to answer, shared by send, recv and close |
| `Send.dfy` | `send/3` against the driver: exactly once, waits, wakeups |
| `Monitors.dfy` | the main handler's two monitor maps |
| `Listener.dfy` | listening sockets and the acceptors that wait on them |

`dafny verify dfyconfig.toml` checks all of it.

## What the environment may do

Each driver entry point and each libutp callback is one atomic step (the code takes `utp_mutex` only around
parts of them). `Lifecycle.Allowed` states the rest:

- `UTP_Write(n)` makes `do_write` calls for at most n bytes in pieces of any size and returns true only if
  it took all n; no other callback happens inside it.
- CONNECT comes only while the connection is pending. `utp_incoming` comes once, to a server.
- DESTROYING comes once, and only after `UTP_Close`. No callback follows it, and none comes before there is a handle.
- `stop` comes once, and no command follows it; nor does a read, because the port and its driver queue are gone then, and
  what `driver_enq` does without them is the emulator's. That nothing then reaches a freed handler is proved
  (`NothingReachesFreed`).
- `setopts` gets a binary that the decoder can read to its end.
- `setopts` does not change `packet` or `header`; `packet` is 0, 1, 2 or 4 and `header` is 0. No peer sends an
  empty frame (between two ends of this driver that is proved, not assumed).
- A zero-length iovec element contributes no bytes. The length prefix of a frame lies in the first segment of the driver queue.
- A message to a process is in its mailbox as soon as it is sent.

A send, a reply, a handed-over byte, `UTP_Close` and `delete this` are entries of a log; the theorems speak of a
summary of that log.

## What the code does not promise

For each of these there is a run or a state that shows it, and a theorem that says exactly when it happens.

- `stop` with bytes still queued leaks the handler: WRITABLE later drains the queue and closes the handle, but
  DESTROYING then no longer finds the status `stopped` (`StopWithQueuedBytesLeaks`, `Reclamation`).
- Three steps end the last obligation of a pending close, bytes to drain or a DESTROYING owed, without completing it
  (`NoStuckClose`): an EOF after `stop`, which leaves the handle open (`EofAfterStopStrands`); a DESTROYING after a
  `cancel_recv` has taken the close's reference away (`CancelledCloseUnanswered`); and a DESTROYING that frees a stopped
  handler (`StopDuringCloseUnanswered`). `StuckEnds` says what moves such a close again.
- The answer itself is decided earlier. With one blocking call at a time a waiting close can be answered, by some way for
  the run to go on, exactly while it is pending, DESTROYING has not come, and the connection is closing, or stopped with its
  handle still open (`AnswerableReachable`). It loses that for good exactly by a `stop` after UTP_Close, and by a `setopts`
  that reports the close to the connected process instead, even one that changes nothing; and it never has it without a
  handle (`LosesCloseAnswer`, `ClosersAnswered`, `StopLeavesCloser`, `SetOptsLeavesCloser`). An EOF on a stopped port does
  not take it away: a WRITABLE may still follow.
- A waiting `recv` can be served exactly while the port is open and DESTROYING has not come, and a waiting sender woken
  exactly until DESTROYING; when the peer ends the connection neither is told anything (`RecvLeftBehind`, `RecvLoses`,
  `RecvForgotten`, `SenderLeftBehind`, `SenderForgotten`).
- A second error before `connect_validate` overwrites the one that made the connect fail, so `connect` reports
  the wrong reason (`ErrorOverwritten`, `ConnectOutcome`).
- A `send` that gives up at once because its timeout has already passed leaves the waiter registered; its retry
  arrives later and the next `send` returns it as its own result although its data was accepted
  (`EarlyTimeoutLeavesRetry`, `LeftoverRetry`, `OwnRepliesExactly`).
- `recv`, `send` and `close` share the field that says whom to answer. Another process's `recv` or `close`, a cancelled
  or served `recv`, an answered close and a second sender take a waiting sender's wakeup away (`RecvStealsWakeup`,
  `NoLostWakeup`, `SenderBesideOthers`); a send that waits takes over the reply of another process's `recv`
  (`RecvReplyGoesToSender`, `RecvBesideOthers`).
- With framing, active mode delivers one frame per read, so two whole frames in the queue strand the second until
  something looks at the queue again (`FramedActiveStrands`, `FramedActiveMode`).
- For the same reason a `recv` on such a queue can be overlooked: it waits on, although the next whole message is there,
  if the socket is made active meanwhile and a read leaves a second whole frame (`RecvInTime`). Without framing no recv
  is overlooked (`RawRecvInTime`).
- A process that accepts on two listeners can lose the monitor of one of them, which then keeps the acceptor of a
  dead process (`TwoListenersLoseMonitor`, `AcceptorsWatchedExactly`).
- The option `inet` is not encoded, so `decode_and_merge`, which refuses it, never sees it (`MergeRefusesAddresses`).
  Callers do not notice: `setopts/2` refuses every address, port and family before it encodes
  (`SetOptsRequest`, `SetOptsNeverRefused`).

## Model

| member | source | states |
|---|---|---|
| `WriteQueues.WriteQueue.constructor` | c_src/write_queue.cc:28-30 | a new queue stands for the empty byte string |
| `WriteQueues.WriteQueue.PushBack` | c_src/write_queue.cc:50-55 | appends the binary's bytes to the flat contents and keeps the cached size and the offset right |
| `WriteQueues.WriteQueue.PopBytes` | c_src/write_queue.cc:57-80 | for a count up to the size, copies out exactly the first count flat bytes and leaves the rest; terminates with zero-length segments |
| `WriteQueues.WriteQueue.PopWithinFront` | c_src/write_queue.cc:62-68 | a copy that stays inside the front segment moves the offset and nothing else |
| `WriteQueues.WriteQueue.PopFrontSegment` | c_src/write_queue.cc:69-78 | a copy that uses the front segment up drops it and resets the offset |
| `WriteQueues.WriteQueue.Clear` | c_src/write_queue.cc:82-87 | leaves the empty byte string |
| `Bytes.BigEndianAt` | c_src/utp_handler.cc:128-148 | integers are written in network byte order: the i-th byte is the i-th most significant |
| `Options.ValidateSound` | src/gen_utp_opts.erl:94-182 | whatever validate/2 lets through is in range field by field, an address has a family, and a header size comes with binary mode |
| `Validation.ValidateExactly` | src/gen_utp_opts.erl:94-182 | a list of options is let through if and only if each is in range, no family contradicts an address named before it, and a header size comes with binary mode; each field of the result is then what the last option about it says, and undefined if there is none |
| `Options.OptionsToBinaryItems` | src/gen_utp.erl:520-593 | the binary is the concatenation of the encodings of the defined options, in a fixed order, numbers modulo their width |
| `Options.WireFormat` | src/gen_utp.erl:520-593 | the binary byte by byte: for each option its code and its value, most significant byte first, and nothing for what is undefined or for inet |
| `Options.ParseEncode` | c_src/socket_handler.cc:461-558 | the decoder reads back any list of encodable options, in order |
| `Options.OptionsRoundTrip` | src/gen_utp.erl:520-593 | decoding the encoding of a validated record gives every defined field and defaults elsewhere, if and only if the send timeout is below 2^32 and the buffer sizes below 2^31 |
| `Options.MergeByCopying` | c_src/socket_handler.cc:560-607 | copying the mentioned fields out of a record decoded from the defaults equals applying the options to the current record |
| `Options.MergeOverridesMentioned` | c_src/socket_handler.cc:560-607 | a merge is refused if and only if an address, port or family option occurs; otherwise exactly the mentioned fields change, to what the options say |
| `Options.MergeRefusesAddresses` | src/gen_utp.erl:520-593 | of validated records, exactly those with an address, a port or inet6 are refused; inet alone is not |
| `Options.SetOptsNeverRefused` | src/gen_utp.erl:319-340 | whatever options setopts/2 lets through, the driver accepts their binary and changes exactly the fields it mentions |
| `Validation.SetOptsExactly` | src/gen_utp.erl:319-340 | setopts/2 sends a binary if and only if the options validate and name neither address, port nor family; the driver then sets each field to what the caller's last option about it says and leaves the others |
| `Options.Decoder.Decode` | c_src/socket_handler.cc:461-558 | the byte loop sees exactly the options of the binary and applies them in order |
| `Options.Decoder.DecodeAndMerge` | c_src/socket_handler.cc:560-607 | succeeds if and only if the merge is not refused, and then leaves the merged record; the address fields never change |
| `Handlers.SocketHandler.SetPort` | c_src/socket_handler.cc:50-59 | the socket ends up selected for input |
| `Handlers.SocketHandler.MoveReadData` | c_src/socket_handler.cc:416-437 | copies exactly the first bytes of the driver queue out, across any number of segments, and removes them |
| `Handlers.SocketHandler.ReduceReadCount` | c_src/socket_handler.cc:403-414 | takes a number of bytes off the front of positive counts, splitting one if need be; terminates and never takes the front of an empty list |
| `Handlers.SocketHandler.EmitClosedMessage` | c_src/socket_handler.cc:439-452 | sends utp_closed, and says so, if and only if the driver queue is empty |
| `Handlers.SocketHandler.PeekPacketSize` | c_src/socket_handler.cc:299-313 | reads the big-endian length prefix off the first segment |
| `Handlers.SocketHandler.TakeFrame` | c_src/socket_handler.cc:314-320 | takes prefix and payload off the queue but only the payload off read_count |
| `Handlers.SocketHandler.TakePacket` | c_src/socket_handler.cc:314-339 | takes one frame, the requested length or everything, or leaves an active socket's reads to the sending loop |
| `Handlers.SocketHandler.SendPackets` | c_src/socket_handler.cc:341-396 | sends the packet already taken, or the next reads one by one, each cut off the queue by its count |
| `Handlers.SocketHandler.EmitReadBuffer` | c_src/socket_handler.cc:284-401 | reports a pending close on an empty queue, sends nothing without enough bytes, and otherwise delivers what the mode asks for and disarms active once |
| `Handlers.SocketHandler.SetOpts` | c_src/socket_handler.cc:135-200 | refused options change nothing; accepted ones are stored, and what is queued is delivered on the changes of active that call for it |
| `Handlers.UtpHandler.constructor` | c_src/utp_handler.cc:32-38 | a new handler is unconnected, has no handle and nothing queued |
| `Handlers.UtpHandler.Create` | c_src/main_handler.cc:346-351 | a client on its port has started to connect, a server waits, and the state is the first of a run |
| `Handlers.UtpHandler.DoWrite` | c_src/utp_handler.cc:434-441 | hands out the first bytes of the write queue and removes them |
| `Handlers.UtpHandler.UtpWrite` | c_src/utp_handler.cc:166-170 | any sequence of do_write calls hands over the first bytes, as many as their sizes add up to |
| `Handlers.UtpHandler.QueuePayload` | c_src/utp_handler.cc:149-163 | whatever the segmentation, the queue grows by the concatenated payload |
| `Handlers.UtpHandler.QueueFrame` | c_src/utp_handler.cc:127-165 | the queue grows by the frame of the payload, and the total counts exactly its bytes |
| `Handlers.UtpHandler.Outputv` | c_src/utp_handler.cc:114-215 | one reply in every case: not connected, ok with the frame queued and offered, timed out, or wait with the caller registered |
| `Handlers.UtpHandler.CloseUtp` | c_src/utp_handler.cc:363-375 | closes the handle if there is one, it is not being destroyed and nothing is queued; else changes nothing |
| `Handlers.UtpHandler.Stop` | c_src/utp_handler.cc:217-242 | closes the handle if nothing is queued, empties the driver queue, and frees the handler or marks it stopped |
| `Handlers.UtpHandler.SetOpts` | c_src/utp_handler.cc:244-259 | as for the socket; nothing of the connection changes |
| `Handlers.UtpHandler.Close` | c_src/utp_handler.cc:261-295 | makes the closer wait if and only if no close is pending and the connection is not closing already, unless an EOF started that |
| `Handlers.UtpHandler.Recv` | c_src/utp_handler.cc:297-342 | refused on an active socket; else answered at once or registered with length, reference and caller |
| `Handlers.UtpHandler.DoRead` | c_src/utp_handler.cc:408-432 | queues the bytes and their count, then serves a waiting recv or the connected process |
| `Handlers.UtpHandler.StateEof` | c_src/utp_handler.cc:458-465 | drops what is queued and closes the handle unless stopped |
| `Handlers.UtpHandler.ResumeWriting` | c_src/utp_handler.cc:467-484 | offers the whole queue and wakes a waiting sender if it was all taken |
| `Handlers.UtpHandler.StateWritable` | c_src/utp_handler.cc:467-488 | the same, followed by a deferred close |
| `Handlers.UtpHandler.ReportClosed` | c_src/utp_handler.cc:512-531 | answers the closer, or tells the connected process of an active socket |
| `Handlers.UtpHandler.StateDestroying` | c_src/utp_handler.cc:503-536 | deselects; a closing connection reports and is destroyed, a stopped one is freed |
| `Handlers.UtpHandler.DoStateChange` | c_src/utp_handler.cc:450-538 | dispatches the four libutp states |
| `Handlers.UtpHandler.DoError` | c_src/utp_handler.cc:540-578 | fails a pending connect, closes on a reset, tells an active socket's process of other errors, and records the code |
| `Handlers.UtpHandler.Handle` | c_src/utp_handler.cc:80-96 | in every reachable state any command or callback that can come finds what its method asks for, moves the object as the specification's step, and leaves it in a reachable state |
| `Handlers.ReadyFor` | c_src/utp_handler.cc:80-96 | the preconditions of all methods follow from reachability and the environment's contract |
| `Lifecycle.StepInv` | c_src/utp_handler.cc:114-563 | every command and callback the environment may cause keeps the joint invariant of the lifecycle |
| `Lifecycle.WriteSideOfReachable` | c_src/utp_handler.cc:118-213 | in every reachable state writable or handle-less means an empty write queue, a waiting sender means not writable, and every UTP_Write had a handle and offered the whole queue |
| `Lifecycle.GracefulClose` | c_src/utp_handler.cc:363-375 | the frames of the accepted payloads, none for an empty one, are what was handed over, then the queue, then what an EOF dropped; UTP_Close only ever saw an empty queue, so without an EOF everything accepted had been handed over by then |
| `Lifecycle.EmptyPayloadSendsNothing` | c_src/utp_handler.cc:127-165 | an accepted payload without bytes leaves the write queue and the handed-over bytes as they were, with any packet size |
| `Lifecycle.HandleDiscipline` | c_src/utp_handler.cc:363-375 | the handle is there if and only if one more was acquired than closed, each closed at most once over close, stop, EOF, reset and deferred close |
| `Lifecycle.NothingReachesFreed` | c_src/utp_handler.cc:503-536 | no command or callback the environment may cause reaches a freed handler |
| `Lifecycle.Reclamation` | c_src/utp_handler.cc:503-536 | a handler is freed at most once, deselected, after both stop and DESTROYING, and once both happened it is freed if and only if stop found the write queue empty |
| `Lifecycle.CloseAccounting` | c_src/utp_handler.cc:261-295 | closes answered wait equal ok replies plus utp_closed messages that cleared a pending close plus one if a close is pending |
| `Lifecycle.OpenCloseDrains` | c_src/utp_handler.cc:485-487 | a close that waits on an open port with an open handle has bytes still queued |
| `Lifecycle.NoStuckClose` | c_src/utp_handler.cc:485-536 | a pending close, also of a freed handler, keeps an obligation outstanding, bytes to drain on an open handle or a DESTROYING owed, but for exactly three steps |
| `Lifecycle.StuckEnds` | c_src/utp_handler.cc:467-488 | a pending close without an obligation moves again if and only if libutp calls WRITABLE on a handle still open, or recv or setopts reports the close on an empty queue |
| `Lifecycle.StopWithQueuedBytesLeaks` | c_src/utp_handler.cc:217-242 | a reachable state after stop and DESTROYING in which the handler was not freed |
| `Lifecycle.EofAfterStopStrands` | c_src/utp_handler.cc:458-465 | a reachable state in which an EOF after stop has stranded a close |
| `Lifecycle.StopDuringCloseUnanswered` | c_src/utp_handler.cc:532-534 | a reachable state with a freed handler, a close answered wait and no reply ever sent |
| `Lifecycle.CancelledCloseUnanswered` | c_src/utp_handler.cc:377-384 | a reachable state in which DESTROYING has answered nobody |
| `ReadSide.RawConservation` | c_src/socket_handler.cc:284-437 | over every run with packet 0 the bytes that arrived are those delivered, then the driver queue; read_count cuts the queue into the positive rest of the reads; each message to the connected process is one such part; an active socket has nothing queued |
| `ReadSide.ReadOkOfReachable` | c_src/socket_handler.cc:302-320 | in every reachable state of an open port reduce_read_count has counts enough, in either mode |
| `ReadSide.FramedAccounting` | c_src/socket_handler.cc:302-320 | with framing, what arrived is the frames of the payloads delivered, then the queue, and read_count adds up to the queue plus packet bytes per frame delivered |
| `ReadSide.ActiveOnceGuarantee` | c_src/socket_handler.cc:397-399 | since active was last set to once, at most one message has reached the connected process, and the socket is armed if and only if none has |
| `ReadSide.WindowIsUndelivered` | c_src/utp_handler.cc:443-448 | while connected, do_get_rb_size reports exactly what has arrived and not been delivered, prefixes included |
| `ReadSide.ReadStrands` | c_src/socket_handler.cc:314-341 | a read on a framed socket leaves a whole frame waiting on an active socket if and only if the socket is active true and its queue then begins with two whole frames |
| `ReadSide.SetOptsStrands` | c_src/socket_handler.cc:160-195 | the same for setopts: with two whole frames queued on a change that delivers and leaves active true, and otherwise only if a frame waited before |
| `ReadSide.FramedActiveMode` | c_src/socket_handler.cc:302-341 | over every framed run a whole frame waits on an active socket if and only if such a step happened and nothing has looked at the queue since |
| `ReadSide.FramedActiveStrands` | c_src/socket_handler.cc:314-341 | a reachable framed, active state with a whole frame left in the queue |
| `Framing.PrefixCode` | c_src/utp_handler.cc:128-148 | frames are a prefix code: messages whose frames start a stream of frames are its first messages |
| `Framing.StreamHasNoEmptyFrame` | c_src/socket_handler.cc:302-320 | no start of the stream made of any messages short enough, empty ones included, shows the reader a length of 0 |
| `Framing.FramingEndToEnd` | c_src/utp_handler.cc:127-170 | over every run of two ends with one packet size, for any messages shorter than 256^packet, any segmentation and any chunking, the payloads delivered are a prefix of the non-empty messages accepted, and all of them once every byte has arrived and the queue is empty |
| `Framing.TransmitIsAllowed` | c_src/utp_handler.cc:408-432 | any number of the bytes in flight may arrive next: they show no empty frame |
| `Framing.RecvNextMessage` | c_src/utp_handler.cc:297-342 | recv answers at once if and only if the next message's whole frame is queued, and as many bytes as asked for, and then with exactly that message; a close being reported finds no frame |
| `Requests.RecvGetsWhatItAsks` | c_src/utp_handler.cc:297-342 | over every run of one blocking call at a time, a recv on a passive socket is answered in the step in which what it deserves has arrived, and with exactly that: without framing the next n undelivered bytes, or for n = 0 all there are but not none; with framing the next message; nothing else answers it |
| `Requests.RecvInTime` | c_src/utp_handler.cc:408-432 | at no point of a run does a recv wait while what it deserves is there, if and only if no step overlooks it: a read on a framed socket, made active since, that leaves a whole frame |
| `Requests.RawRecvInTime` | c_src/socket_handler.cc:293-298 | without framing a recv waits only while fewer bytes are undelivered than it asked for, or none at all |
| `Requests.WaitingRecvGetsMessage` | c_src/utp_handler.cc:408-432 | between two ends, bytes that arrive answer a waiting recv if and only if they complete the next message's frame, and are as many as asked for, and then with that message |
| `Observed.NoticesExactly` | c_src/socket_handler.cc:284-452 | for every event exactly what it tells the connected process, signals to libutp and returns: utp_closed when a recv or setopts finds a pending close and an empty queue and when DESTROYING finds nobody to answer on an active, empty socket; utp_error with its own code; UTP_RBDrained when a read or recv empties the queue; badarg from recv exactly on an active socket and from setopts exactly for refused options |
| `Observed.ReportsExactly` | c_src/socket_handler.cc:284-292 | a pending close is taken back exactly by a recv on a passive socket or a setopts that looks at the queue, with nothing queued |
| `Observed.ClosedMessages` | c_src/socket_handler.cc:439-452 | over every run the closes taken back and the utp_closed messages match one to one, but for one more that DESTROYING may send |
| `Observed.MovesExactly` | c_src/utp_handler.cc:217-578 | for every event, exactly when the handle is closed and taken, the handler freed and deselected, what the status becomes, and whether an EOF is remembered |
| `Observed.CloseWaitsExactly` | c_src/utp_handler.cc:261-295 | over every run of an open port a close waits if and only if no earlier one is pending and either nobody has asked for a close and the handle was not closed, or an EOF has come since the last close that waited |
| `Observed.SendsExactly` | c_src/utp_handler.cc:114-215 | for every event exactly what senders are told, refusals by their situation, what is accepted, and whether the connection takes data after it |
| `BlockingCalls.ReplyCorrelation` | src/gen_utp.erl:247-276 | with one blocking call at a time the replies sent are, in order, those of the calls; each call has at most one, with its own reference, destination and kind, and references are distinct |
| `BlockingCalls.QuietAfterReturn` | src/gen_utp.erl:257-268 | once a call has returned, by its reply or after cancel_recv, nothing but a new recv makes the handler send a reply |
| `Closers.AnswerableWhenIssued` | c_src/utp_handler.cc:261-295 | a close that makes its caller wait can be answered if and only if the connection ever had a handle |
| `Closers.AnswerableExactly` | c_src/utp_handler.cc:503-536 | some way for the run to go on answers the waiting close if and only if it is pending with somebody on record, DESTROYING has not come, and the connection is closing or is stopped with its handle open; otherwise no way of going on ever sends a reply |
| `Closers.AnswerableReachable` | c_src/utp_handler.cc:503-536 | the same in every reachable state of one blocking call at a time |
| `Closers.LosesCloseAnswer` | c_src/utp_handler.cc:485-536 | a step answers the answerable close if and only if it is a DESTROYING on a closing connection, with exactly one ok of its own reference to its own process; of the other steps exactly a stop after UTP_Close and a setopts that reports the close take the answer away |
| `Closers.ClosersAnswered` | src/gen_utp.erl:217-234 | over every run of one blocking call at a time, whoever waits for a close can be answered at every point if and only if the run has none of those two steps while a close waits, nor a close without a handle |
| `Closers.StopLeavesCloser` | c_src/utp_handler.cc:217-242 | a reachable state in which DESTROYING is still to come and no way of going on answers the closer |
| `Closers.SetOptsLeavesCloser` | c_src/socket_handler.cc:288-292 | a reachable state in which setopts has reported the close and no way of going on answers the closer |
| `Waiting.RecvLeftBehind` | c_src/utp_handler.cc:408-432 | some way for the run to go on serves a waiting recv if and only if the port is open, DESTROYING has not come and there is a handle or a server's is to come; otherwise it is never sent a reply |
| `Waiting.RecvLoses` | c_src/utp_handler.cc:458-536 | while a recv waits it loses that exactly by a stop and by DESTROYING |
| `Waiting.RecvForgotten` | c_src/utp_handler.cc:458-536 | a reachable state after EOF and DESTROYING with a recv that is never served |
| `Waiting.SenderLeftBehind` | c_src/utp_handler.cc:467-536 | some way for the run to go on sends a registered sender its retry if and only if DESTROYING has not come |
| `Waiting.SenderForgotten` | c_src/utp_handler.cc:458-536 | a reachable state after EOF and DESTROYING with a sender that is never woken |
| `Waiting.EnoughMayArrive` | c_src/socket_handler.cc:293-320 | whatever is queued, with any packet size, some bytes without an empty frame complete a request of any length |
| `BlockingCalls.ConnectOutcome` | c_src/client.cc:72-117 | the outcome of a connect is learned once in either order of events: by exactly one message with the deciding event's outcome after wait, or by the call itself, right but for an error replaced by a later one |
| `BlockingCalls.ValidateRefuses` | c_src/client.cc:107-113 | connect_validate reports an illegal state if and only if the handle has already been closed again |
| `BlockingCalls.ErrorOverwritten` | c_src/utp_handler.cc:540-560 | for any two errors a run in which the attempt fails with the first and connect reports the second |
| `SharedCaller.CallerAfter` | c_src/utp_handler.cc:185-384 | for every event, who is on record to be answered after it, with which reference, and whether a recv waits |
| `SharedCaller.RecvBesideOthers` | c_src/utp_handler.cc:408-432 | over any run while a recv waits, its reply would reach its own caller at every point if and only if none of these happens: a send or close of another process that waits, another recv, a pending connect_validate, a cancelled send, an answered close |
| `SharedCaller.SenderTakesReply` | c_src/utp_handler.cc:185-192 | when a send of another process has to wait while a recv waits, the bytes that complete the recv go to the sender with the recv's reference |
| `SharedCaller.RecvReplyGoesToSender` | c_src/utp_handler.cc:417-422 | a reachable state in which the recv of process 1 has been answered to process 2 |
| `SharedCaller.RegistrationKept` | c_src/utp_handler.cc:185-213 | for every event: a waiting sender is woken exactly by a WRITABLE that leaves the connection writable, forgotten exactly by cancel_send, and its retry goes astray exactly through seven kinds of step, a second sender's wait among them |
| `SharedCaller.SenderBesideOthers` | c_src/utp_handler.cc:467-484 | over any run, with any number of senders, receivers and closers, a waiting sender's retry would reach it at every point if and only if none of those steps happens |
| `Sending.WaitWithinBudget` | src/gen_utp.erl:463-471 | under a clock that does not go back a finite wait is at least 0, at most the timeout less the elapsed time, and ends in the last millisecond before the deadline |
| `Sending.SendOutcome` | src/gen_utp.erl:452-471 | a send that starts clean returns enotconn exactly without a connection or handle, ok exactly on a writable one, etimedout exactly once its finite timeout is over, in microseconds; otherwise it waits, registered, with its data not accepted |
| `Sending.WaitExactly` | src/gen_utp.erl:463-471 | a limited wait is refused if and only if its limit is over; otherwise the wait left ends within the last millisecond before it |
| `Sending.SendExactlyOnce` | src/gen_utp.erl:452-497 | if no send begins with a utp_reply left over, the payloads accepted are the data of the sends that returned ok, in order, each once, plus at most the one whose ok is on its way; their frames are what was handed over, is queued or was dropped; no other result occurs than ok, timeout, not connected and einval |
| `Sending.PatientSendsStartClean` | src/gen_utp.erl:463-467 | if no send takes the early timeout branch, no send begins with anything left over |
| `Sending.PatientExactlyOnce` | src/gen_utp.erl:452-497 | exactly once over every run without the early timeout branch |
| `Sending.LeftoverRetry` | src/gen_utp.erl:489-490 | a send that begins with a retry left over returns it, whatever became of its data |
| `Sending.EarlyTimeoutLeavesRetry` | src/gen_utp.erl:466-467 | a reachable state whose last send returned retry although its data was accepted last |
| `Sending.OwnRepliesExactly` | src/gen_utp.erl:452-497 | at every point of a run what a sender takes for its reply is its own if and only if every send on an open port begins with no utp_reply left over |
| `Sending.NoLostWakeup` | c_src/utp_handler.cc:467-484 | the driver would wake a sleeping sender at every point of a run if and only if no step overwrites its registration: a recv or close of another process that waits, a cancelled or served recv, an answered close |
| `Sending.WakeupArrives` | c_src/utp_handler.cc:475-484 | a WRITABLE that leaves the connection writable brings a waiting sender its retry if and only if the driver has it on record or it has the retry already |
| `Sending.RecvStealsWakeup` | c_src/utp_handler.cc:332-337 | a reachable state with a sender asleep on a writable connection, not registered and without a retry |
| `Monitors.MainHandler.constructor` | c_src/main_handler.cc:39-42 | there are no monitors |
| `Monitors.MainHandler.AddMon` | c_src/main_handler.cc:218-232 | a new monitor for the handler; the process keeps the monitor it had on record |
| `Monitors.MainHandler.DelMon` | c_src/main_handler.cc:252-263 | the monitor on record for the process is gone from both maps and the emulator, if there is one |
| `Monitors.MainHandler.ForgetMonitor` | c_src/main_handler.cc:274-282 | erasing while iterating removes exactly the processes on record with this monitor, and takes it back if there were any |
| `Monitors.MainHandler.DelMons` | c_src/main_handler.cc:265-289 | the nested loops remove exactly the entries that involve the handler's monitors |
| `Monitors.MainHandler.ProcessExit` | c_src/main_handler.cc:164-183 | the fired monitor and the process's record are gone, and the handler the monitor was set for is the one told |
| `Monitors.Cleared` | c_src/main_handler.cc:265-289 | after del_mons no entry refers to the handler, every other entry is unchanged, and a monitor is taken back if and only if it was on record |
| `Monitors.StaysConsistent` | c_src/main_handler.cc:164-289 | every operation keeps: recorded monitors are in mon_map and watch their own process, and the emulator has every monitor in mon_map |
| `Listeners.Listener.constructor` | c_src/listener.cc:35-44 | nobody waits |
| `Listeners.Listener.Accept` | c_src/listener.cc:209-239 | a process that can be monitored is monitored and joins the end of the queue; any other is turned away without trace |
| `Listeners.Listener.CancelAccept` | c_src/listener.cc:241-270 | the first acceptor with the reference leaves, with one monitor on its process; an unknown reference changes nothing |
| `Listeners.Listener.ProcessExited` | c_src/listener.cc:162-175 | the erase loop removes exactly the acceptors of the process and keeps the order of the others |
| `Listeners.Listener.InputReady` | c_src/listener.cc:84-160 | a new connection's port or a refused peer's error code goes to the first acceptor with its own reference, which leaves with one monitor; no datagram, no socket, a datagram that is not uTP, or an empty queue changes nothing and tells nobody |
| `Listeners.Listener.Stop` | c_src/listener.cc:73-82 | destroying the listener clears its monitors |
| `Listeners.ServedInOrder` | c_src/listener.cc:109-154 | those served, then those waiting, are a subsequence of those who called accept, and every accept was served, taken out or still waits, once |
| `Listeners.ArrivalExactly` | c_src/listener.cc:84-160 | the same five arrivals over the whole system: which leave every queue, monitor and reply alone, and exactly what the other two change |
| `Listeners.RepliesInOrder` | c_src/listener.cc:104-154 | over every run the replies a listener sent are, one to one and in order, the connections and refused peers that found an acceptor since it was opened: the i-th acceptor served got one reply with its own reference and the i-th outcome |
| `Listeners.ExitFindsListener` | c_src/main_handler.cc:164-183 | in every run the maps stay consistent and process_exit only dispatches to a listener that exists |
| `Listeners.AcceptorsWatched` | c_src/listener.cc:162-239 | if processes accept on one listener each, every process has at least as many monitors for it as queued acceptors, so once it is dead and its monitors have fired no queue holds one |
| `Listeners.AcceptorsWatchedExactly` | c_src/main_handler.cc:252-263 | in any run every queued acceptor has its monitor at every point if and only if no acceptor that leaves a queue takes along a monitor another listener needs |
| `Listeners.LeaveWatched` | c_src/main_handler.cc:252-263 | when an acceptor leaves a queue, all acceptors stay monitored if and only if the monitor on record for its process is that listener's own or one that its listener can spare |
| `Listeners.TwoListenersLoseMonitor` | c_src/main_handler.cc:226-230 | a run after which a listener holds the acceptor of a dead process whose monitors have all fired |

## Left out

- libutp: congestion control, packets and timers are not part of this model; only the callback contract above is.
- UDP sockets, `recvfrom`, `do_send_to`, `select`/`deselect` and `fdmap`, and the `fd` option: system calls. An arrival at a listener and an error from `sendto` are events.
- Address conversion and name lookup: the resolver's answer is a parameter of validation, addresses are opaque bytes.
- `sockname`, `peername`, `getopts`, and malformed command arguments (the BADARG paths of the argument decoder): plumbing. Of binaries the option decoder would read past the end of, nothing is said.
- `header` above 0 and the delivery mode: a delivered message is its bytes.
- Changing `packet` or `header` during a run, and zero-length frames: the accounting is not designed for them.
- Handlers.UtpHandler.SetOpts: leaves out the `UTP_SetSockopt` calls for changed buffer sizes, which only concern libutp's own buffers.
- `UTP_RBDrained` beyond the signal that it was called: nothing guards the handle there.
- Freeing of binaries and memory ownership, and the C++ inheritance: `SocketHandler` is a component of `UtpHandler`, `Client` and `Server` are roles of it, and the destructor's `del_monitors` appears as `Listener.Stop`.
- Interleavings inside one entry point, and liveness beyond obligations that are still outstanding.
- Messages that travel for some time: a retry sent before a cancel is in the mailbox when the cancel returns.
- Sending.SendExactlyOnce: has one sending process, and any others using the other commands; of several senders only who is woken is stated (`SharedCaller.SenderBesideOthers`).
- Reads after `stop`. After an EOF the model still allows reads until DESTROYING, so what is proved of every run does not depend on libutp stopping earlier.
- `controlling_process`, the gen_server, supervisor and application: scaffolding.
- Handlers.UtpHandler.Recv: requires the read-side invariant that `ReadSide.ReadOkOfReachable` proves of every open port, as do `DoRead`, `SetOpts` and `EmitReadBuffer`.
- Listeners.AcceptorsWatched: rules out any accept on a second listener; `AcceptorsWatchedExactly` is the exact condition.
