# adb and mkbootfs: verified models

Dafny models of the parts of adb that carry many byte streams over one packet
link, and of the loops around them that move data in portions, with proofs of
what those parts promise. Two more pieces of the same repository are modelled
beside them: the cpio archive writer `mkbootfs` and the emulated descriptor
table of the Windows port.

Everything outside the program (reads and writes of any length, EAGAIN, errors,
hangups, what poll and select report, thread interleaving, callbacks) is
arbitrary in the models, so each statement holds for every such behaviour.

## How the pieces fit

**The stream multiplexer.** `SocketModel` says, on values, what one event does
to one local socket and which packets it sends. `Connection` proves the protocol
for one connection: its two sockets and the packets between them. `Multiplexer`
puts two ends with many connections on two FIFO channels and shows that each
connection, seen on its own, moves exactly like `Connection`.
`MultiplexerTheorems` states what follows for every run: streams, teardown,
credits. `Convergence` bounds how long packets can go back and forth, for the
whole link and for each connection whatever the others do. `OrderlyClose` shows
that a stream closed by its sender arrives whole.

The program side refines the same functions. `Sockets` has the socket record
with its loops over `adb_write` and `adb_read`; `Endpoint` has the list of
sockets, the id counter and `handle_packet`; each method's result is the
`SocketModel` function applied to the old value. `Link` joins two endpoints by
the packets each has sent and shows that whatever they do is a run of the
`Multiplexer`, so the theorems hold of the sockets' own fields. `SocketRing` has the intrusive
rings and peer pointers of the same records, for the close paths and
`close_all_sockets`. `SmartSocket` gathers a client's request from packets.

**The event dispatcher** (`Fdevent`), with callbacks that do anything to it, and
**the transport session** (`TransportSession`), a state machine over the steps
of its three threads.

**Transfers.** `FileSync` runs the pushing client and the receiving service side
by side. `ShellProtocol` frames packets; `StdinPump` feeds a subprocess from
them. `Utf8` cuts console output at character boundaries.

**The archive** (`Cpio`, `ArchiveTraversal`) and **the handle table**
(`HandleTable`). `Bytes` and `Hex` hold what several modules need of sequences
and hexadecimal numbers.

## Results about where the code stops short

- Credits: the one-credit rule fails when a hangup makes a socket read although
  READ is not armed (`HangupOverdraws` is a run). A connection keeps it all
  through a run if and only if none of its own sockets sends with READ disarmed
  while the credit of its direction is elsewhere
  (`CreditKeptIffNeverOverspent`), whatever other connections and harmless
  hangups do; on a live connection every send with READ disarmed is such a one
  (`CreditLostIffOverdrawn`).
- Close: a socket closed by its peer's CLSE has had every byte the peer sent. It
  writes them all out if and only if no write error and no end of its own
  descriptor comes before its queue is drained (`OrderlyCloseLosesNothing`).
- Client requests: after a transport request the smart socket has a transport
  and its payload limit applies, so a well-formed request longer than that limit
  is refused (`LongRequestRefused`: 5000 bytes where packets take 4096). A
  request is understood if and only if it fits the limit or comes whole in the
  very first packet (`Smart.Feed`).
- Push: `ReceivedError` answers "yes" when poll itself fails, and the file is
  then cut short and still reported as copied (`PollFailureTruncates`). Success
  means the service wrote what the client had read, and that is the whole file
  if and only if poll did not fail while part of the file was unread; this holds
  for every file of the connection, also after files that failed
  (`NoFalseSuccess`).
- Transport start: CNXN is the first packet on the wire in every run. Packets
  sent before the transport's first SYNC are dropped by the writer; nothing is
  lost exactly when there are none (`NothingLost`), as is the case when streams
  are opened only on transports that are not offline (`OnlyWhenUp`).
- Archive: the reader recovers all members exactly when none is named like the
  trailer (`ParseBack`), and otherwise those before the first such one
  (`ReadUpTo`).

The comment in `adb/transport.cpp:192-193` says the device is kicked on the way
out; a thread that leaves before the transport is listed does not find it and
does not kick. The model follows the code.

## Model

| member | source | states |
|---|---|---|
| SocketModel.DrainQueueBytes | adb/sockets.cpp:259-288 | writing n bytes off a packet queue leaves exactly the queue's remaining bytes, and no packet exactly when all bytes went |
| SocketModel.DrainQueueMore | adb/sockets.cpp:260-273 | draining in two goes is draining once by the sum, so short writes do not matter |
| Connection.ReactSends | adb/sockets.cpp:307-366 | the history of sent bytes grows by exactly the WRTE payloads put on the link |
| Connection.ReactHolds | adb/sockets.cpp:125-177 | a listed socket loses no byte it was given; a socket that leaves keeps a front part of them |
| Connection.ReactAddresses | adb/sockets.cpp:448-477 | every packet a linked socket sends goes to its own peer over the link |
| Connection.ReactCloses | adb/adb.cpp:423-470 | a socket leaves the list only by telling its peer, and an OKAY for an unlisted socket is answered by CLSE |
| Connection.ReactTokens | adb/sockets.cpp:299-305 | without a hangup an event turns permission to read into a WRTE, and a packet held into an OKAY, one for one |
| Connection.ConnStepOk | adb/adb.cpp:407-486 | every step of either end keeps a connection's addressing, stream and close invariants, from OPEN under way to both ends gone |
| Connection.ConnStepCredit | adb/sockets.cpp:159-183 | every step of either end keeps one credit per direction if and only if it is not an overspending event |
| Connection.CreditLostIffOverspent | adb/fdevent.cpp:264-272 | in every state of a connection, closed ends included, an event breaks the credit count if and only if it sends with READ disarmed while that direction's credit is elsewhere |
| Connection.CreditLostIffOverdrawn | adb/fdevent.cpp:264-272 | on a live connection an event breaks the credit count if and only if it reads and sends with READ disarmed |
| Multiplexer.ConnectionsRunAlone | adb/sockets.cpp:60-107 | one step of the whole link is, for each connection, the step of that connection alone which the action spells for it, or nothing |
| Multiplexer.StepNames | adb/sockets.cpp:85-96 | ids stay below the counter and are never reused; every packet in flight names sockets that exist |
| MultiplexerTheorems.StreamsArePrefixes | adb/sockets.cpp:125-177 | in every run the bytes written at one end are a prefix of the payloads the other end sent; while listed, the difference is exactly queue then channel |
| MultiplexerTheorems.QuietEndsAgree | adb/adb.cpp:407-470 | in every run, when a connection has no packet in flight, whatever others have, both ends list it as each other's peers or neither does |
| MultiplexerTheorems.OneCreditPerDirection | adb/sockets.cpp:299-305 | in every run in which no hangup has made the connection's own sockets send with READ disarmed, each direction of it, if live, holds one token; no queue holds two packets, no direction two WRTE |
| MultiplexerTheorems.CreditKeptIffNeverOverspent | adb/fdevent.cpp:264-272 | in every run the credit count of a connection holds at every point if and only if no step so far was an overspending event of its own sockets |
| MultiplexerTheorems.CalmRunsKeepCredit | adb/sockets.cpp:299-305 | so it holds for every connection of a run without hangups |
| MultiplexerTheorems.HangupOverdraws | adb/fdevent.cpp:264-272 | a run with one hangup in which two WRTE are outstanding in one direction of a live connection |
| Convergence.DeliveriesAreBounded | adb/adb.cpp:407-486 | in every stretch of every run, the packets handled number at most the starting load plus 7 for each stream opened and 3 for each descriptor event |
| Convergence.DeliveriesEnd | adb/adb.cpp:407-486 | from every reachable state deliveries alone end within a computed bound, however they interleave |
| Convergence.ConnectionDeliveriesAreBounded | adb/adb.cpp:423-486 | in every stretch of every run, whatever other connections do, the packets delivered for a connection number at most its own starting load plus 3 for each event of its own listed sockets |
| Convergence.ClosedConnectionsFallSilent | adb/adb.cpp:448-470 | once both sockets of a connection are closed, only packets already under way and their bounded answers are delivered for it, in every continuation |
| OrderlyClose.RunTail | adb/sockets.cpp:212-248 | in every run a socket whose CLSE is in flight is off its list, and no data follows that CLSE |
| OrderlyClose.ClosedIsWhole | adb/adb.cpp:448-470 | in every run a socket that leaves its list by handling its peer's CLSE holds, written or queued, exactly the bytes the peer ever sent |
| OrderlyClose.OffRun | adb/sockets.cpp:250-305 | off its list a socket sends nothing more, and keeps what it has had if and only if no write error and no end of the descriptor makes it drop queued bytes |
| OrderlyClose.OrderlyCloseLosesNothing | adb/sockets.cpp:212-305 | in every run after such a close: all bytes the peer sent are held, and written once the socket is freed, if and only if no event of its own made it drop some |
| Convergence.SwappedIsRun | adb/adb.cpp:407-486 | a run seen from the other end is a run, so what is said of the connections of one end holds of those of the other |
| Sockets.LocalSocket.Close | adb/sockets.cpp:186-248 | performs SocketModel.Close and leaves the record freed, or draining with id 0, no peer, READ disarmed, WRITE armed and a non-empty queue |
| Sockets.LocalSocket.Acknowledge | adb/adb.cpp:423-437 | performs the OKAY case: the first one creates the peer, each one from the peer arms READ |
| Sockets.LocalSocket.Enqueue | adb/sockets.cpp:125-177 | performs SocketModel.Enqueue for the bytes its write loop got out; WRITE armed exactly when something is queued |
| Sockets.LocalSocket.Flush | adb/sockets.cpp:259-288 | both write loops: a front part of the queue's bytes is written and taken off, all of it unless blocked or failed |
| Sockets.LocalSocket.WriteHalf | adb/sockets.cpp:257-305 | performs SocketModel.OnWritable, including the OKAY once drained and the last close of a draining socket |
| Sockets.LocalSocket.ReadHalf | adb/sockets.cpp:307-373 | performs SocketModel.OnReadable for some data that fits one packet of both transports |
| Sockets.LocalSocket.EventFunc | adb/sockets.cpp:250-383 | performs at most the two halves in order and keeps the closing discipline |
| Sockets.LocalSocket.MaxPayload | adb/sockets.cpp:879-888 | the least of MAX_PAYLOAD and what the socket's transport and its peer's transport accept |
| Endpoint.Endpoint.FindLocalSocket | adb/sockets.cpp:60-76 | finds the listed socket with that id and peer if and only if there is one |
| Endpoint.Endpoint.Install | adb/sockets.cpp:85-96 | the end gains one socket under the next id and nothing else changes |
| Endpoint.Endpoint.Unlist | adb/sockets.cpp:98-107 | the socket leaves the list exactly if it was closed; every socket's value stays |
| Endpoint.Endpoint.HandleOkay | adb/adb.cpp:423-446 | the end and its outgoing packets become what SocketModel.HandlePacket says |
| Endpoint.Endpoint.HandleClse | adb/adb.cpp:448-470 | likewise for CLSE, including the check of the peer's transport |
| Endpoint.Endpoint.HandleWrte | adb/adb.cpp:472-486 | likewise for WRTE, including the OKAY when everything was written |
| Endpoint.Endpoint.HandleOpen | adb/adb.cpp:407-421 | likewise for OPEN, accepted or refused |
| Endpoint.Endpoint.HandlePacket | adb/adb.cpp:407-486 | on an online transport the whole end refines SocketModel.HandlePacket; offline nothing happens; it dies exactly when a proper OPEN needs an id and none is left |
| Endpoint.Endpoint.ConnectToRemote | adb/sockets.cpp:515-530 | the end refines SocketModel.OpenStream |
| Endpoint.Endpoint.OnDescriptor | adb/sockets.cpp:250-383 | one socket changes by its own events, all others keep their values, the list stays exact |
| Link.PerformedRun | adb/sockets.cpp:250-383 | what a callback did to a socket and its outbox is a chain of descriptor steps of the two-ended link, one for each event |
| Link.Link.Connect | adb/sockets.cpp:515-530 | an end that opens a stream makes a Multiplexer step; the run gets longer by it |
| Link.Link.Receive | adb/adb.cpp:407-486 | so does an end that handles the next packet of the other; it dies exactly when that is an accepted OPEN and no id is left |
| Link.Link.OnDescriptor | adb/sockets.cpp:250-383 | and an end that runs a callback makes one step for each event in it |
| Link.Link.StreamsArrive | adb/sockets.cpp:125-177 | whatever two joined endpoints have done, what a descriptor was given is a prefix of what the other end's socket sent; while the receiver is listed only its queue and the packets under way are missing |
| Link.Link.QuietListsAgree | adb/adb.cpp:407-470 | each listed socket of either end none of whose packets is under way has a listed peer at the other end that names it |
| SocketRing.Ring.Insert | adb/sockets.cpp:78-83 | the socket becomes the last element and the ring is again a cycle in both directions |
| SocketRing.Ring.Remove | adb/sockets.cpp:98-107 | exactly that element is gone, the order of the rest is kept and the ring is again a cycle |
| SocketRing.SocketLists.InstallLocal | adb/sockets.cpp:85-96 | the new socket becomes the last one listed; rings, pairs and the closing list stay as they must be |
| SocketRing.SocketLists.Connect | adb/sockets.cpp:495-513 | a listed socket and a new remote one become each other's peers and all other pairs stay |
| SocketRing.SocketLists.LocalSocketClose | adb/sockets.cpp:186-248 | for the first close and for the second: both rings stay well formed, surviving pairs stay mutual, the remote socket is gone, one CLSE is sent if there was a peer; the socket moves to the closing list if it has bytes queued and no write error, and otherwise is on neither list |
| SocketRing.SocketLists.CloseListed | adb/sockets.cpp:212-248 | the first close: that element alone leaves the list, in order; with bytes queued the socket waits on the closing list with WRITE armed, so the last CHECK holds |
| SocketRing.SocketLists.Destroy | adb/sockets.cpp:232-236 | the second close: that element alone leaves the closing list and its queue is discarded |
| SocketRing.SocketLists.FirstOn | adb/sockets.cpp:113-116 | the first listed socket whose transport, or whose peer's, is t |
| SocketRing.SocketLists.CloseAllSockets | adb/sockets.cpp:109-123 | ends; no listed socket is left on t; all others stay in order with their peers; the rest were closed in list order, each telling its peer |
| SmartSocket.Unhex | adb/sockets.cpp:553-594 | the number written, modulo 2^32, or 0xffffffff if any character is no hexadecimal digit |
| SmartSocket.FourDigits | adb/sockets.cpp:689-693 | four digits never exceed 0xffff, so a length that passes leaves room for the terminator |
| SmartSocket.JudgePrefix | adb/sockets.cpp:684-701 | no proper prefix of a request is acted on, and the whole request yields exactly its body |
| SmartSocket.RejectedAtFour | adb/sockets.cpp:689-693 | a bad length is rejected from the fourth byte on and not before |
| SmartSocket.Smart.Enqueue | adb/sockets.cpp:657-701 | the verdict on all bytes gathered so far, or rejection on overflow; the terminator is in bounds behind the body |
| SmartSocket.Smart.Feed | adb/sockets.cpp:657-701 | however a request is cut into packets, on a new socket or after a transport request, all packets but the last looked at are waited on; that one yields the body if the request fits the payload limit or came whole in the very first packet, and otherwise is refused, past the limit |
| SmartSocket.LongRequestRefused | adb/sockets.cpp:672-676 | a well-formed request of 5000 bytes, sent after a transport request in packets of at most 4096 bytes, is refused |
| Fdevent.EventsOf | adb/fdevent.cpp:257-276 | a hangup or error of any kind is ERROR and also READ; READ otherwise only from POLLIN, WRITE only from POLLOUT |
| Fdevent.Dispatcher.Install | adb/fdevent.cpp:142-159 | the fdevent becomes the one for that fd, wanting nothing; the table stays exact |
| Fdevent.Dispatcher.Remove | adb/fdevent.cpp:161-176 | an active fdevent leaves the table and the pending list; the fd is closed unless DONT_CLOSE |
| Fdevent.Dispatcher.Set | adb/fdevent.cpp:178-214 | poll bits mirror the wanted events and pending events no longer wanted are withdrawn, from the list too when none is left |
| Fdevent.Dispatcher.Add | adb/fdevent.cpp:216-219 | wanted events grow by exactly these; what was pending is kept only where wanted; the list does not grow |
| Fdevent.Dispatcher.Del | adb/fdevent.cpp:221-224 | wanted events shrink by exactly these and pending ones are withdrawn with them; the list does not grow |
| Fdevent.Dispatcher.Process | adb/fdevent.cpp:241-285 | every polled fdevent holds exactly the events reported for its fd and is on the list once if there are any; both CHECKs hold |
| Fdevent.Dispatcher.SubprocessExited | adb/fdevent.cpp:300-345 | keeps the dispatcher invariant and the account of the batch, also with the nested call |
| Fdevent.Dispatcher.Callback | adb/fdevent.cpp:287-294 | any sequence of installs, removes, sets and subprocess exits keeps the invariant and never adds to the pending list |
| Fdevent.Dispatcher.CallFront | adb/fdevent.cpp:287-294 | PENDING is set on what is popped, so the CHECK holds; the list gets strictly shorter |
| Fdevent.Dispatcher.Drain | adb/fdevent.cpp:429-433 | ends with the list empty; each fdevent pending at the start was called exactly once with its still wanted events, or was dropped; no other was called, also none made during the batch |
| Fdevent.NothingDue | adb/fdevent.cpp:429-433 | an fdevent with nothing pending at the start of a batch has nothing delivered in it |
| Fdevent.DroppedMeans | adb/fdevent.cpp:206-213 | a dropped fdevent was removed, or asked for none of the events it still held |
| Fdevent.Dispatcher.Loop | adb/fdevent.cpp:413-435 | the invariant holds, with nothing pending, after every number of rounds |
| TransportSession.StepOk | adb/transport.cpp:197-311 | every step of any of the three threads keeps the session invariant |
| TransportSession.ClosedOnce | adb/transport.cpp:620-633 | in every run the count is the number of running threads, the CHECK holds, there is one close and one removal, posted or handled, once both threads are done, and at most one kick |
| TransportSession.ConnectFirst | adb/adb.cpp:358-370 | in every run the first packet on the wire is CNXN and the wire carries what was sent since the first SYNC, in order |
| TransportSession.NothingLost | adb/transport.cpp:272-303 | once the writer has caught up, everything the main thread sent is on the wire if and only if nothing was sent before the first packet came in |
| TransportSession.OnlyWhenUp | adb/transport.cpp:742-746 | with streams opened only on transports that are not offline, nothing is sent that early |
| TransportSession.GoodbyeReachesWriter | adb/transport.cpp:242-250 | once SYNC(0, 0) was posted and both queues are empty, the writer has left its loop |
| TransportSession.GoodbyeArrives | adb/transport.cpp:242-303 | from every session state after SYNC(0, 0) was posted, steps of the main thread and the writer alone lead to the writer leaving its loop: they never wait for each other |
| TransportSession.GoodbyeCanArrive | adb/transport.cpp:242-303 | the same at every point of every run |
| FileSync.ClientOk | adb/file_sync_client.cpp:374-499 | every client step keeps the push invariant |
| FileSync.ServiceOk | adb/file_sync_service.cpp:243-317 | every service step keeps it, whatever fails |
| FileSync.NoFalseSuccess | adb/file_sync_client.cpp:478-499 | in every run, for every file on the connection, when CopyDone reports success the service has written what the client read, all of the file if and only if poll did not fail with part unread, and no message is left over |
| FileSync.ReplyIsUnderWay | adb/file_sync_client.cpp:478-499 | in every run, while the client awaits its reply a service that has not failed can go on: the two never wait for each other |
| FileSync.QuietUntilDone | adb/file_sync_service.cpp:243-317 | in every run, a reply before DONE means the service has failed |
| FileSync.PollFailureTruncates | adb/file_sync_client.cpp:237-245 | for every large file a run that reports success although only part was written, because poll failed |
| FileSync.SyncConnection.SendLargeFile | adb/file_sync_client.cpp:418-476 | the read-send-poll loop ends awaiting the reply, or gives up, with the push invariant |
| FileSync.SyncConnection.SendFile | adb/file_sync_client.cpp:677-730 | success means the service wrote the bytes read, the whole file if and only if poll did not cut it short; otherwise the client gave up, or is still waiting and no reply has come |
| Hex.DigitsRoundTrip | cpio/mkbootfs.c:107-124 | the k hexadecimal digits printed for a number below 16^k read back as that number |
| Cpio.HeaderFields | cpio/mkbootfs.c:107-124 | mode, file size and name size are found where a newc reader looks for them |
| Cpio.ParseMemberBack | cpio/mkbootfs.c:91-139 | whatever precedes and follows it, an ejected member parses as exactly its name, mode and data, and its length is right |
| Cpio.ReadUpTo | cpio/mkbootfs.c:91-151 | a reader of the whole archive finds exactly the members before the first one named like the trailer |
| Cpio.ParseBack | cpio/mkbootfs.c:91-151 | it finds all of them if and only if none is named like the trailer |
| Cpio.WholeBlocks | cpio/mkbootfs.c:147-150 | the archive's length is a multiple of 256 |
| Cpio.Archiver.Eject | cpio/mkbootfs.c:91-139 | output and total_size grow by exactly that member; header and data start at multiples of 4 |
| Cpio.Archiver.WriteArchive | cpio/mkbootfs.c:91-151 | a run of _eject calls and the trailer produce the archive; total_size is the number of bytes emitted |
| ArchiveTraversal.SortedAscending | cpio/mkbootfs.c:203 | names of a directory come out in strictly ascending strcmp order |
| ArchiveTraversal.AscendingUnique | cpio/mkbootfs.c:203 | there is only one such order, whichever way qsort finds it |
| ArchiveTraversal.WalkIsComplete | cpio/mkbootfs.c:159-273 | a node is visited if and only if kept names lead to it, under exactly those names |
| ArchiveTraversal.WalkInOrder | cpio/mkbootfs.c:159-273 | visits come in strictly increasing order of their paths: preorder, siblings by strcmp, each path once |
| ArchiveTraversal.ArchiveHoldsTree | cpio/mkbootfs.c:159-273 | a reader of the archive of a directory finds exactly the walk: every kept node once, in order, under its prefixed path with its mode and content, and nothing else |
| ArchiveTraversal.NamesDiffer | cpio/mkbootfs.c:159-273 | in a tree whose names are non-empty and free of slashes, no two members of the archive have the same name |
| ArchiveTraversal.ReadNames | cpio/mkbootfs.c:183-201 | the readdir loop keeps exactly the entries that are neither dotfiles nor named root |
| ArchiveTraversal.Archiving.Archive | cpio/mkbootfs.c:232-273 | ejects the node and what lies below it and restores both buffers; dies exactly on a node of unsupported type |
| ArchiveTraversal.Archiving.ArchiveDir | cpio/mkbootfs.c:159-230 | ejects exactly the walk of the directory and restores both path buffers |
| ArchiveTraversal.Archiving.ArchiveTree | cpio/mkbootfs.c:275-284 | the whole tree, from freshly filled buffers |
| ShellProtocol.Decode32Back | adb/shell_service_protocol.cpp:39-41 | a length written in four bytes reads back |
| ShellProtocol.PiecesMean | adb/shell_service_protocol.cpp:45-51 | pieces concatenate to the payload, none exceeds the capacity, all but the last fill it |
| ShellProtocol.PieceCount | adb/shell_service_protocol.cpp:32-54 | one piece for an empty payload, otherwise length over capacity rounded up |
| ShellProtocol.EncodeAllMore | adb/shell_service_protocol.cpp:56-62 | writing one more packet appends its encoding |
| ShellProtocol.Shell.Read | adb/shell_service_protocol.cpp:32-54 | yields the next piece of what was written, and fails exactly when the descriptor ends before that piece is complete |
| ShellProtocol.AnyInput | adb/shell_service_protocol.cpp:32-54 | whatever bytes a descriptor holds, they are a beginning of the rest of the packet under way and some whole packets, so Read is covered for all input |
| ShellProtocol.Shell.ReadAll | adb/shell_service_protocol.cpp:32-54 | successive reads yield the ids and pieces of the packets written, for every capacity: all of them if the descriptor holds all, otherwise a beginning |
| ShellProtocol.Shell.Write | adb/shell_service_protocol.cpp:56-62 | appends to the descriptor a front part of the packet's encoding, all of it if and only if it succeeds |
| StdinPump.Subprocess.PassInput | adb/shell_service.cpp:561-628 | what the subprocess was given plus the unwritten part of the last packet is the input received; no packet is read over an unfinished one |
| StdinPump.Subprocess.OnProtocol | adb/shell_service.cpp:537-545 | entered only with no unfinished packet; waiting moves to stdin if one is left |
| StdinPump.Subprocess.OnStdin | adb/shell_service.cpp:547-555 | entered only with an unfinished packet, reads none; waiting moves back when it is finished |
| StdinPump.Subprocess.Round | adb/shell_service.cpp:506-559 | one round keeps exactly one of the two waits while stdin is open |
| StdinPump.Subprocess.PassDataStreams | adb/shell_service.cpp:456-496 | after any rounds the bytes given to the subprocess are a prefix of the stdin payloads of the packets the client wrote, whatever the capacity they were read with |
| StdinPump.StdinOfReads | adb/shell_service.cpp:561-628 | reading packets in pieces leaves the standard input they carry unchanged |
| Utf8.CodepointLenTable | adb/sysdeps_win32.cpp:2279-2281 | the shift table gives 1, 2, 3 or 4 by the ranges of the lead byte |
| Utf8.CutIsBoundary | adb/sysdeps_win32.cpp:2288-2324 | on the beginning of well-formed text the cut is exactly where the whole characters end |
| Utf8.ParseComplete | adb/sysdeps_win32.cpp:2288-2324 | for any bytes the used part and the held part make up the input and at most 3 bytes are held |
| Utf8.CutKeepsWhole | adb/sysdeps_win32.cpp:2345-2363 | what follows well-formed text is cut into well-formed text and a cut-off character |
| Utf8.Console.Write | adb/sysdeps_win32.cpp:2345-2363 | pieces and buffer make up the input; on well-formed text the piece is whole characters and the buffer a cut-off one |
| Utf8.Console.WriteAll | adb/sysdeps_win32.cpp:2333-2363 | the same for every chunking of every input |
| HandleTable.LowestFreeMeans | adb/sysdeps_win32.cpp:178-200 | the reference allocator's place is free and every lower one is in use |
| HandleTable.Handles.Alloc | adb/sysdeps_win32.cpp:178-200 | the lowest free record of the whole table although the search starts at the hint; fails if and only if all are in use |
| HandleTable.Handles.Close | adb/sysdeps_win32.cpp:204-224 | frees exactly that record and keeps every record below the hint in use |
| HandleTable.Handles.RecordRoundTrip | adb/sysdeps_win32.cpp:142-176 | a record's descriptor leads back to it if and only if it is in use |
| HandleTable.Handles.DescriptorRoundTrip | adb/sysdeps_win32.cpp:142-176 | a descriptor that is accepted is the descriptor of the record it leads to; one is refused if and only if no record in use has it |
| HandleTable.Handles.OpenAndClose | adb/sysdeps_win32.cpp:142-224 | a new descriptor led nowhere before, leads to the lowest free record until that is closed and nowhere after; all other descriptors are unaffected |
| HandleTable.RunAll | adb/sysdeps_win32.cpp:178-224 | any run of allocations and closes goes through the same tables as always taking the lowest free record |

## Left out

- The text status (OKAY or FAIL) written to a client when its first stream answer arrives (`*_notify` functions): it goes straight to the client's descriptor ahead of all stream bytes and changes no queue, id, peer or packet, so every statement here is about what follows it.
- Local-to-local host service pairs, JDWP sockets and device trackers: their close paths follow other rules than the ones proved here.
- The destination string of OPEN, and which services exist: whether a service socket can be made is an argument.
- More than one transport in the two-ended link: the classes carry transports, the link has one. A transport going offline in mid-run is covered only by the close path of `close_all_sockets`.
- exit_on_close in local_socket_destroy, and shutdown of peers other than remote sockets.
- What the smart socket does with a request once it is known (prefix parsing, host services).
- Sockets.LocalSocket.ReadHalf: the bytes read are arbitrary; that they are what the descriptor held is the kernel's part.
- Fdevent: fdevent_create and fdevent_destroy, the run queue and the thread check; a record that is installed again must not be active, and an fd that is installed must be free, as the CHECK in fdevent_install demands.
- TransportSession: the device side of the session, partial writes on the wire, real time; a failed write of the main thread ends the program and is not a step.
- TransportSession.GoodbyeReachesWriter: that the queues do become empty takes a scheduler that lets every thread run; GoodbyeCanArrive shows that it is possible from every state.
- FileSync: symbolic links, the lstat that may skip a file, permissions and labels, and the byte layout of the requests; reads return any non-empty part of what is left of the file. A client whose writes fail gives up the connection.
- Cpio: total_size is a mathematical number, so an archive of 2 GiB or more is not covered; sizes and modes must fit 32 bits.
- ArchiveTraversal: reading files and links is taken from the tree, so files that change size meanwhile are not covered; qsort is stood in for by a sort with the same result.
- ShellProtocol: lengths are little-endian as on the machines in use.
- StdinPump: window size changes and output towards the protocol descriptor have no effect on the input side and are arbitrary.
- Utf8: conversion to UTF-16 and the console call itself.
- HandleTable: locking, and what the class callbacks do.
