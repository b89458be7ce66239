# Verified model of ThreadPool and PacketForge

This project models two C++ programs kept in one repository and proves properties of the
model with Dafny 4.11: the thread-pool server in `Version1`, and PacketForge (`PacketForge_V1`),
a packet protocol with its codec, transport, client, server application and configuration
loader. `dafny verify dfyconfig.toml` checks everything.

**The thread pool** (`Pool`, `PoolSafety`, `PoolShutdown`, `ThreadPool`, `RequestServer`). The
pool is a step system: each mutex-protected region, notification, spurious wakeup and return of
a task is one atomic step of one thread, and a schedule is any sequence of steps the state
allows, with any number of workers and enqueuers. Proved for every schedule: tasks are handed
out in order, once, to one worker, from a bounded queue; no wakeup is lost; the threads' own
steps always end, and end with all work done. Spurious wakeups may happen at any time and are
never counted on. `enqueue` never looks at `stop`, so the promise
that the destructor drains the queue is false in general (`EnqueueAfterShutdownIsLost` is a
schedule where a task is lost); `JoinedPoolHasDrained` says exactly when it holds: the tasks left
over are the ones accepted when every worker had already left its loop. The class `ThreadPool`
performs the steps on its fields, and its `Destroy` is proved for every interleaving.
`RequestServer` adds the accept loop, the client handlers, the kernel's descriptor table and the
32-bit request counter.

**The wire stack** (`Endian`, `Packet`, `Codec`, `Framing`, `Dispatcher`, `Network`, `PacketIO`,
`Streams`, `Client`, `Transaction`). Bytes and header fields are bit vectors. The wire format and the meaning of
a buffer are stated without a host; encoder and decoder go through host memory of either byte
order and are proved equal to them. The operating system (`Kernel`) is an adversary: send and recv
may take or deliver any non-empty piece, or fail, on every call. Proved: the codec is a bijection,
frames are self-delimiting, the I/O loops are exact, a list of packets survives any
fragmentation on both sides, and a client that receives a reply received the answer to its own
request.

**Ownership and the server program** (`Events`, `Ownership`, `OwnershipRuns`, `Network`, `Server`,
`ServerMain`, `ServerLog`). What each operation does to a descriptor is a function of the object's value and of
what the system calls return; the classes are proved against these functions, and over any run on
any number of objects the kernel's table is exactly what live objects hold. `ServerMain` is one run
of the server program with a shutdown flag that may rise at any moment. The kernel keeps a log of
every call a process makes, with its result, and of every look at the flag; a run's record is
proved to be what the log shows, and `LogDecidesRun` that the log shows only one.

**The configuration loader** (`ConfigText`, `ConfigLoader`, `ConfigMeaning`, `ConfigRoundTrip`). The
loops are proved against functions on text; each kind of line and value is then characterised on its
characters, the result without the loop, and shown to survive printing and loading again.

Where code and documents differ, the code is followed. The document on error handling
(`PacketForge_V1/docs/Phase6_M2_GAP-003 — Error Handling.md`) gives exit code 0 for a protocol
error that was reported to the peer; the program returns 1 (see `ExitsZeroExactlyWhen`). The
decoder's size errors cannot occur on a stream (`FramesHaveTheirSize`), and the version check in
the dispatcher cannot fail after the decoder's.

## Model

| member | source | states |
|---|---|---|
| PoolSafety.EveryScheduleIsSafe | Version1/src/Server.cpp:50-137 | after every schedule from a fresh pool of any size: accepted tasks = dequeued tasks followed by the queue, at most 1000 queued, every ticket run by exactly the worker that took it or finished, no lost wakeup, workers leave only after stop |
| PoolSafety.EnqueueTakesBelow1000 | Version1/src/Server.cpp:93-116 | enqueue appends its task to the queue exactly when fewer than 1000 are queued, and changes nothing otherwise |
| PoolSafety.StepKeepsFifo | Version1/src/Server.cpp:57-73 | every step keeps the order of hand-off equal to the order of acceptance, and the queue bound |
| PoolSafety.StepKeepsExactlyOnce | Version1/src/Server.cpp:70-81 | every step keeps each ticket with its one worker until it finishes |
| PoolSafety.StepKeepsNoLostWakeup | Version1/src/Server.cpp:57-63 | while some worker sleeps, queued tasks never outnumber pending notify_one calls plus workers woken but not yet at the mutex; while one sleeps after stop, notify_all is still to come |
| PoolSafety.QueuedTasksAreAttended | Version1/src/Server.cpp:60-63 | with a task queued, a worker is under way, or a sleeper is about to be signalled, or every worker has left |
| PoolSafety.TasksAreHandedOutOnce | Version1/src/Server.cpp:70-81 | two workers never run the same ticket, a finished one is not run again, and hand-out is a prefix of acceptance |
| PoolShutdown.InternalStepLowersMeasure | Version1/src/Server.cpp:50-83 | every step inside the pool strictly lowers what is left to do, except a spurious wakeup before stop, which adds exactly one |
| PoolShutdown.SomeThreadCanMove | Version1/src/Server.cpp:57-68 | in a stopping pool with a worker still in its loop some thread can take a step that is not a spurious wakeup; for a sleeper this is the notify_all still to come |
| PoolShutdown.WorkGetsDone | Version1/src/Server.cpp:50-145 | from any reachable state the pool stops after at most Measure steps plus two for each spurious wakeup before stop; when no thread can move by itself and some worker was still in its loop, every accepted task has returned, and all workers are asleep over an empty queue or, after stop, have left, without any spurious wakeup being needed |
| PoolShutdown.JoinedPoolHasDrained | Version1/src/Server.cpp:127-145 | when all workers have left, every task handed out has returned and the queue is exactly the tasks accepted after the last exit, so it is empty if and only if there were none |
| PoolShutdown.EnqueueAfterShutdownIsLost | Version1/src/Server.cpp:93-116 | a schedule on which enqueue accepts a task that never runs |
| PoolShutdown.EnqueuesBeforeStopAreSafe | Version1/src/Server.cpp:93-145 | with at least one worker, tasks enqueued before the destructor starts are never stranded |
| ThreadPools.ThreadPool.constructor | Version1/src/Server.cpp:37-89 | a new pool is the initial state of the step system |
| ThreadPools.ThreadPool.LockAndTake | Version1/src/Server.cpp:56-73 | one critical section of a worker: it takes the front task when there is one, and otherwise leaves after stop and sleeps before |
| ThreadPools.ThreadPool.TryEnqueue | Version1/src/Server.cpp:93-116 | true exactly when fewer than 1000 tasks are queued, and then the task is the last of the queue and a notification is due; a refused call changes nothing |
| ThreadPools.ThreadPool.NotifyOneWorker | Version1/src/Server.cpp:112 | notify_one unblocks one sleeper when there is one |
| ThreadPools.ThreadPool.GetRequestNumber | Version1/src/Server.cpp:120-123 | a 32-bit wrapping pre-increment |
| ThreadPools.WrapIsSigned32 | Version1/src/Server.cpp:120-123 | the counter is the signed 32-bit number congruent to the count |
| ThreadPools.ThreadPool.Run | Version1/src/Server.cpp:43-145 | any schedule takes the object where the step system goes |
| ThreadPools.ThreadPool.StepAnyThread | Version1/src/Server.cpp:50-83 | in a stopping pool with a worker still in its loop some thread moves by itself, and whichever moves keeps the invariant and lowers the measure |
| ThreadPools.ThreadPool.Destroy | Version1/src/Server.cpp:127-145 | for every interleaving, whether the platform wakes sleepers or not, the joins return, the queue is empty and every accepted task has run exactly once |
| RequestServer.EveryRunIsSound | Version1/src/Server.cpp:154-316 | after every run of main, handlers and kernel: each client is with main, refused, or in the pool; each was closed by its owner only; the descriptor table is exactly the clients not yet closed |
| RequestServer.OfferTakesBelow1000 | Version1/src/Server.cpp:278-312 | main's client goes to the end of the queue when fewer than 1000 wait, and is refused otherwise |
| RequestServer.ClientsAreClosedOnce | Version1/src/Server.cpp:214-312 | a close is for a client not closed before whose descriptor is open; main closes exactly refused clients, a worker exactly the one it serves; nothing else in the table changes |
| RequestServer.HandlersDoNotShare | Version1/src/Server.cpp:154-214 | two workers never serve the same client or descriptor, and a served descriptor is open |
| RequestServer.IdleServerLeaksNothing | Version1/src/Server.cpp:214-316 | with no client in hand, queued or served, no client descriptor is open |
| RequestServer.RequestNumbersCountUp | Version1/src/Server.cpp:120-123 | the k-th number handed out over all workers is k below 2^31, and two are equal exactly when a multiple of 2^32 apart |
| Endian.SwapsAreInvolutions | PacketForge_V1/src/common/endian.cpp:16-46 | swapping twice is the identity at 16, 32 and 64 bits |
| Endian.SwapMirrorsBytes64 | PacketForge_V1/src/common/endian.cpp:32-46 | the 64-bit swap puts every byte at the mirrored place |
| Endian.MemoryIsInHostOrder | PacketForge_V1/src/protocol/encoder.cpp:13-25 | what is copied out of memory are the digits of the value, least significant first on a little-endian host and last on a big-endian one |
| Endian.LoadIsInHostOrder | PacketForge_V1/src/protocol/decoder.cpp:173-214 | what is copied into memory is the number its bytes denote in that order |
| Endian.WritesNetworkOrder | PacketForge_V1/src/common/endian.cpp:48-70 | on either host the memory bytes of a value put through hostToNetwork are most significant first |
| Endian.ReadsNetworkOrder | PacketForge_V1/src/protocol/decoder.cpp:173-214 | on either host networkToHost of copied bytes is their big-endian value |
| Endian.WireDigitsAreTheNumber | PacketForge_V1/src/common/endian.cpp:60-70 | the four bytes on the wire are the base-256 digits of the number |
| Endian.WireDigitsAreTheNumber16 | PacketForge_V1/src/common/endian.cpp:48-58 | the two bytes of a 16-bit field are the base-256 digits of the number |
| Endian.ReadValueIsTheNumber | PacketForge_V1/src/protocol/decoder.cpp:173-190 | the value read from four bytes is the number they denote |
| Endian.ReadValueIsTheNumber16 | PacketForge_V1/src/protocol/decoder.cpp:196-214 | the value read from two bytes is the number they denote |
| Endian.SizeBytesAreDigits | PacketForge_V1/src/protocol/packet.cpp:77-81 | the wire bytes of a payload size cast to 32 bits are the digits of the size |
| Packets.Packet.constructor | PacketForge_V1/src/protocol/packet.cpp:8-17 | a new packet has the magic number, version 1 and nothing else |
| Packets.Packet.Assign | PacketForge_V1/src/protocol/packet_io.cpp:169-172 | copy assignment copies every field |
| Codec.Encode | PacketForge_V1/src/protocol/encoder.cpp:30-80 | on either host: refuses exactly invalid packets, otherwise yields the wire format |
| Codec.AppendValue32 | PacketForge_V1/src/protocol/encoder.cpp:13-25 | appends the big-endian bytes of the value a network-order word stands for |
| Codec.Decode | PacketForge_V1/src/protocol/decoder.cpp:15-166 | on either host: yields what the buffer means, or its error code in the order the checks are made |
| Codec.ReadUint32 | PacketForge_V1/src/protocol/decoder.cpp:173-190 | reads four bytes most significant first, whatever the host |
| Codec.LengthFieldIsBigEndian | PacketForge_V1/src/protocol/encoder.cpp:66-69 | bytes 12 to 15 of an encoding are the payload size, most significant byte first |
| Codec.DeclaredLengthIsBigEndian | PacketForge_V1/src/protocol/decoder.cpp:101-105 | the length a header declares is its last four bytes read most significant first |
| Codec.ParseInvertsWire | PacketForge_V1/src/protocol/decoder.cpp:15-166 | the decoder accepts exactly the encodings of valid packets and returns the packet: both round trips at once |
| Codec.WireIsSelfDelimiting | PacketForge_V1/src/protocol/encoder.cpp:45-77 | no encoding is a proper prefix of another |
| Framing.StreamRoundTrip | PacketForge_V1/src/protocol/packet_io.cpp:86-199 | as many receives as sends return exactly the packets sent, in order, and leave exactly the bytes that follow |
| Framing.StreamsAreUnambiguous | PacketForge_V1/src/protocol/packet_io.cpp:29-43 | two packet lists never give the same stream, nor one a prefix of the other except as a prefix of the list |
| Framing.FramesHaveTheirSize | PacketForge_V1/src/protocol/decoder.cpp:23-64 | a complete frame is refused for its magic number or version only; the size checks cannot fail on a stream |
| Dispatcher.HandleHello | PacketForge_V1/src/protocol/opcode_dispatcher.cpp:62-98 | overwrites the response with the greeting, echoing the sequence id (0 when request and response are one object) |
| Dispatcher.MakeErrorResponse | PacketForge_V1/src/protocol/opcode_dispatcher.cpp:105-142 | overwrites the response with the one-byte error, echoing the sequence id (0 when request and response are one object) |
| Dispatcher.Dispatch | PacketForge_V1/src/protocol/opcode_dispatcher.cpp:8-55 | greets opcode 1, answers any other with error 2, and never fails |
| Dispatcher.ReplyBytes | PacketForge_V1/apps/server_main.cpp:202-413 | every byte of the reply as a function of the request bytes: magic, version, flags, opcode, echoed sequence id, length and payload |
| Dispatcher.AnswerFields | PacketForge_V1/src/protocol/opcode_dispatcher.cpp:8-142 | version, then opcode, decide the answer: error 3, the greeting, or error 2 |
| Dispatcher.FieldBytes | PacketForge_V1/src/protocol/encoder.cpp:45-77 | where each field of a packet stands in its encoding |
| Dispatcher.GreetingIsText | PacketForge_V1/src/protocol/opcode_dispatcher.cpp:84-92 | the greeting's bytes are the characters of "Hello from PacketForge Server" |
| Dispatcher.RequestGetsItsReply | PacketForge_V1/apps/server_main.cpp:202-424 | a valid request is answered by a fixed reply that the client reads back exactly |
| Dispatcher.RepliesAreReadable | PacketForge_V1/apps/server_main.cpp:267-292 | whatever the frame, the reply is valid, encodes, and is read back exactly |
| Network.Socket.Create | PacketForge_V1/src/network/socket.cpp:66-96 | keeps an open descriptor, otherwise takes the one the kernel grants or reports SocketError; the kernel calls are legal and logged |
| Network.Socket.Bind | PacketForge_V1/src/network/socket.cpp:103-173 | creates the socket if needed, then setsockopt, inet_pton and bind until one fails, whose error it reports; no descriptor changes on those |
| Network.Socket.Accept | PacketForge_V1/src/network/socket.cpp:225-266 | on success the client socket gives up what it held and holds the new descriptor; on failure nothing changes |
| Network.Socket.Close | PacketForge_V1/src/network/socket.cpp:273-282 | closes a held descriptor once and forgets it |
| Network.Socket.MoveFrom | PacketForge_V1/src/network/socket.cpp:44-59 | closes what was held, takes the source descriptor, empties the source; self-assignment changes nothing |
| Network.Connection.Connect | PacketForge_V1/src/network/connection.cpp:76-145 | makes a socket if there is none, resolves, then calls ::connect: Success and ConnectionFailed mean that the last call was that one and succeeded or failed, a refused address that it was not made; no other connection's bytes change and a new one starts empty |
| Network.Connection.Accept | PacketForge_V1/src/network/connection.cpp:148-182 | a closed listener or a connected object makes no call; otherwise one ::accept on the listener decides, and on success the connection holds what it returned |
| Network.Connection.Disconnect | PacketForge_V1/src/network/connection.cpp:184-195 | closes the socket once and is not connected |
| Network.Connection.MoveFrom | PacketForge_V1/src/network/connection.cpp:42-64 | takes over the source, which is left disconnected and empty |
| Network.Transport.Send | PacketForge_V1/src/network/transport.cpp:67-122 | Success exactly hands all of data to the kernel, an error a strict prefix, no connection means no call; the log holds only sends, and the last one alone failed or none did; a reliable kernel never fails it |
| Network.Transport.Receive | PacketForge_V1/src/network/transport.cpp:129-210 | Success yields exactly the next size bytes; every failure after the connection check leaves data empty and is the last logged receive's; end of stream disconnects and means the stream was too short |
| PacketIOs.PacketIO.Send | PacketForge_V1/src/protocol/packet_io.cpp:29-57 | an invalid packet is refused before the transport is touched; otherwise one whole frame or a strict prefix is sent |
| PacketIOs.PacketIO.Receive | PacketForge_V1/src/protocol/packet_io.cpp:64-199 | Success and ProtocolError consume exactly one frame and report what it means; packet is unchanged on every failure; the only protocol errors are bad magic and bad version |
| PacketIOs.PacketIO.ReceiveFrame | PacketForge_V1/src/protocol/packet_io.cpp:85-159 | the header read and the payload read together yield exactly the first frame, and never read past it |
| Streams.SendAll | PacketForge_V1/src/protocol/packet_io.cpp:29-43 | successive sends put the frames on the stream in order; a failure leaves whole frames and a strict prefix of the next |
| Streams.ReceiveAll | PacketForge_V1/src/protocol/packet_io.cpp:64-199 | successive receives return what the stream means frame by frame, whatever the pieces |
| Streams.Transfer | PacketForge_V1/src/protocol/packet_io.cpp:29-199 | under any split by send and any independent split by recv, the packets arrive in order and later bytes stay |
| Clients.Client.Move | PacketForge_V1/src/client/client.cpp:25-36 | the moved-to client has the connection and its packet layer refers to its own transport |
| Clients.Client.MoveFrom | PacketForge_V1/src/client/client.cpp:43-55 | move assignment takes over the connection and leaves both packet layers bound to their own transports |
| Clients.Client.Connect | PacketForge_V1/src/client/client.cpp:62-72 | as Connection::connect, ::connect's result included |
| Clients.Client.Send | PacketForge_V1/src/client/client.cpp:93-112 | without a connection no kernel call; otherwise the whole frame or, on an error, a strict prefix of it |
| Clients.Client.Receive | PacketForge_V1/src/client/client.cpp:119-138 | without a connection no kernel call and the packet unchanged; otherwise Success and ProtocolError consume exactly one frame, and the packet changes on Success only |
| Servers.Server.Start | PacketForge_V1/src/server/server.cpp:68-152 | a start on a running server makes no call; a first start that succeeds made socket, setsockopt, inet_pton, bind, listen and getsockname, in that order, all successful; one that fails stopped at the first call that failed, reports its error and leaves the server stopped |
| Ownership.FirstStartShows | PacketForge_V1/src/server/server.cpp:68-152 | the same for the specification, with the port of getsockname |
| Servers.Server.Establish | PacketForge_V1/src/server/server.cpp:90-152 | each stage that fails closes the socket, and the log ends with it |
| Servers.Server.Stop | PacketForge_V1/src/server/server.cpp:154-164 | closes the socket once, not running, port 0 |
| Servers.Server.MoveFrom | PacketForge_V1/src/server/server.cpp:43-66 | stops, takes over the source, which is left stopped |
| Servers.Server.Accept | PacketForge_V1/src/server/server.cpp:178-194 | refuses when not running, otherwise as Connection::accept |
| OwnershipRuns.StepConserves | PacketForge_V1/src/network/socket.cpp:20-96 | every operation makes only legal kernel calls (no double close, no reuse of an open descriptor) and keeps the table equal to what objects hold, each once |
| OwnershipRuns.StepMovesDescriptors | PacketForge_V1/src/network/connection.cpp:25-195 | which descriptor each operation opens, closes or moves, and to whom |
| OwnershipRuns.DescriptorsAreConserved | PacketForge_V1/src/network/connection.cpp:25-64 | over every run from nothing of create, connect, accept, start, stop, disconnect, move and destroy on any number of objects, and of every socket operation through socket(): open descriptors are exactly those held, no two owners, none left when no object is |
| OwnershipRuns.ObjectsStayCoherent | PacketForge_V1/src/server/server.cpp:25-164 | over any run, connected implies open, running exactly when open and not running implies port 0 hold all the time if and only if no operation of the run breaks a connection through socket() |
| OwnershipRuns.StepKeepsCoherentExactlyWhen | PacketForge_V1/src/network/connection.cpp:207-211 | an operation breaks that exactly when it closes a connected connection's socket through socket(), moves it away, or moves a closed socket into it |
| OwnershipRuns.ClosedStaysClosed | PacketForge_V1/src/network/transport.cpp:172-198 | a disconnected connection stays so until its own connect or accept succeeds or another is moved into it |
| ServerMain.RunServer | PacketForge_V1/apps/server_main.cpp:35-496 | every run ends with all its descriptors closed and the server stopped, at most one frame sent, which is the reply to the first frame of all the bytes its client sends, and the declared exit code; the log is exactly the calls and looks of the record, in order; a flag already up is seen by the first look, and a look that sees it means it is up; when kernel calls do not fail, the flag stays down and a frame arrives, the reply is sent and the exit code is 0 or, for a refused frame, 1 |
| ServerMain.TakeOneClient | PacketForge_V1/apps/server_main.cpp:107-455 | every way out of the scope leaves no descriptor but the transport's, with stages in order, the log of exactly those stages and the declared exit code |
| ServerMain.Converse | PacketForge_V1/apps/server_main.cpp:175-455 | one request, read as exactly one frame, and at most one reply, with the log of exactly these receives, looks and sends; at most the transport is left open |
| ServerMain.Respond | PacketForge_V1/apps/server_main.cpp:356-436 | looks at the flag, then sends the dispatched reply unless it was up |
| ServerMain.Refuse | PacketForge_V1/apps/server_main.cpp:246-328 | sends the error reply with sequence id 0, then looks at the flag; exits with 1 unless that look saw it |
| ServerMain.UndisturbedRun | PacketForge_V1/apps/server_main.cpp:107-455 | a record without failure and without a look that saw the flag means the first frame was answered, and only a refused one exits with 1 |
| ServerLogs.LogDecidesRun | PacketForge_V1/apps/server_main.cpp:68-496 | two records that fit the same log and the same client bytes are equal, so the exit code is a function of what the calls returned and the looks saw |
| ServerLogs.AnsweredRunShows | PacketForge_V1/apps/server_main.cpp:82-440 | the log of a run that sent its reply, call by call: socket and setup, a look, one accept, a look, receives, one look for a refused frame and two for a request, sends, a look |
| ServerLogs.ShutdownEndsTheLog | PacketForge_V1/apps/server_main.cpp:115-440 | a look that sees the shutdown is the last thing the program does before the cleanup |
| Transactions.Transact | PacketForge_V1/src/client/client.cpp:62-138 | a client's connect, send and receive with a whole server run: whatever fails, a reply that is received is the server's answer to the very request; when nothing fails, a valid request gets it and the server exits with 0 |
| Transactions.PartOfAFrame | PacketForge_V1/src/protocol/packet_io.cpp:85-159 | an encoding that is cut short is never taken for a frame |
| ServerMain.CleanUp | PacketForge_V1/apps/server_main.cpp:478-494 | disconnects the transport and stops the server; both descriptors are closed |
| ServerMain.ExitsZeroExactlyWhen | PacketForge_V1/apps/server_main.cpp:44-496 | exit code 0 exactly when a look saw the shutdown, the peer closed, or a request was answered |
| ConfigText.Trim | PacketForge_V1/src/config/config_loader.cpp:18-50 | yields the trimmed text |
| ConfigMeaning.SpacesAreSix | PacketForge_V1/src/config/config_loader.cpp:24-48 | white space is the six characters of the "C" locale |
| ConfigText.TrimmedIsUnique | PacketForge_V1/src/config/config_loader.cpp:18-50 | any text without outer white space between two blanks is the trimmed text |
| ConfigText.StollTakesAll | PacketForge_V1/src/config/config_loader.cpp:81-102 | stoll takes a whole text exactly when it is an optional sign and digits in the signed 64-bit range, and yields that number |
| ConfigMeaning.DecimalIsPlaceValue | PacketForge_V1/src/config/config_loader.cpp:81-102 | the number of a digit text is the sum of each digit times its power of ten |
| ConfigMeaning.IntegersAreDigitsAfterASign | PacketForge_V1/src/config/config_loader.cpp:81-102 | integers are exactly the digit texts after nothing, + or - |
| ConfigText.ShowIntReads | PacketForge_V1/src/config/config_loader.cpp:81-102 | reading a printed integer gives it back |
| ConfigLoader.ParseValue | PacketForge_V1/src/config/config_loader.cpp:57-106 | true, false, 64-bit decimal, otherwise string; an empty value is refused |
| ConfigMeaning.ValueOfIsParsed | PacketForge_V1/src/config/config_loader.cpp:57-106 | the same on the characters: outer white space is dropped, and -9223372036854775808 to 9223372036854775807 are integers |
| ConfigLoader.ReadLine | PacketForge_V1/src/config/config_loader.cpp:138-201 | what one line contributes: nothing, an entry, or an error |
| ConfigMeaning.BlankLinesAreIgnored | PacketForge_V1/src/config/config_loader.cpp:138-147 | a line of white space changes nothing but the line number |
| ConfigMeaning.CommentsAreIgnored | PacketForge_V1/src/config/config_loader.cpp:149-152 | nor does one whose first other character is # |
| ConfigMeaning.LinesNeedASeparator | PacketForge_V1/src/config/config_loader.cpp:154-163 | any other line without = ends the load as malformed, with its number |
| ConfigMeaning.AssignmentsAssign | PacketForge_V1/src/config/config_loader.cpp:165-201 | key = value around the first =, with white space anywhere around: no key and no value are errors, in that order, otherwise the entry is set |
| ConfigMeaning.EveryLineHasAShape | PacketForge_V1/src/config/config_loader.cpp:138-201 | every line is of one of these kinds |
| ConfigMeaning.LastLineCounts | PacketForge_V1/src/config/config_loader.cpp:134 | a last line need not end with a newline |
| ConfigMeaning.CrLfLoadsTheSame | PacketForge_V1/src/config/config_loader.cpp:18-50 | a file with CR LF line ends loads like the one with LF |
| ConfigLoader.Load | PacketForge_V1/src/config/config_loader.cpp:115-205 | the loop over lines yields what the text means; a file that cannot be opened is an error |
| ConfigLoader.LoadFailsOnFirstBadLine | PacketForge_V1/src/config/config_loader.cpp:131-204 | loading succeeds exactly when no line is bad, and the first bad line alone decides the error and its 1-based number |
| ConfigLoader.LoadedMapIsLastAssignments | PacketForge_V1/src/config/config_loader.cpp:131-204 | the map has exactly the keys some line assigns, each with the value of the last line that assigns it |
| ConfigRoundTrip.ConfigSurvivesPrinting | PacketForge_V1/src/config/config_loader.cpp:138-201 | printing the entries of any loaded text in any order and loading again gives the same map |
| ConfigRoundTrip.EntriesAreGood | PacketForge_V1/src/config/config_loader.cpp:165-201 | a loaded key is trimmed, not empty, has no = and does not start with #; a loaded value reads back as itself |

## Left out

- Version_2/src/Server.cpp: the same pool and server text as Version1, modelled once.
- Real system calls and errno: replaced by any result their contracts allow; addresses, ports and backlog are not interpreted, so inet_pton is one more call that may fail.
- Console output, Logger, message texts and the pause before disconnecting: no state depends on them.
- Exceptions thrown by tasks, bad_alloc and the C++ memory model: mutex-protected regions are atomic steps, and only the exceptions the code throws itself are modelled (DeserializationError and UnknownError, which need others, do not occur).
- The pool inside Version1's `main` is never destroyed, because its accept loop does not end, so RequestServer has no shutdown; the destructor is covered by the pool's own theorems. What a handler reads and answers, apart from the request number, is not modelled. An accept() that fails is: `main` does not look, so the -1 is queued like a descriptor.
- PoolShutdown.WorkGetsDone: does not bound the spurious wakeups themselves before `stop`, because a platform may wake a worker again and again; each costs at most two steps, and after `stop` they are bounded too.
- Closing a descriptor is not an event of the log; the kernel's table shows it. A signal counts from the next look at the flag on.
- Kernels.Kernel.Recv: a recv that blocks forever is a call that does not return; the stream a peer will send is fixed when the connection is made.
- Network.Transport.Receive: the vector the source fills in place is a sequence that is updated and returned; writing through a pointer into it is not modelled.
- Members held by value in the source are objects of their own; the moves require them to be distinct, as they are in the source.
- Config, ConfigValue, Buffer, Error and Handler as classes of their own: a map, a three-case datatype and an error datatype instead.
- The 64-bit hostToNetwork: no packet field uses it; only its swap is modelled.
- The client applications, fault-injection clients, unit tests and build files.
