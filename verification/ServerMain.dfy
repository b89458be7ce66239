/**
 PacketForge_V1/apps/server_main.cpp: one run of the server program, from start to the
 value main returns. The shutdown flag may rise at any moment and is looked at in six places.
 */
module ServerMain {
  import opened Common
  import opened Endian
  import opened Events
  import opened Packets
  import opened Codec
  import opened Framing
  import opened Dispatcher
  import opened Kernels
  import opened Ownership
  import opened Network
  import opened PacketIOs
  import opened Servers

  /** `shutdownRequested`: only a signal raises it, and nothing lowers it. */
  class ShutdownFlag {
    var raised: bool

    constructor ()
      ensures !raised
    {
      raised := false;
    }

    /** Any number of signals may have arrived since the last look. */
    method IsRequested(os: Kernel) returns (seen: bool)
      modifies this, os`log
      ensures seen == raised && (old(raised) ==> raised)
      ensures os.log == old(os.log) + [Look(seen)]
    {
      var signalled: bool := *;
      raised := raised || signalled;
      seen := raised;
      os.log := os.log + [Look(seen)];
    }
  }

  /** What happened once there was a transport: error codes, and what each look at the flag saw. */
  datatype Talk = Talk(
    receive: ErrorCode, afterReceive: bool, afterDispatch: bool, send: Option<ErrorCode>, afterSend: bool)

  /** What happened in a run; a stage that was not reached is None, a look not taken saw nothing. */
  datatype Run = Run(
    start: ErrorCode, beforeAccept: bool, accept: Option<ErrorCode>, afterAccept: bool, talk: Option<Talk>)

  predicate SawShutdown(run: Run) {
    || run.beforeAccept
    || run.afterAccept
    || (run.talk.Some? && (run.talk.value.afterReceive || run.talk.value.afterDispatch || run.talk.value.afterSend))
  }

  predicate TalkFailed(talk: Talk) {
    talk.receive !in {Success, ConnectionClosed} || (talk.send.Some? && talk.send.value != Success)
  }

  /** Some stage failed; the peer closing the connection is not a failure, a frame the decoder refuses is. */
  predicate Failed(run: Run) {
    || run.start != Success
    || (run.accept.Some? && run.accept.value != Success)
    || (run.talk.Some? && TalkFailed(run.talk.value))
  }

  function ExitCode(run: Run): int {
    if Failed(run) && !SawShutdown(run) then 1 else 0
  }

  /** A stage is reached exactly when the one before succeeded and no look in between saw the flag. */
  predicate TalkInOrder(talk: Talk) {
    && talk.receive in {Success, ProtocolError, SocketError, ConnectionClosed}
    && (talk.send.Some? <==>
          talk.receive in {Success, ProtocolError} && !talk.afterReceive && !talk.afterDispatch)
    && (talk.send.Some? ==> talk.send.value in {Success, SocketError})
    && (talk.afterDispatch ==> talk.receive == Success && !talk.afterReceive)
    && (talk.afterSend ==> talk.send == Some(Success))
  }

  predicate InOrder(run: Run) {
    && (run.beforeAccept ==> run.start == Success)
    && (run.accept.Some? <==> run.start == Success && !run.beforeAccept)
    && (run.afterAccept ==> run.accept.Some?)
    && (run.talk.Some? <==> run.accept == Some(Success) && !run.afterAccept)
    && (run.talk.Some? ==> TalkInOrder(run.talk.value))
  }

  /**
   The exit code read the other way round. It is 0 exactly when a look at the flag saw the
   shutdown, or the peer closed before a whole request came, or a request was answered. In
   particular a protocol error that was reported to the peer still exits with 1.
   */
  lemma ExitsZeroExactlyWhen(run: Run)
    requires InOrder(run)
    ensures ExitCode(run) == 0 <==>
            || SawShutdown(run)
            || (run.talk.Some? && run.talk.value.receive == ConnectionClosed)
            || (run.talk.Some? && run.talk.value.receive == Success && run.talk.value.send == Some(Success))
  {
  }

  /** Neither receiving nor sending failed. */
  predicate NoFailure(talk: Talk) {
    talk.receive in {Success, ProtocolError} && (talk.send.Some? ==> talk.send.value == Success)
  }

  // What a record says happened is what the log of the process shows. In each predicate the
  // logs are those at the start, in between, and at the end.

  /** A send that was made or not, then a look at the flag if it worked. */
  predicate Replied(talk: Talk, fd: int, before: seq<Event>, said: seq<Event>, after: seq<Event>) {
    match talk.send
    case None => said == before && after == before
    case Some(error) =>
      && Sends(before, said, fd, error)
      && after == said + if error == Success then [Look(talk.afterSend)] else []
  }

  /** The looks between the last receive and the first send. */
  function AfterHearing(talk: Talk, heard: seq<Event>): seq<Event> {
    var looked := heard + [Look(talk.afterReceive)];
    if talk.receive == Success && !talk.afterReceive then looked + [Look(talk.afterDispatch)] else looked
  }

  predicate TalkDid(talk: Talk, fd: int, before: seq<Event>, heard: seq<Event>, said: seq<Event>, after: seq<Event>) {
    Recvs(before, heard, fd, talk.receive) && Replied(talk, fd, AfterHearing(talk, heard), said, after)
  }

  /** What the calls of a run returned, and its log after the last receive and after the last send. */
  datatype Marks = Marks(calls: StartCalls, client: int, heard: seq<Event>, said: seq<Event>)

  const STOPPED := ServerState(-1, false, 0)

  function AfterStart(before: seq<Event>, marks: Marks): seq<Event> {
    before + StartLog(STOPPED, marks.calls)
  }

  /** The log after the two looks around accept. */
  function AfterAccept(run: Run, started: seq<Event>, marks: Marks): seq<Event> {
    started + [Look(run.beforeAccept)] + [AcceptCall(marks.calls.got, marks.client)] + [Look(run.afterAccept)]
  }

  predicate ScopeDid(run: Run, started: seq<Event>, marks: Marks, after: seq<Event>) {
    match run.accept
    case None => after == started + [Look(run.beforeAccept)] && marks.client == -1
    case Some(error) =>
      && error == (if marks.client == -1 then SocketError else Success)
      && match run.talk
         case None => after == AfterAccept(run, started, marks)
         case Some(talk) =>
           TalkDid(talk, marks.client, AfterAccept(run, started, marks), marks.heard, marks.said, after)
  }

  predicate RunDid(run: Run, before: seq<Event>, marks: Marks, after: seq<Event>) {
    && run.start == Start(STOPPED, marks.calls).error
    && if run.start != Success then after == AfterStart(before, marks) && marks.client == -1
       else ScopeDid(run, AfterStart(before, marks), marks, after)
  }

  /** What a receive reports is what the bytes that arrive amount to, and it takes one whole frame or reports none. */
  predicate Heard(talk: Talk, stream: seq<bv8>, rest: seq<bv8>) {
    match talk.receive
    case Success => HasFrame(stream) && Parse(FirstFrame(stream)).Ok? && rest == AfterFrame(stream)
    case ProtocolError => HasFrame(stream) && Parse(FirstFrame(stream)).Err? && rest == AfterFrame(stream)
    case ConnectionClosed => !HasFrame(stream)
    case _ => true
  }

  /** The bytes a run sent to its client: none, or the reply to the first frame, whole if the send succeeded. */
  predicate SentReply(talk: Talk, stream: seq<bv8>, sent: seq<bv8>) {
    match talk.send
    case None => sent == []
    case Some(error) =>
      HasFrame(stream) && SentWire(error, sent, Wire(ReplyTo(FirstFrame(stream))))
  }

  predicate SentWire(error: ErrorCode, sent: seq<bv8>, frame: seq<bv8>) {
    if error == Success then sent == frame else sent < frame
  }

  /** A flag that is up stays up and is seen by the first look taken; a look that saw it means it is up. */
  predicate FlagSeen(before: bool, after: bool, firstLook: bool, saw: bool) {
    (before ==> after && firstLook) && (saw ==> after)
  }

  predicate TalkSaw(talk: Talk) {
    talk.afterReceive || talk.afterDispatch || talk.afterSend
  }

  /** What the run read from the client it took and sent to it, against all the bytes the client sends. */
  predicate Served(run: Run, stream: seq<bv8>, rest: seq<bv8>, sent: seq<bv8>) {
    if run.talk.Some? then Heard(run.talk.value, stream, rest) && SentReply(run.talk.value, stream, sent)
    else rest == stream && sent == []
  }

  /** A run that takes a client, in which nothing fails and no look sees the flag, replies to its first frame. */
  lemma UndisturbedRun(run: Run, stream: seq<bv8>, rest: seq<bv8>, sent: seq<bv8>)
    requires InOrder(run) && !SawShutdown(run) && run.accept == Some(Success)
    requires Served(run, stream, rest, sent) && HasFrame(stream)
    requires run.talk.Some? ==> NoFailure(run.talk.value)
    ensures sent == Wire(ReplyTo(FirstFrame(stream)))
    ensures ExitCode(run) == if Parse(FirstFrame(stream)).Ok? then 0 else 1
  {
  }

  /** Sends one packet as the reply, then looks at the flag if that worked. */
  method SendReply(os: Kernel, flag: ShutdownFlag, io: PacketIO, response: Packet)
      returns (error: ErrorCode, seen: bool, ghost said: seq<Event>)
    requires io.transport.State().connected && ValidPacket(response.Value()) && os.Out(io.Fd()) == []
    modifies os`outbound, os`log, flag
    ensures error in {Success, SocketError} && (seen ==> error == Success)
    ensures Sends(old(os.log), said, io.Fd(), error)
    ensures os.log == said + if error == Success then [Look(seen)] else []
    ensures FlagSeen(old(flag.raised), flag.raised, seen || error != Success, seen)
    ensures SentWire(error, os.Out(io.Fd()), old(Wire(response.Value())))
    ensures os.reliable && old(io.transport.Live(os)) ==> error == Success
    ensures forall f | f != io.Fd() :: os.Out(f) == old(os.Out(f))
  {
    hide Sends, Wire;
    error := io.Send(os, response);
    said := os.log;
    assert [] + Wire(response.Value()) == Wire(response.Value());
    seen := false;
    if error == Success {
      seen := flag.IsRequested(os);
    }
  }

  /** The reply to a frame the decoder refused. */
  method MakeProtocolErrorResponse(error: ProtocolErrorCode) returns (response: Packet)
    ensures fresh(response) && response.Value() == ErrorReply(error, 0)
  {
    response := new Packet();
    response.SetOpcode(ERROR_RESPONSE);
    response.SetSequenceId(0);
    response.SetPayload([error.Code()]);
  }

  /** Answers a frame the decoder refused. */
  method Refuse(os: Kernel, flag: ShutdownFlag, io: PacketIO, error: ProtocolErrorCode)
      returns (exitCode: int, talk: Talk, ghost said: seq<Event>)
    requires io.transport.State().connected && os.Out(io.Fd()) == []
    modifies os`outbound, os`log, flag
    ensures talk.receive == ProtocolError && TalkInOrder(talk) && !talk.afterReceive && talk.send.Some?
    ensures exitCode == if TalkFailed(talk) && !TalkSaw(talk) then 1 else 0
    ensures Replied(talk, io.Fd(), old(os.log), said, os.log)
    ensures old(flag.raised) ==> flag.raised
    ensures TalkSaw(talk) ==> flag.raised
    ensures SentWire(talk.send.value, os.Out(io.Fd()), Wire(ErrorReply(error, 0)))
    ensures os.reliable && old(io.transport.Live(os)) ==> talk.send.value == Success
    ensures forall f | f != io.Fd() :: os.Out(f) == old(os.Out(f))
  {
    hide Wire, Sends, SentWire;
    var refusal := MakeProtocolErrorResponse(error);
    var sendError, sawAfterSend;
    sendError, sawAfterSend, said := SendReply(os, flag, io, refusal);
    talk := Talk(ProtocolError, false, false, Some(sendError), sawAfterSend);
    exitCode := if sendError == Success && sawAfterSend then 0 else 1;
  }

  /** Dispatches a received request and sends the answer. */
  method Respond(os: Kernel, flag: ShutdownFlag, io: PacketIO, request: Packet)
      returns (exitCode: int, talk: Talk, ghost said: seq<Event>)
    requires io.transport.State().connected && os.Out(io.Fd()) == []
    modifies os`outbound, os`log, flag
    ensures talk.receive == Success && TalkInOrder(talk) && !talk.afterReceive
    ensures exitCode == if TalkFailed(talk) && !TalkSaw(talk) then 1 else 0
    ensures Replied(talk, io.Fd(), old(os.log) + [Look(talk.afterDispatch)], said, os.log)
    ensures FlagSeen(old(flag.raised), flag.raised, talk.afterDispatch, TalkSaw(talk))
    ensures var sent, reply := os.Out(io.Fd()), Wire(Dispatched(old(request.Value()), old(request.sequenceId)));
            match talk.send
            case None => sent == []
            case Some(error) => SentWire(error, sent, reply)
    ensures os.reliable && old(io.transport.Live(os)) && talk.send.Some? ==> talk.send.value == Success
    ensures forall f | f != io.Fd() :: os.Out(f) == old(os.Out(f))
  {
    hide Wire, Sends, Dispatched;
    DispatchedIsValid(request.Value(), request.sequenceId);
    talk := Talk(Success, false, false, None, false);
    var response := new Packet();
    var dispatchError := Dispatch(request, response);
    var seen := flag.IsRequested(os);
    said := os.log;
    if seen {
      return 0, talk.(afterDispatch := true), said;
    }
    if dispatchError != Success {
      return 1, talk, said;
    }
    var sendError, sawAfterSend;
    sendError, sawAfterSend, said := SendReply(os, flag, io, response);
    talk := talk.(send := Some(sendError), afterSend := sawAfterSend);
    exitCode := if sendError == Success then 0 else 1;
  }

  /** From the creation of the transport to the end of the scope: one request, one reply. */
  method Converse(os: Kernel, flag: ShutdownFlag, transport: Transport)
      returns (exitCode: int, talk: Talk, ghost heard: seq<Event>, ghost said: seq<Event>)
    requires transport.Live(os) && os.Out(transport.State().fd) == []
    modifies os`inbound, os`outbound, os`open, os`log, flag, transport.connection, transport.connection.socket
    ensures TalkInOrder(talk)
    ensures exitCode == if TalkFailed(talk) && !TalkSaw(talk) then 1 else 0
    ensures TalkDid(talk, old(transport.State().fd), old(os.log), heard, said, os.log)
    ensures FlagSeen(old(flag.raised), flag.raised, talk.afterReceive, TalkSaw(talk))
    ensures var fd, stream := old(transport.State().fd), old(os.In(transport.State().fd));
            && Heard(talk, stream, os.In(fd))
            && SentReply(talk, stream, os.Out(fd))
            && (os.reliable && HasFrame(stream) ==> NoFailure(talk))
            && (forall f | f != fd :: os.Out(f) == old(os.Out(f)))
            && (forall f | f != fd :: os.In(f) == old(os.In(f)))
    ensures if talk.receive == ConnectionClosed then
              transport.State() == ConnectionState(-1, false) && os.open == old(os.open) - {old(transport.State().fd)}
            else transport.State() == old(transport.State()) && os.open == old(os.open)
  {
    hide Wire, Parse, HasFrame, FirstFrame, AfterFrame, Dispatched, Recvs, Sends, SentWire;
    var packetIO := new PacketIO(transport);
    ghost var stream := os.In(packetIO.Fd());
    var request := new Packet();
    var receiveError, protocolError := packetIO.Receive(os, request);
    heard := os.log;
    talk := Talk(receiveError, false, false, None, false);

    var seen := flag.IsRequested(os);
    said := os.log;
    if seen {
      return 0, talk.(afterReceive := true), heard, said;
    }
    if receiveError != Success {
      if receiveError == ConnectionClosed {
        return 0, talk, heard, said;
      }
      if receiveError == ProtocolError {
        exitCode, talk, said := Refuse(os, flag, packetIO, protocolError);
        return;
      }
      return 1, talk, heard, said;
    }

    exitCode, talk, said := Respond(os, flag, packetIO, request);
  }

  /** A server that has not run before either starts and holds one descriptor, or holds none. */
  lemma FirstStart(open: set<int>, calls: StartCalls)
    requires var step := Start(ServerState(-1, false, 0), calls); Legal(open, step.effects)
    ensures var step := Start(ServerState(-1, false, 0), calls);
            if step.error == Success then
              step.value.running && step.value.fd >= 0 && step.value.fd !in open
              && Replay(open, step.effects) == open + {step.value.fd}
            else step.value == ServerState(-1, false, 0) && Replay(open, step.effects) == open
  {
    var made := SocketCreate(-1, calls.got);
    var step := Start(ServerState(-1, false, 0), calls);
    NoEffect(open);
    OneEffect(open, Opened(calls.got));
    if made.error == Success && step.effects != made.effects {
      TwoEffects(open, Opened(calls.got), Closed(calls.got));
      OneEffect(open + {calls.got}, Closed(calls.got));
      assert made.effects + CloseEffects(made.value) == [Opened(calls.got), Closed(calls.got)];
    }
  }

  /** A connection that has not been used either takes one descriptor, or none. */
  lemma FirstAccept(open: set<int>, listener: int, got: int)
    requires listener != -1
    requires var step := ConnectionAccept(ConnectionState(-1, false), listener, got); Legal(open, step.effects)
    ensures var step := ConnectionAccept(ConnectionState(-1, false), listener, got);
            if step.error == Success then
              step.value == ConnectionState(got, true) && got >= 0 && got !in open
              && Replay(open, step.effects) == open + {got}
            else step.value == ConnectionState(-1, false) && Replay(open, step.effects) == open
  {
    NoEffect(open);
    OneEffect(open, Opened(got));
    assert [Opened(got)] + CloseEffects(-1) == [Opened(got)];
  }

  /** server.accept on the scope's unused connection, then a look at the flag. */
  method AcceptAndLook(os: Kernel, flag: ShutdownFlag, server: Server, connection: Connection)
      returns (error: ErrorCode, seen: bool, ghost client: int)
    requires server.running && server.socket.fd != -1 && connection.State() == ConnectionState(-1, false)
    modifies os, flag, connection, connection.socket
    ensures os.log == old(os.log) + [AcceptCall(server.socket.fd, client)] + [Look(seen)]
    ensures FlagSeen(old(flag.raised), flag.raised, seen, seen)
    ensures error == if client == -1 then SocketError else Success
    ensures client != -1 ==>
              && client >= 0 && client !in old(os.open) && os.open == old(os.open) + {client}
              && connection.State() == ConnectionState(client, true)
              && os.Out(client) == [] && os.In(client) == os.Arrived(client)
    ensures client == -1 ==> os.open == old(os.open) && connection.State() == ConnectionState(-1, false)
    ensures forall f | f in old(os.open) :: os.Streams(f) == old(os.Streams(f))
    ensures os.ready ==> error == Success
  {
    error, client := server.Accept(os, connection);
    FirstAccept(old(os.open), server.socket.fd, client);
    assert forall f | f in old(os.open) :: f != client;
    seen := flag.IsRequested(os);
  }

  /**
   The scope from a started server to the cleanup. `connection` is local to it, so every way
   out destroys it; the transport, once made, is left for the cleanup.
   */
  method TakeOneClient(os: Kernel, flag: ShutdownFlag, server: Server, ghost calls: StartCalls)
      returns (exitCode: int, run: Run, transport: Transport?, ghost marks: Marks)
    requires server.running && server.socket.fd != -1 && server.socket.fd == calls.got
    modifies os, flag
    ensures run.start == Success && InOrder(run) && exitCode == ExitCode(run)
    ensures marks.calls == calls && ScopeDid(run, old(os.log), marks, os.log)
    ensures FlagSeen(old(flag.raised), flag.raised, run.beforeAccept, SawShutdown(run))
    ensures transport == null ==> os.open == old(os.open)
    ensures transport != null ==> fresh(transport) && fresh(transport.connection) && fresh(transport.connection.socket)
    ensures transport != null ==> Remaining(old(os.open), os.open, transport.State().fd)
    ensures var client := marks.client;
            && (client == -1 || client !in old(os.open))
            && (client != -1 ==> Served(run, os.Arrived(client), os.In(client), os.Out(client)))
            && (os.reliable && HasFrame(os.Arrived(client)) && run.talk.Some? ==> NoFailure(run.talk.value))
    ensures os.ready && !run.beforeAccept ==> run.accept == Some(Success) && marks.client != -1
    ensures forall f | f in old(os.open) :: os.Streams(f) == old(os.Streams(f))
  {
    hide SentReply, TalkInOrder, NoFailure, HasFrame, Heard, TalkDid;
    run := Run(Success, false, None, false, None);
    transport, marks := null, Marks(calls, -1, [], []);
    var connection := new Connection();
    var seen := flag.IsRequested(os);
    if seen {
      return 0, run.(beforeAccept := true), null, marks;
    }
    ghost var client;
    var acceptError;
    acceptError, seen, client := AcceptAndLook(os, flag, server, connection);
    marks := marks.(client := client);
    run := run.(accept := Some(acceptError), afterAccept := seen);
    if seen {
      connection.Disconnect(os);
      return 0, run, null, marks;
    }
    if acceptError != Success {
      connection.Disconnect(os);
      return 1, run, null, marks;
    }
    var talk;
    ghost var heard, said;
    exitCode, talk, transport, heard, said := TalkOver(os, flag, connection);
    marks := marks.(heard := heard, said := said);
    run := run.(talk := Some(talk));
  }

  /** Gives the connection to a new transport, converses, and leaves the scope. */
  method TalkOver(os: Kernel, flag: ShutdownFlag, connection: Connection)
      returns (exitCode: int, talk: Talk, transport: Transport, ghost heard: seq<Event>, ghost said: seq<Event>)
    requires connection.connected && connection.socket.fd >= 0 && connection.socket.fd in os.open
    requires os.Out(connection.socket.fd) == []
    modifies os`inbound, os`outbound, os`open, os`log, flag, connection, connection.socket
    ensures fresh(transport) && fresh(transport.connection) && fresh(transport.connection.socket)
    ensures TalkInOrder(talk)
    ensures exitCode == if TalkFailed(talk) && !TalkSaw(talk) then 1 else 0
    ensures TalkDid(talk, old(connection.socket.fd), old(os.log), heard, said, os.log)
    ensures FlagSeen(old(flag.raised), flag.raised, talk.afterReceive, TalkSaw(talk))
    ensures var fd, stream := old(connection.socket.fd), old(os.In(connection.socket.fd));
            && Heard(talk, stream, os.In(fd))
            && SentReply(talk, stream, os.Out(fd))
            && (os.reliable && HasFrame(stream) ==> NoFailure(talk))
            && (forall f | f != fd :: os.Out(f) == old(os.Out(f)))
            && (forall f | f != fd :: os.In(f) == old(os.In(f)))
            && transport.State().fd in {-1, fd}
            && os.open == if transport.State().fd == -1 then old(os.open) - {fd} else old(os.open)
  {
    hide Heard, SentReply, TalkDid, HasFrame, NoFailure, TalkInOrder, TalkSaw;
    transport := new Transport.Own(connection);
    exitCode, talk, heard, said := Converse(os, flag, transport);
    connection.Disconnect(os);
  }

  /** Besides what was open before, at most this one descriptor is. */
  predicate Remaining(before: set<int>, now: set<int>, fd: int) {
    fd !in before && now == if fd == -1 then before else before + {fd}
  }

  /**
   The whole program. Whatever the kernel and the flag do, it ends with no transport, the
   server stopped and every descriptor it opened closed again; it sends at most one frame,
   which is the reply to the first frame of the one client it took; and the exit code is a
   function of what failed and of whether a look at the flag saw it, where the log shows what
   failed and what each look saw. On a kernel that does not fail, when no shutdown is
   requested and the client sends a whole frame, the reply is sent, and the exit code says
   whether the frame was well formed.
   */
  method RunServer(os: Kernel, flag: ShutdownFlag)
      returns (exitCode: int, run: Run, server: Server, ghost marks: Marks)
    modifies os, flag
    ensures InOrder(run) && exitCode == ExitCode(run)
    ensures RunDid(run, old(os.log), marks, os.log)
    ensures FlagSeen(old(flag.raised), flag.raised, run.beforeAccept || run.start != Success, SawShutdown(run))
    ensures os.open == old(os.open)
    ensures server.State() == STOPPED
    ensures var client := marks.client;
            && (client == -1 || client !in old(os.open))
            && (client != -1 ==> Served(run, os.Arrived(client), os.In(client), os.Out(client)))
            && (os.reliable && os.ready && !flag.raised && HasFrame(os.Arrived(client)) ==>
                  var frame := FirstFrame(os.Arrived(client));
                  os.Out(client) == Wire(ReplyTo(frame)) && exitCode == if Parse(frame).Ok? then 0 else 1)
    ensures forall f | f in old(os.open) :: os.Streams(f) == old(os.Streams(f))
  {
    hide Wire, HasFrame, FirstFrame, ReplyTo, Parse, ScopeDid, StartLog, Start, Served, NoFailure;
    marks := Marks(StartCalls(-1, BindCalls(false, false, false), false, false, 0), -1, [], []);
    exitCode := 0;
    server := new Server();
    var transport: Transport? := null;
    ghost var calls;
    var startError;
    startError, calls := StartFirst(os, server);
    if startError != Success {
      exitCode := 1;
      marks := marks.(calls := calls);
      run := Run(startError, false, None, false, None);
    } else {
      exitCode, run, transport, marks := TakeOneClient(os, flag, server, calls);
    }

    CleanUp(os, transport, server);
    transport := null;
    if os.reliable && os.ready && !flag.raised && HasFrame(os.Arrived(marks.client)) {
      ghost var client := marks.client;
      UndisturbedRun(run, os.Arrived(client), os.In(client), os.Out(client));
    }
  }

  /** The centralized cleanup, and the server's destructor after it. */
  method CleanUp(os: Kernel, transport: Transport?, server: Server)
    requires server.socket.Held(os)
    requires transport != null ==>
               && transport.connection.socket.Held(os) && transport.connection.socket != server.socket
               && (transport.State().fd == -1 || transport.State().fd != server.socket.fd)
    modifies os`open, server, server.socket
    modifies if transport == null then {} else {transport.connection}
    modifies if transport == null then {} else {transport.connection.socket}
    ensures server.State() == ServerState(-1, false, 0)
    ensures var fd := if transport == null then -1 else old(transport.connection.socket.fd);
            os.open == old(os.open) - {old(server.socket.fd), fd}
  {
    if transport != null {
      transport.connection.Disconnect(os);
    }
    if server.running {
      server.Stop(os);
    }
    server.Stop(os);
  }

  method StartFirst(os: Kernel, server: Server) returns (error: ErrorCode, ghost calls: StartCalls)
    requires server.State() == STOPPED
    modifies os, server, server.socket
    ensures error == Start(STOPPED, calls).error && os.log == old(os.log) + StartLog(STOPPED, calls)
    ensures if error == Success then
              && server.running && server.socket.fd == calls.got != -1
              && Remaining(old(os.open), os.open, server.socket.fd)
            else server.State() == STOPPED && os.open == old(os.open)
    ensures os.ready ==> error == Success
    ensures forall f | f in old(os.open) :: os.Streams(f) == old(os.Streams(f))
  {
    error, calls := server.Start(os);
    FirstStart(old(os.open), calls);
    assert forall f | f in old(os.open) :: f != calls.got;
  }
}
