/**
 A client program and the server program together: connect, one request, one run of the
 server, one reply. The two kernels share nothing but what the network carries between them.
 */
module Transactions {
  import opened Common
  import opened Events
  import opened Packets
  import opened Codec
  import opened Framing
  import opened Dispatcher
  import opened Kernels
  import opened Ownership
  import opened Network
  import opened Clients
  import opened ServerMain

  /** An encoding that was cut short is not a frame. */
  lemma PartOfAFrame(p: PacketValue, part: seq<bv8>)
    requires ValidPacket(p) && part < Wire(p)
    ensures !HasFrame(part)
  {
    WireFields(p, []);
    assert Wire(p) + [] == Wire(p);
    if |part| >= HEADER_SIZE {
      assert part[12..16] == Wire(p)[12..16];
    }
  }

  /** Whatever starts an encoding is a frame exactly when it is all of it. */
  lemma FrameIsWhole(p: PacketValue, part: seq<bv8>)
    requires ValidPacket(p) && part <= Wire(p) && HasFrame(part)
    ensures part == Wire(p) && FirstFrame(part) == part && Parse(part) == Ok(p)
  {
    if part < Wire(p) {
      PartOfAFrame(p, part);
    }
    WireIsAFrame(p, []);
    assert Wire(p) + [] == Wire(p);
  }

  lemma RepliesAreValid(frame: seq<bv8>)
    ensures ValidPacket(ReplyTo(frame))
  {
  }

  /** The server's answer to a valid request. */
  function AnswerTo(request: PacketValue): PacketValue {
    Dispatched(request, request.sequenceId)
  }

  /** A server that answered at all was asked something, and sent the start of the answer to it. */
  lemma AnswersTheRequest(run: Run, asked: seq<bv8>, arrived: seq<bv8>, rest: seq<bv8>, answered: seq<bv8>,
                          request: PacketValue, back: seq<bv8>)
    requires Served(run, arrived, rest, answered)
    requires arrived <= asked && (asked == [] || (ValidPacket(request) && asked <= Wire(request)))
    requires back <= answered && HasFrame(back)
    ensures ValidPacket(request) && Parse(FirstFrame(back)) == Ok(AnswerTo(request))
  {
    assert run.talk.Some? && run.talk.value.send.Some? && HasFrame(arrived);
    FrameIsWhole(request, arrived);
    var reply := ReplyTo(FirstFrame(arrived));
    RepliesAreValid(FirstFrame(arrived));
    assert back <= Wire(reply);
    FrameIsWhole(reply, back);
  }

  /** The whole answer is a frame that means what the server answered. */
  lemma AnswerArrives(request: PacketValue, back: seq<bv8>)
    requires ValidPacket(request) && HasFrame(Wire(request)) && back == Wire(ReplyTo(FirstFrame(Wire(request))))
    ensures HasFrame(back) && Parse(FirstFrame(back)) == Ok(AnswerTo(request))
  {
    WholeRequest(request);
    var reply := ReplyTo(FirstFrame(Wire(request)));
    RepliesAreReadable(FirstFrame(Wire(request)), []);
    assert Wire(reply) + [] == Wire(reply);
  }

  /** The network delivers bytes in order and may lose the end of what was sent. */
  ghost predicate Carried(nearOs: Kernel, near: int, farOs: Kernel, far: int)
    reads nearOs, farOs
  {
    if far == -1 then nearOs.Arrived(near) == []
    else farOs.Arrived(far) <= nearOs.Out(near) && nearOs.Arrived(near) <= farOs.Out(far)
  }

  /** The network loses nothing. */
  ghost predicate CarriedWhole(nearOs: Kernel, near: int, farOs: Kernel, far: int)
    reads nearOs, farOs
  {
    far != -1 && farOs.Arrived(far) == nearOs.Out(near) && nearOs.Arrived(near) == farOs.Out(far)
  }

  /** What the client has put on its connection: the request, or the start of it. */
  predicate Asked(sent: ErrorCode, request: PacketValue, asked: seq<bv8>) {
    if sent == Success then ValidPacket(request) && asked == Wire(request)
    else asked == [] || (ValidPacket(request) && asked < Wire(request))
  }

  lemma PutOnFirst(after: seq<bv8>, frame: seq<bv8>, error: ErrorCode)
    requires PutOn([], after, frame, error)
    ensures if error == Success then after == frame else after < frame
  {
  }

  /** What a client did to get its connection. */
  function Reached(fd: int): seq<Event> {
    [SocketCall(fd), SetupCall(InetPton, true), ConnectCall(fd, true)]
  }

  const UNUSED := ConnectionState(-1, false)

  /** A connect that succeeds gives a new client a live connection. */
  method Reach(os: Kernel, client: Client) returns (error: ErrorCode, ghost calls: ConnectCalls)
    requires client.State() == UNUSED
    modifies os, client.transport.connection, client.transport.connection.socket
    ensures error == Connect(UNUSED, calls).error && os.log == old(os.log) + ConnectLog(UNUSED, calls)
    ensures error == Success ==> os.log == old(os.log) + Reached(calls.got)
    ensures if error == Success then client.transport.Live(os) && client.State().fd == calls.got
            else !client.State().connected
    ensures error == Success ==> os.Out(calls.got) == [] && os.In(calls.got) == os.Arrived(calls.got)
  {
    error, calls := client.Connect(os);
    OneEffect(old(os.open), Opened(client.State().fd));
  }

  /** The client's half up to the request; `sent` is ConnectionFailed when there is no connection to send on. */
  method Ask(os: Kernel, client: Client, request: Packet)
      returns (connected: ErrorCode, sent: ErrorCode, ghost calls: ConnectCalls)
    requires client.Bound() && client.State() == UNUSED
    modifies os, client.transport.connection, client.transport.connection.socket
    ensures connected == Connect(UNUSED, calls).error && old(os.log) + ConnectLog(UNUSED, calls) <= os.log
    ensures connected == Success ==> old(os.log) + Reached(calls.got) <= os.log
    ensures if connected == Success then client.transport.Live(os) && client.State().fd == calls.got
            else !client.State().connected
    ensures connected == Success ==>
              os.In(calls.got) == os.Arrived(calls.got) && Asked(sent, request.Value(), os.Out(calls.got))
    ensures connected == Success && os.reliable && ValidPacket(request.Value()) ==> sent == Success
  {
    hide Wire, PutOn, ConnectLog, Connect;
    connected, calls := Reach(os, client);
    sent := ConnectionFailed;
    if connected == Success {
      sent := client.Send(os, request);
      if ValidPacket(request.Value()) {
        PutOnFirst(os.Out(calls.got), Wire(request.Value()), sent);
      }
    }
  }

  /**
   Whatever either kernel does, a reply that the client receives is the server's answer to
   the very request it sent, and the request was valid. When the kernels do not fail, the
   network loses nothing and no shutdown is requested, a valid request gets that answer and
   the server exits with 0. The logs of both sides say which connection is meant.
   */
  method Transact(clientOs: Kernel, client: Client, request: Packet, response: Packet,
                  serverOs: Kernel, flag: ShutdownFlag)
      returns (connected: ErrorCode, received: ErrorCode, exitCode: int,
               ghost calls: ConnectCalls, ghost run: Run, ghost marks: Marks)
    requires clientOs != serverOs && client.Bound() && client.State() == UNUSED
    modifies clientOs, serverOs, flag, client.transport.connection, client.transport.connection.socket, response
    ensures connected == Connect(UNUSED, calls).error
    ensures old(clientOs.log) + ConnectLog(UNUSED, calls) <= clientOs.log
    ensures connected == Success ==>
              old(clientOs.log) + [SocketCall(calls.got), SetupCall(InetPton, true), ConnectCall(calls.got, true)]
              <= clientOs.log
    ensures InOrder(run) && RunDid(run, old(serverOs.log), marks, serverOs.log) && exitCode == ExitCode(run)
    ensures received == Success && Carried(clientOs, calls.got, serverOs, marks.client) ==>
              ValidPacket(old(request.Value())) && response.Value() == AnswerTo(old(request.Value()))
    ensures && connected == Success && ValidPacket(old(request.Value())) && !flag.raised
            && clientOs.reliable && serverOs.reliable && serverOs.ready
            && CarriedWhole(clientOs, calls.got, serverOs, marks.client) ==>
              received == Success && exitCode == 0 && response.Value() == AnswerTo(old(request.Value()))
  {
    hide Wire, HasFrame, FirstFrame, AfterFrame, Parse, ReplyTo, AnswerTo, Served, RunDid, InOrder, ExitCode, Recvs;
    hide ConnectLog, Connect;
    var sent;
    connected, sent, calls := Ask(clientOs, client, request);
    ghost var near := calls.got;
    ghost var value, asked, back := request.Value(), clientOs.Out(near), clientOs.In(near);

    var ran, server;
    exitCode, ran, server, marks := RunServer(serverOs, flag);
    run := ran;
    ghost var far := marks.client;

    received := client.Receive(clientOs, response);
    if connected == received == Success && far != -1 && Carried(clientOs, near, serverOs, far) {
      AnswersTheRequest(run, asked, serverOs.Arrived(far), serverOs.In(far), serverOs.Out(far), value, back);
    }
    NothingIsNoFrame();
    if connected == sent == Success && CarriedWhole(clientOs, near, serverOs, far) {
      WholeRequest(value);
      if back == Wire(ReplyTo(FirstFrame(asked))) {
        AnswerArrives(value, back);
      }
    }
  }

  lemma NothingIsNoFrame()
    ensures !HasFrame([])
  {
  }

  lemma WholeRequest(request: PacketValue)
    requires ValidPacket(request)
    ensures HasFrame(Wire(request)) && Parse(FirstFrame(Wire(request))) == Ok(request)
  {
    WireIsAFrame(request, []);
    assert Wire(request) + [] == Wire(request);
  }
}
