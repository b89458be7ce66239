/** packetforge::server::Server: a listening socket with its running flag and port. */
module Servers {
  import opened Common
  import opened Events
  import opened Kernels
  import opened Ownership
  import opened Network

  const SOMAXCONN := 4096

  class Server {
    const socket: Socket
    var running: bool
    var port: nat

    function State(): ServerState
      reads this, socket
    {
      ServerState(socket.fd, running, port)
    }

    constructor ()
      ensures fresh(socket) && State() == ServerState(-1, false, 0)
    {
      socket := new Socket();
      running, port := false, 0;
    }

    constructor Move(other: Server)
      modifies other, other.socket
      ensures fresh(socket)
      ensures State() == old(other.State()) && other.State() == ServerState(-1, false, 0)
    {
      socket := new Socket.Move(other.socket);
      running, port := other.running, other.port;
      new;
      other.running, other.port := false, 0;
    }

    method MoveFrom(os: Kernel, other: Server)
      requires socket.Held(os) && (this == other || socket != other.socket)
      modifies os`open, this, socket, other, other.socket
      ensures this == other ==> State() == old(State()) && os.open == old(os.open)
      ensures this != other ==> State() == old(other.State()) && other.State() == ServerState(-1, false, 0)
      ensures this != other ==>
                var effects := CloseEffects(old(socket.fd));
                os.open == Replay(old(os.open), effects) && Legal(old(os.open), effects)
    {
      if this != other {
        Stop(os);
        NoEffect(os.open);
        socket.MoveFrom(os, other.socket);
        running := other.running;
        port := other.port;
        other.running, other.port := false, 0;
      }
    }

    /** Each stage that fails undoes the earlier ones. */
    method Start(os: Kernel) returns (error: ErrorCode, ghost calls: StartCalls)
      requires socket.Held(os)
      modifies os, this, socket
      ensures var step := Ownership.Start(old(State()), calls);
              && State() == step.value && error == step.error
              && os.open == Replay(old(os.open), step.effects) && Legal(old(os.open), step.effects)
      ensures forall f | f != calls.got :: os.Streams(f) == old(os.Streams(f))
      ensures calls.got != -1 ==> calls.got !in old(os.open)
      ensures os.log == old(os.log) + StartLog(old(State()), calls)
      ensures old(running) ==> error == SocketError && unchanged(os) && State() == old(State())
      ensures old(State()) == ServerState(-1, false, 0) ==>
                if error == Success then
                  && running && socket.fd == calls.got != -1
                  && os.log == old(os.log)
                               + [SocketCall(socket.fd), SetupCall(SetSockOpt, true), SetupCall(InetPton, true),
                                  SetupCall(Bind, true), SetupCall(Listen, true), NameCall(true, port)]
                else
                  && State() == ServerState(-1, false, 0)
                  && old(os.log) <= os.log && FailedStart(os.log[|old(os.log)|..], calls.got, error)
      ensures os.ready && !old(running) ==> error == Success
    {
      NoEffect(os.open);
      hide Replay, Legal, CreateLog, StagesLog, FailedStart;
      calls := StartCalls(-1, BindCalls(false, false, false), false, false, 0);
      if running {
        return SocketError, calls;
      }
      ghost var got;
      error, got := socket.Create(os);
      calls := calls.(got := got);
      LogsChain(old(os.log), CreateLog(old(socket.fd), got), []);
      if error != Success {
        port := 0;
        return;
      }
      ghost var made := SocketCreate(old(socket.fd), got);
      Undoing(old(os.open), made.effects, socket.fd);
      error, calls := Establish(os, got);
      LogsChain(old(os.log), CreateLog(old(socket.fd), got), StagesLog(calls));
    }

    /** The stages of a start on its new socket; each that fails closes the socket again. */
    method Establish(os: Kernel, ghost got: int) returns (error: ErrorCode, ghost calls: StartCalls)
      requires !running && socket.fd != -1 && socket.fd in os.open
      modifies os, this, socket
      ensures calls.got == got && error == calls.Error() && os.log == old(os.log) + StagesLog(calls)
      ensures error == Success ==>
                os.log == old(os.log) + [SetupCall(SetSockOpt, true), SetupCall(InetPton, true),
                                         SetupCall(Bind, true), SetupCall(Listen, true), NameCall(true, port)]
      ensures error != Success ==> FailedStart([SocketCall(old(socket.fd))] + StagesLog(calls), old(socket.fd), error)
      ensures State() == if error == Success then ServerState(old(socket.fd), true, calls.port)
                         else ServerState(-1, false, 0)
      ensures os.open == if error == Success then old(os.open) else old(os.open) - {old(socket.fd)}
      ensures forall f :: os.Streams(f) == old(os.Streams(f))
      ensures os.ready ==> error == Success
    {
      ghost var ignored, binding;
      error, ignored, binding := socket.Bind(os);
      calls := StartCalls(got, binding, false, false, 0);
      if error != Success {
        socket.Close(os);
        port := 0;
        return;
      }
      error := socket.Listen(os, SOMAXCONN);
      if error != Success {
        socket.Close(os);
        port := 0;
        return;
      }
      var named, boundPort := os.BoundPort();
      calls := StartCalls(got, binding, true, named, boundPort);
      if !named {
        socket.Close(os);
        port := 0;
        return SocketError, calls;
      }
      port := boundPort;
      running := true;
    }

    method Stop(os: Kernel)
      requires socket.Held(os)
      modifies os`open, this, socket
      ensures var step := Ownership.Stop(old(State()));
              && State() == step.value == ServerState(-1, false, 0)
              && os.open == Replay(old(os.open), step.effects) && Legal(old(os.open), step.effects)
      ensures os.open == if old(socket.fd) == -1 then old(os.open) else old(os.open) - {old(socket.fd)}
    {
      NoEffect(os.open);
      if socket.fd != -1 {
        socket.Close(os);
      }
      running, port := false, 0;
    }

    method Accept(os: Kernel, connection: Connection) returns (error: ErrorCode, ghost got: int)
      requires connection.socket.Held(os)
      modifies os, connection, connection.socket
      ensures !old(running) ==>
                error == ConnectionFailed && unchanged(os) && unchanged(connection) && unchanged(connection.socket)
      ensures old(running) ==>
                var step := ConnectionAccept(old(connection.State()), old(socket.fd), got);
                && connection.State() == step.value && error == step.error
                && os.open == Replay(old(os.open), step.effects) && Legal(old(os.open), step.effects)
      ensures forall f | f != got :: os.Streams(f) == old(os.Streams(f))
      ensures got != -1 ==> got !in old(os.open) && os.Out(got) == [] && os.In(got) == os.Arrived(got)
      ensures old(running) ==> os.log == old(os.log) + ConnectionAcceptLog(old(connection.State()), old(socket.fd), got)
      ensures os.ready && old(running) && old(socket.fd) != -1 && !old(connection.connected) ==> error == Success
    {
      if !running {
        return ConnectionFailed, -1;
      }
      error, got := connection.Accept(os, socket);
    }
  }

  /** A close right after some calls, when what it closes is open by then. */
  lemma Undoing(open: set<int>, effects: seq<Effect>, fd: int)
    requires Legal(open, effects) && |effects| <= 1 && fd != -1 && fd in Replay(open, effects)
    ensures Replay(open, effects + CloseEffects(fd)) == Replay(open, effects) - {fd}
    ensures Legal(open, effects + CloseEffects(fd))
  {
    if effects == [] {
      assert effects + CloseEffects(fd) == [Closed(fd)];
      OneEffect(open, Closed(fd));
    } else {
      assert effects + CloseEffects(fd) == [effects[0], Closed(fd)];
      assert effects == [effects[0]];
      TwoEffects(open, effects[0], Closed(fd));
      OneEffect(Replay(open, effects), Closed(fd));
    }
  }
}
