/**
 packetforge::network: Socket, Connection and Transport. A member held by value in the
 source is a `const` reference to an object of its own here.
 */
module Network {
  import opened Common
  import opened Events
  import opened Kernels
  import opened Ownership

  class Socket {
    var fd: int

    /** What this socket holds is open in the kernel. */
    predicate Held(os: Kernel)
      reads this, os
    {
      fd == -1 || fd in os.open
    }

    constructor ()
      ensures fd == -1
    {
      fd := -1;
    }

    /** Move construction. */
    constructor Move(other: Socket)
      modifies other
      ensures fd == old(other.fd) && other.fd == -1
    {
      fd := other.fd;
      new;
      other.fd := -1;
    }

    /** Move assignment. */
    method MoveFrom(os: Kernel, other: Socket)
      requires Held(os)
      modifies os`open, this, other
      ensures this == other ==> fd == old(fd) && os.open == old(os.open)
      ensures this != other ==> fd == old(other.fd) && other.fd == -1
      ensures this != other ==>
                var effects := CloseEffects(old(fd));
                os.open == Replay(old(os.open), effects) && Legal(old(os.open), effects)
    {
      if this != other {
        Close(os);
        fd := other.fd;
        other.fd := -1;
      }
    }

    method Create(os: Kernel) returns (error: ErrorCode, ghost got: int)
      modifies os, this
      ensures var step := SocketCreate(old(fd), got);
              && fd == step.value && error == step.error
              && os.open == Replay(old(os.open), step.effects) && Legal(old(os.open), step.effects)
      ensures os.log == old(os.log) + CreateLog(old(fd), got)
      ensures old(fd) != -1 ==> error == Success && fd == old(fd) && unchanged(os) && got == -1
      ensures old(fd) == -1 ==>
                && os.log == old(os.log) + [SocketCall(fd)]
                && error == (if fd == -1 then SocketError else Success)
      ensures forall f | f != got || got == -1 :: os.Streams(f) == old(os.Streams(f))
      ensures got != -1 ==> got !in old(os.open) && os.Out(got) == [] && os.In(got) == os.Arrived(got)
      ensures os.ready ==> error == Success
    {
      got := -1;
      NoEffect(os.open);
      if fd != -1 {
        return Success, -1;
      }
      fd := os.Socket();
      got := fd;
      OneEffect(old(os.open), Opened(got));
      error := if fd == -1 then SocketError else Success;
    }

    /** Creates the socket when there is none; then setsockopt, inet_pton and ::bind may each fail. */
    method Bind(os: Kernel) returns (error: ErrorCode, ghost got: int, ghost calls: BindCalls)
      modifies os, this
      ensures var step := SocketCreate(old(fd), got);
              && fd == step.value && error == (if step.error != Success then step.error else calls.Error())
              && os.open == Replay(old(os.open), step.effects) && Legal(old(os.open), step.effects)
              && os.log == old(os.log) + CreateLog(old(fd), got) + (if step.error != Success then [] else calls.Log())
      ensures old(fd) != -1 ==> os.open == old(os.open) && got == -1 && DidBind(old(os.log), os.log, error)
      ensures old(fd) == -1 && fd != -1 ==> DidBind(old(os.log) + [SocketCall(fd)], os.log, error)
      ensures old(fd) == -1 && fd == -1 ==> error == SocketError && os.log == old(os.log) + [SocketCall(-1)]
      ensures forall f | f != got || got == -1 :: os.Streams(f) == old(os.Streams(f))
      ensures got != -1 ==> got !in old(os.open) && os.Out(got) == [] && os.In(got) == os.Arrived(got)
      ensures os.ready ==> error == Success
    {
      NoEffect(os.open);
      got, calls := -1, BindCalls(false, false, false);
      if fd == -1 {
        error, got := Create(os);
        if error != Success {
          return;
        }
      }
      error, calls := Name(os);
    }

    /** The part of `bind` after the socket is there. */
    method Name(os: Kernel) returns (error: ErrorCode, ghost calls: BindCalls)
      modifies os`log
      ensures error == calls.Error() && os.log == old(os.log) + calls.Log()
      ensures DidBind(old(os.log), os.log, error)
      ensures os.ready ==> error == Success
    {
      var ok := os.Succeeds(SetSockOpt);
      calls := BindCalls(ok, false, false);
      if !ok {
        return SocketError, calls;
      }
      ok := os.Succeeds(InetPton);
      calls := BindCalls(true, ok, false);
      if !ok {
        return InvalidArgument, calls;
      }
      ok := os.Succeeds(Setup.Bind);
      calls := BindCalls(true, true, ok);
      error := if ok then Success else SocketError;
    }

    method Listen(os: Kernel, backlog: int) returns (error: ErrorCode)
      modifies os`log
      ensures fd == -1 ==> error == SocketError && unchanged(os)
      ensures fd != -1 && backlog <= 0 ==> error == InvalidArgument && unchanged(os)
      ensures fd != -1 && backlog > 0 ==>
                error in {Success, SocketError} && os.log == old(os.log) + [SetupCall(Setup.Listen, error == Success)]
      ensures os.ready && fd != -1 && backlog > 0 ==> error == Success
    {
      if fd == -1 {
        return SocketError;
      }
      if backlog <= 0 {
        return InvalidArgument;
      }
      var ok := os.Succeeds(Setup.Listen);
      error := if ok then Success else SocketError;
    }

    method Accept(os: Kernel, client: Socket) returns (error: ErrorCode, ghost got: int)
      requires client.Held(os)
      modifies os, client
      ensures var step := SocketAccept(old(fd), old(client.fd), got);
              && client.fd == step.value && error == step.error
              && os.open == Replay(old(os.open), step.effects) && Legal(old(os.open), step.effects)
      ensures os.log == old(os.log) + AcceptLog(old(fd), got)
      ensures old(fd) == -1 ==> error == SocketError && unchanged(os) && client.fd == old(client.fd)
      ensures old(fd) != -1 ==>
                if error == Success then client.fd >= 0 && os.log == old(os.log) + [AcceptCall(old(fd), client.fd)]
                else
                  && error == SocketError && client.fd == old(client.fd)
                  && os.log == old(os.log) + [AcceptCall(old(fd), -1)]
      ensures os.ready && old(fd) != -1 ==> error == Success
      ensures forall f | f != got :: os.Streams(f) == old(os.Streams(f))
      ensures got != -1 ==> got !in old(os.open) && os.Out(got) == [] && os.In(got) == os.Arrived(got)
    {
      got := -1;
      NoEffect(os.open);
      if fd == -1 {
        return SocketError, -1;
      }
      var accepted := os.Accept(fd);
      got := accepted;
      if accepted < 0 {
        return SocketError, -1;
      }
      OneEffect(old(os.open), Opened(got));
      if client.fd == -1 {
        assert [Opened(got)] + CloseEffects(client.fd) == [Opened(got)];
      } else {
        assert [Opened(got)] + CloseEffects(client.fd) == [Opened(got), Closed(client.fd)];
        TwoEffects(old(os.open), Opened(got), Closed(client.fd));
        OneEffect(os.open, Closed(client.fd));
      }
      client.Close(os);
      client.fd := accepted;
      error := Success;
    }

    method Close(os: Kernel)
      requires Held(os)
      modifies os`open, this
      ensures fd == -1
      ensures os.open == Replay(old(os.open), CloseEffects(old(fd))) && Legal(old(os.open), CloseEffects(old(fd)))
      ensures os.open == if old(fd) == -1 then old(os.open) else old(os.open) - {old(fd)}
    {
      NoEffect(os.open);
      if fd != -1 {
        OneEffect(os.open, Closed(fd));
        os.Close(fd);
        fd := -1;
      }
    }
  }

  class Connection {
    const socket: Socket
    var connected: bool

    function State(): ConnectionState
      reads this, socket
    {
      ConnectionState(socket.fd, connected)
    }

    constructor ()
      ensures fresh(socket) && State() == ConnectionState(-1, false)
    {
      socket := new Socket();
      connected := false;
    }

    constructor Move(other: Connection)
      modifies other, other.socket
      ensures fresh(socket)
      ensures State() == old(other.State()) && other.State() == ConnectionState(-1, false)
    {
      socket := new Socket.Move(other.socket);
      connected := other.connected;
      new;
      other.connected := false;
    }

    method MoveFrom(os: Kernel, other: Connection)
      requires socket.Held(os) && (this == other || socket != other.socket)
      modifies os`open, this, socket, other, other.socket
      ensures this == other ==> State() == old(State()) && os.open == old(os.open)
      ensures this != other ==> State() == old(other.State()) && other.State() == ConnectionState(-1, false)
      ensures this != other ==>
                var effects := CloseEffects(old(socket.fd));
                os.open == Replay(old(os.open), effects) && Legal(old(os.open), effects)
    {
      if this != other {
        Disconnect(os);
        NoEffect(os.open);
        socket.MoveFrom(os, other.socket);
        connected := other.connected;
        other.connected := false;
      }
    }

    method Connect(os: Kernel) returns (error: ErrorCode, ghost calls: ConnectCalls)
      modifies os, this, socket
      ensures var step := Ownership.Connect(old(State()), calls);
              && State() == step.value && error == step.error
              && os.open == Replay(old(os.open), step.effects) && Legal(old(os.open), step.effects)
      ensures os.log == old(os.log) + ConnectLog(old(State()), calls)
      ensures DidConnect(old(os.log), os.log, old(State()), State(), error)
      ensures error in {Success, ConnectionFailed} ==>
                |os.log| > |old(os.log)| && os.log[|os.log| - 1] == ConnectCall(socket.fd, error == Success)
      ensures error == InvalidArgument ==>
                |os.log| > |old(os.log)| && os.log[|os.log| - 1] == SetupCall(InetPton, false)
      ensures forall f | f != socket.fd :: os.Streams(f) == old(os.Streams(f))
      ensures error == Success ==> os.Out(socket.fd) == [] && os.In(socket.fd) == os.Arrived(socket.fd)
    {
      NoEffect(os.open);
      hide Replay, Legal;
      ghost var got := -1;
      calls := ConnectCalls(-1, false, false);
      if socket.fd == -1 {
        error, got := socket.Create(os);
        calls := ConnectCalls(got, false, false);
        if error != Success {
          return;
        }
      }
      ghost var resolved, reached;
      error, resolved, reached := Dial(os);
      calls := ConnectCalls(got, resolved, reached);
    }

    /** The part of `connect` after the socket is there. */
    method Dial(os: Kernel) returns (error: ErrorCode, ghost resolved: bool, ghost reached: bool)
      requires socket.fd != -1
      modifies os`inbound, os`outbound, os`arriving, os`log, this`connected
      ensures error == if !resolved then InvalidArgument else if !reached then ConnectionFailed else Success
      ensures connected == (old(connected) || error == Success)
      ensures os.log == old(os.log) +
                        if !resolved then [SetupCall(InetPton, false)]
                        else [SetupCall(InetPton, true), ConnectCall(socket.fd, reached)]
      ensures forall f | f != socket.fd :: os.Streams(f) == old(os.Streams(f))
      ensures error == Success ==> os.Out(socket.fd) == [] && os.In(socket.fd) == os.Arrived(socket.fd)
    {
      reached := false;
      var ok := os.Succeeds(InetPton);
      resolved := ok;
      if !ok {
        return InvalidArgument, resolved, reached;
      }
      ok := os.Connect(socket.fd);
      reached := ok;
      if !ok {
        return ConnectionFailed, resolved, reached;
      }
      connected := true;
      error := Success;
    }

    method Accept(os: Kernel, listener: Socket) returns (error: ErrorCode, ghost got: int)
      requires socket.Held(os)
      modifies os, this, socket
      ensures var step := ConnectionAccept(old(State()), old(listener.fd), got);
              && State() == step.value && error == step.error
              && os.open == Replay(old(os.open), step.effects) && Legal(old(os.open), step.effects)
      ensures os.log == old(os.log) + ConnectionAcceptLog(old(State()), old(listener.fd), got)
      ensures old(listener.fd) == -1 ==> error == SocketError && unchanged(os) && State() == old(State())
      ensures old(listener.fd) != -1 && old(connected) ==>
                error == ConnectionFailed && unchanged(os) && State() == old(State())
      ensures old(listener.fd) != -1 && !old(connected) ==>
                if error == Success then
                  && connected && socket.fd >= 0
                  && os.log == old(os.log) + [AcceptCall(old(listener.fd), socket.fd)]
                else
                  && error == SocketError && State() == old(State())
                  && os.log == old(os.log) + [AcceptCall(old(listener.fd), -1)]
      ensures os.ready && old(listener.fd) != -1 && !old(connected) ==> error == Success
      ensures forall f | f != got :: os.Streams(f) == old(os.Streams(f))
      ensures got != -1 ==> got !in old(os.open) && os.Out(got) == [] && os.In(got) == os.Arrived(got)
    {
      NoEffect(os.open);
      if listener.fd == -1 {
        return SocketError, -1;
      }
      if connected {
        return ConnectionFailed, -1;
      }
      error, got := listener.Accept(os, socket);
      if error != Success {
        return;
      }
      connected := true;
    }

    method Disconnect(os: Kernel)
      requires socket.Held(os)
      modifies os`open, this, socket
      ensures var step := Ownership.Disconnect(old(State()));
              && State() == step.value == ConnectionState(-1, false)
              && os.open == Replay(old(os.open), step.effects) && Legal(old(os.open), step.effects)
      ensures os.open == if old(socket.fd) == -1 then old(os.open) else old(os.open) - {old(socket.fd)}
    {
      NoEffect(os.open);
      if socket.fd != -1 {
        socket.Close(os);
      }
      connected := false;
    }
  }

  /** The calls of a bind on an open socket up to the first that failed, and the error it reports. */
  predicate DidBind(before: seq<Event>, after: seq<Event>, error: ErrorCode) {
    || (error == Success
        && after == before + [SetupCall(SetSockOpt, true), SetupCall(InetPton, true), SetupCall(Setup.Bind, true)])
    || (error == SocketError
        && after == before + [SetupCall(SetSockOpt, true), SetupCall(InetPton, true), SetupCall(Setup.Bind, false)])
    || (error == InvalidArgument && after == before + [SetupCall(SetSockOpt, true), SetupCall(InetPton, false)])
    || (error == SocketError && after == before + [SetupCall(SetSockOpt, false)])
  }

  /**
   A connect makes a socket when there is none, resolves the address, and calls ::connect;
   what the last call returned decides the outcome, and only a ::connect that succeeded
   makes the connection connected.
   */
  predicate DidConnect(before: seq<Event>, after: seq<Event>, was: ConnectionState, now: ConnectionState,
                       error: ErrorCode)
  {
    var made := if was.fd == -1 then [SocketCall(now.fd)] else [];
    && (was.fd != -1 ==> now.fd == was.fd)
    && match error
       case Success =>
         && now.connected && now.fd != -1
         && after == before + made + [SetupCall(InetPton, true), ConnectCall(now.fd, true)]
       case ConnectionFailed =>
         && now.connected == was.connected && now.fd != -1
         && after == before + made + [SetupCall(InetPton, true), ConnectCall(now.fd, false)]
       case InvalidArgument =>
         && now.connected == was.connected && now.fd != -1
         && after == before + made + [SetupCall(InetPton, false)]
       case SocketError =>
         && now == was && was.fd == -1
         && after == before + [SocketCall(-1)]
       case _ => false
  }

  class Transport {
    const connection: Connection

    function State(): ConnectionState
      reads this, connection, connection.socket
    {
      connection.State()
    }

    /** Connected over a descriptor that is open. */
    predicate Live(os: Kernel)
      reads this, connection, connection.socket, os
    {
      connection.connected && connection.socket.fd >= 0 && connection.socket.fd in os.open
    }

    constructor ()
      ensures fresh(connection) && fresh(connection.socket) && State() == ConnectionState(-1, false)
    {
      connection := new Connection();
    }

    /** Takes over a connection. */
    constructor Own(connection: Connection)
      modifies connection, connection.socket
      ensures fresh(this.connection) && fresh(this.connection.socket)
      ensures State() == old(connection.State()) && connection.State() == ConnectionState(-1, false)
    {
      this.connection := new Connection.Move(connection);
    }

    constructor Move(other: Transport)
      modifies other.connection, other.connection.socket
      ensures fresh(connection) && fresh(connection.socket)
      ensures State() == old(other.State()) && other.State() == ConnectionState(-1, false)
    {
      connection := new Connection.Move(other.connection);
    }

    method MoveFrom(os: Kernel, other: Transport)
      requires connection.socket.Held(os)
      requires this == other || (connection != other.connection && connection.socket != other.connection.socket)
      modifies os`open, connection, connection.socket, other.connection, other.connection.socket
      ensures this == other ==> State() == old(State()) && os.open == old(os.open)
      ensures this != other ==> State() == old(other.State()) && other.State() == ConnectionState(-1, false)
      ensures this != other ==>
                var effects := CloseEffects(old(State().fd));
                os.open == Replay(old(os.open), effects) && Legal(old(os.open), effects)
    {
      if this != other {
        connection.MoveFrom(os, other.connection);
      }
    }

    /**
     All of `data` goes to the kernel, in whatever pieces it takes, or the call fails after
     a strict prefix. Without a connection the kernel is not called at all.
     */
    method Send(os: Kernel, data: seq<bv8>) returns (error: ErrorCode)
      modifies os`outbound, os`log
      ensures connection.connected ==> Sends(old(os.log), os.log, connection.socket.fd, error)
      ensures !connection.connected ==> error == ConnectionFailed && unchanged(os)
      ensures connection.connected ==> error in {Success, SocketError}
      ensures forall f | f != connection.socket.fd :: os.Out(f) == old(os.Out(f))
      ensures connection.connected ==>
                PutOn(old(os.Out(connection.socket.fd)), os.Out(connection.socket.fd), data, error)
      ensures os.reliable && Live(os) ==> error == Success
    {
      hide Sends;
      NoCallsYet(os.log, connection.socket.fd);
      if !connection.connected {
        return ConnectionFailed;
      }
      var fd := connection.socket.fd;
      var totalSent := 0;
      ghost var before := os.Out(fd);
      while totalSent < |data|
        invariant 0 <= totalSent <= |data|
        invariant os.Out(fd) == before + data[..totalSent]
        invariant forall f | f != fd :: os.Out(f) == old(os.Out(f))
        invariant Sends(old(os.log), os.log, fd, Success)
      {
        ghost var log := os.log;
        var result := os.Send(fd, data[totalSent..]);
        SendsGoOn(old(os.log), log, fd, result);
        if result < 0 {
          return SocketError;
        }
        if result == 0 {
          return SocketError;
        }
        assert data[..totalSent + result] == data[..totalSent] + data[totalSent..][..result];
        totalSent := totalSent + result;
      }
      error := Success;
    }

    /**
     Fills `data` with exactly the next `size` bytes of the stream, in whatever pieces the
     kernel delivers them. `before` is what the caller's vector held; it is returned
     untouched when there is no connection, and any later failure returns it empty. The
     end of the stream also disconnects.
     */
    method Receive(os: Kernel, before: seq<bv8>, size: nat) returns (error: ErrorCode, data: seq<bv8>)
      modifies os`inbound, os`open, os`log, connection, connection.socket
      ensures old(connection.connected) ==> Recvs(old(os.log), os.log, old(connection.socket.fd), error)
      ensures !old(connection.connected) ==>
                && error == ConnectionFailed && data == before
                && unchanged(os) && unchanged(connection) && unchanged(connection.socket)
      ensures old(connection.connected) ==> error in {Success, SocketError, ConnectionClosed}
      ensures old(connection.connected) && error != Success ==> data == []
      ensures error != ConnectionClosed ==> State() == old(State()) && os.open == old(os.open)
      ensures error == ConnectionClosed ==>
                var fd := old(connection.socket.fd);
                && State() == ConnectionState(-1, false) && os.open == old(os.open) - {fd}
                && fd in old(os.open) && |old(os.In(connection.socket.fd))| < size
      ensures forall f | f != old(connection.socket.fd) :: os.In(f) == old(os.In(f))
      ensures var stream, rest := old(os.In(connection.socket.fd)), os.In(old(connection.socket.fd));
              && |rest| <= |stream| && rest == stream[|stream| - |rest|..]
              && (error == Success ==> |stream| >= size && data == stream[..size] && rest == stream[size..])
              && (error != Success ==> |stream| - |rest| <= size)
      ensures os.reliable && old(Live(os)) && |old(os.In(connection.socket.fd))| >= size ==> error == Success
    {
      hide Recvs, Filled;
      NoCallsYet(os.log, connection.socket.fd);
      if !connection.connected {
        return ConnectionFailed, before;
      }
      var fd := connection.socket.fd;
      ghost var stream := os.In(fd);
      data := Resized(before, size);
      var totalReceived := 0;
      while totalReceived < size
        invariant 0 <= totalReceived <= size == |data|
        invariant totalReceived <= |stream| && os.In(fd) == stream[totalReceived..]
        invariant data[..totalReceived] == stream[..totalReceived]
        invariant os.open == old(os.open) && State() == old(State())
        invariant forall f | f != fd :: os.In(f) == old(os.In(f))
        invariant Recvs(old(os.log), os.log, fd, Success)
      {
        ghost var log := os.log;
        var result, piece := os.Recv(fd, size - totalReceived);
        RecvsGoOn(old(os.log), log, fd, result);
        if result < 0 {
          return SocketError, [];
        }
        if result == 0 {
          connection.Disconnect(os);
          return ConnectionClosed, [];
        }
        FilledFurther(data, stream, totalReceived, result);
        data := Filled(data, totalReceived, piece);
        totalReceived := totalReceived + result;
      }
      error := Success;
    }
  }

  /** All of the data was added to what had been sent, or after an error a strict prefix of it. */
  predicate PutOn(before: seq<bv8>, after: seq<bv8>, data: seq<bv8>, error: ErrorCode) {
    if error == Success then after == before + data
    else |before| <= |after| < |before| + |data| && after == before + data[..|after| - |before|]
  }

  /** A buffer after a piece was received into it. */
  function Filled(data: seq<bv8>, at: nat, piece: seq<bv8>): (filled: seq<bv8>)
    requires at + |piece| <= |data|
    ensures |filled| == |data|
  {
    data[..at] + piece + data[at + |piece|..]
  }

  lemma FilledFurther(data: seq<bv8>, stream: seq<bv8>, at: nat, count: nat)
    requires at + count <= |data| && at + count <= |stream| && data[..at] == stream[..at]
    ensures Filled(data, at, stream[at..][..count])[..at + count] == stream[..at + count]
    ensures stream[at..][count..] == stream[at + count..]
  {
    assert stream[..at + count] == stream[..at] + stream[at..][..count];
  }

  /** std::vector::resize. */
  function Resized(data: seq<bv8>, size: nat): (resized: seq<bv8>)
    ensures |resized| == size
    ensures forall i | 0 <= i < size && i < |data| :: resized[i] == data[i]
  {
    if size <= |data| then data[..size] else data + seq(size - |data|, _ => 0)
  }
}
