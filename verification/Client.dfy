/** packetforge::client::Client: a transport and a PacketIO that refers to it. */
module Clients {
  import opened Common
  import opened Events
  import opened Packets
  import opened Codec
  import opened Framing
  import opened Kernels
  import opened Ownership
  import opened Network
  import opened PacketIOs

  class Client {
    const transport: Transport
    const packetIO: PacketIO

    /** The packet layer works on this client's own transport. */
    predicate Bound() {
      packetIO.transport == transport
    }

    function State(): ConnectionState
      reads transport, transport.connection, transport.connection.socket
    {
      transport.State()
    }

    constructor ()
      ensures Bound() && State() == ConnectionState(-1, false)
      ensures fresh(transport) && fresh(transport.connection) && fresh(transport.connection.socket)
    {
      var own := new Transport();
      transport := own;
      packetIO := new PacketIO(own);
    }

    /** The connection moves; the packet layer is bound to the new client's transport, not the old one's. */
    constructor Move(other: Client)
      modifies other.transport.connection, other.transport.connection.socket
      ensures Bound() && State() == old(other.State()) && other.State() == ConnectionState(-1, false)
      ensures fresh(transport) && fresh(transport.connection) && fresh(transport.connection.socket)
    {
      var own := new Transport.Move(other.transport);
      transport := own;
      packetIO := new PacketIO(own);
    }

    method MoveFrom(os: Kernel, other: Client)
      requires Bound() && other.Bound() && transport.connection.socket.Held(os)
      requires this == other ||
               (transport != other.transport && transport.connection != other.transport.connection &&
                transport.connection.socket != other.transport.connection.socket)
      modifies os`open, transport.connection, transport.connection.socket
      modifies other.transport.connection, other.transport.connection.socket
      ensures Bound() && other.Bound()
      ensures this == other ==> State() == old(State()) && os.open == old(os.open)
      ensures this != other ==> State() == old(other.State()) && other.State() == ConnectionState(-1, false)
      ensures this != other ==> os.open == Replay(old(os.open), CloseEffects(old(State().fd)))
    {
      if this != other {
        transport.MoveFrom(os, other.transport);
      }
    }

    method Connect(os: Kernel) returns (error: ErrorCode, ghost calls: ConnectCalls)
      modifies os, transport.connection, transport.connection.socket
      ensures var step := Ownership.Connect(old(State()), calls);
              && State() == step.value && error == step.error
              && os.open == Replay(old(os.open), step.effects) && Legal(old(os.open), step.effects)
      ensures os.log == old(os.log) + ConnectLog(old(State()), calls)
      ensures DidConnect(old(os.log), os.log, old(State()), State(), error)
      ensures error in {Success, ConnectionFailed} ==>
                |os.log| > |old(os.log)| && os.log[|os.log| - 1] == ConnectCall(State().fd, error == Success)
      ensures forall f | f != State().fd :: os.Streams(f) == old(os.Streams(f))
      ensures error == Success ==> os.Out(State().fd) == [] && os.In(State().fd) == os.Arrived(State().fd)
    {
      error, calls := transport.connection.Connect(os);
    }

    method Disconnect(os: Kernel)
      requires transport.connection.socket.Held(os)
      modifies os`open, transport.connection, transport.connection.socket
      ensures State() == ConnectionState(-1, false)
      ensures os.open == Replay(old(os.open), CloseEffects(old(State().fd)))
    {
      transport.connection.Disconnect(os);
    }

    /** Unlike PacketIO itself, a client looks at the connection first. */
    method Send(os: Kernel, packet: Packet) returns (error: ErrorCode)
      requires Bound()
      modifies os`outbound, os`log
      ensures !State().connected ==> error == ConnectionFailed && unchanged(os)
      ensures State().connected && !ValidPacket(packet.Value()) ==> error == SerializationError && unchanged(os)
      ensures State().connected && ValidPacket(packet.Value()) ==>
                var fd, frame := State().fd, Wire(packet.Value());
                && Sends(old(os.log), os.log, fd, error)
                && PutOn(old(os.Out(fd)), os.Out(fd), frame, error)
      ensures forall f | f != State().fd :: os.Out(f) == old(os.Out(f))
      ensures os.reliable && transport.Live(os) && ValidPacket(packet.Value()) ==> error == Success
    {
      if !State().connected {
        return ConnectionFailed;
      }
      error := packetIO.Send(os, packet);
    }

    /** After the peer's end of stream the client is disconnected, and later calls do not reach the kernel. */
    method Receive(os: Kernel, packet: Packet) returns (error: ErrorCode)
      requires Bound()
      modifies os`inbound, os`open, os`log, transport.connection, transport.connection.socket, packet
      ensures !old(State().connected) ==>
                && error == ConnectionFailed && unchanged(os)
                && State() == old(State()) && packet.Value() == old(packet.Value())
      ensures old(State().connected) ==> Recvs(old(os.log), os.log, old(State().fd), error)
      ensures error == ConnectionClosed ==>
                State() == ConnectionState(-1, false) && os.open == old(os.open) - {old(State().fd)}
      ensures error != ConnectionClosed ==> State() == old(State()) && os.open == old(os.open)
      ensures var stream, rest := old(os.In(State().fd)), os.In(old(State().fd));
              && (error in {Success, ProtocolError} ==> HasFrame(stream) && rest == AfterFrame(stream))
              && (error == Success ==> Parse(FirstFrame(stream)) == Ok(packet.Value()))
              && (error == ProtocolError ==> Parse(FirstFrame(stream)).Err?)
              && (error == ConnectionClosed ==> !HasFrame(stream))
              && (os.reliable && old(transport.Live(os)) && HasFrame(stream) ==> error in {Success, ProtocolError})
      ensures error != Success ==> packet.Value() == old(packet.Value())
      ensures forall f | f != old(State().fd) :: os.In(f) == old(os.In(f))
    {
      if !State().connected {
        return ConnectionFailed;
      }
      var protocolError;
      error, protocolError := packetIO.Receive(os, packet);
    }
  }
}
