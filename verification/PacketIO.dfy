/** packetforge::protocol::PacketIO: whole packets over a transport. */
module PacketIOs {
  import opened Common
  import opened Endian
  import opened Events
  import opened Packets
  import opened Codec
  import opened Framing
  import opened Kernels
  import opened Ownership
  import opened Network

  class PacketIO {
    const transport: Transport

    constructor (transport: Transport)
      ensures this.transport == transport
    {
      this.transport := transport;
    }

    function Fd(): int
      reads this, transport, transport.connection, transport.connection.socket
    {
      transport.State().fd
    }

    /**
     One packet, encoded before anything else is looked at. An invalid packet is refused
     without touching the transport, connected or not.
     */
    method Send(os: Kernel, packet: Packet) returns (error: ErrorCode)
      modifies os`outbound, os`log
      ensures ValidPacket(packet.Value()) && transport.State().connected ==> Sends(old(os.log), os.log, Fd(), error)
      ensures !ValidPacket(packet.Value()) ==> error == SerializationError && unchanged(os)
      ensures ValidPacket(packet.Value()) && !transport.State().connected ==> error == ConnectionFailed && unchanged(os)
      ensures ValidPacket(packet.Value()) && transport.State().connected ==>
                error in {Success, SocketError} && PutOn(old(os.Out(Fd())), os.Out(Fd()), Wire(packet.Value()), error)
      ensures forall f | f != Fd() :: os.Out(f) == old(os.Out(f))
      ensures os.reliable && transport.Live(os) && ValidPacket(packet.Value()) ==> error == Success
    {
      var data := Encode(os.host, packet);
      if data.Err? {
        return SerializationError;
      }
      error := transport.Send(os, data.value);
    }

    /**
     One frame off the stream. It is consumed exactly, whether the decoder takes it or
     not, so the next call starts at the next frame; `packet` changes only on success. The
     second result is what is stored through the `protocolError` pointer.
     */
    method Receive(os: Kernel, packet: Packet) returns (error: ErrorCode, protocolError: ProtocolErrorCode)
      modifies os`inbound, os`open, os`log, transport.connection, transport.connection.socket, packet
      ensures old(transport.State().connected) ==> Recvs(old(os.log), os.log, old(Fd()), error)
      ensures !old(transport.State().connected) ==>
                error == ConnectionFailed && unchanged(os) && transport.State() == old(transport.State())
      ensures old(transport.State().connected) ==> error in {Success, ProtocolError, SocketError, ConnectionClosed}
      ensures var stream, rest := old(os.In(Fd())), os.In(old(Fd()));
              && (error in {Success, ProtocolError} ==> HasFrame(stream) && rest == AfterFrame(stream))
              && (error == Success ==> Parse(FirstFrame(stream)) == Ok(packet.Value()))
              && (error == ProtocolError ==>
                    && Parse(FirstFrame(stream)) == Err(protocolError)
                    && protocolError in {InvalidPacket, UnsupportedVersion})
              && |rest| <= |stream| && rest == stream[|stream| - |rest|..]
              && (|stream| >= HEADER_SIZE ==> |stream| - |rest| <= FrameSize(stream))
              && (error == ConnectionClosed ==> !HasFrame(stream))
              && (os.reliable && old(transport.Live(os)) && HasFrame(stream) ==> error in {Success, ProtocolError})
      ensures error != Success ==> packet.Value() == old(packet.Value())
      ensures error != ProtocolError ==> protocolError == InvalidPacket
      ensures error != ConnectionClosed ==> transport.State() == old(transport.State()) && os.open == old(os.open)
      ensures error == ConnectionClosed ==>
                && transport.State() == ConnectionState(-1, false)
                && old(Fd()) in old(os.open) && os.open == old(os.open) - {old(Fd())}
      ensures forall f | f != old(Fd()) :: os.In(f) == old(os.In(f))
    {
      hide DeclaredLength;
      protocolError := InvalidPacket;
      var data;
      error, data := ReceiveFrame(os);
      if error != Success {
        return;
      }
      FramesHaveTheirSize(old(os.In(Fd())));
      var decoded := Decode(os.host, data);
      if decoded.Err? {
        return ProtocolError, decoded.error;
      }
      packet.Assign(decoded.value);
    }

    /** The reads of `Receive`: the header, then as many bytes as it declares. */
    method ReceiveFrame(os: Kernel) returns (error: ErrorCode, data: seq<bv8>)
      modifies os`inbound, os`open, os`log, transport.connection, transport.connection.socket
      ensures old(transport.State().connected) ==> Recvs(old(os.log), os.log, old(Fd()), error)
      ensures !old(transport.State().connected) ==>
                error == ConnectionFailed && unchanged(os) && transport.State() == old(transport.State())
      ensures old(transport.State().connected) ==> error in {Success, SocketError, ConnectionClosed}
      ensures var stream, rest := old(os.In(Fd())), os.In(old(Fd()));
              && (error == Success ==> HasFrame(stream) && data == FirstFrame(stream) && rest == AfterFrame(stream))
              && |rest| <= |stream| && rest == stream[|stream| - |rest|..]
              && (|stream| >= HEADER_SIZE ==> |stream| - |rest| <= FrameSize(stream))
              && (error == ConnectionClosed ==> !HasFrame(stream))
              && (os.reliable && old(transport.Live(os)) && HasFrame(stream) ==> error == Success)
      ensures error != ConnectionClosed ==> transport.State() == old(transport.State()) && os.open == old(os.open)
      ensures error == ConnectionClosed ==>
                && transport.State() == ConnectionState(-1, false)
                && old(Fd()) in old(os.open) && os.open == old(os.open) - {old(Fd())}
      ensures forall f | f != old(Fd()) :: os.In(f) == old(os.In(f))
    {
      hide Recvs, DeclaredLength;
      ghost var stream := os.In(Fd());
      data := [];
      var header, payload := [], [];
      error, header := transport.Receive(os, header, HEADER_SIZE);
      if error != Success {
        return;
      }
      FrameSizeOfHeader(stream);
      var payloadLength := PayloadLengthOf(os.host, header);
      if payloadLength > 0 {
        ghost var log := os.log;
        error, payload := transport.Receive(os, payload, payloadLength);
        RecvsJoin(old(os.log), log, os.log, old(Fd()), error);
        if error != Success {
          return;
        }
      }
      data := data + header;
      data := data + payload;
      assert data == FirstFrame(stream);
    }
  }

  /** The length field of a header, copied out of it and put in host order. */
  method PayloadLengthOf(host: Endianness, header: seq<bv8>) returns (length: nat)
    requires |header| == HEADER_SIZE
    ensures length == DeclaredLength(header)
  {
    var networkPayloadLength := Load32(host, header[12..16]);
    var payloadLength := NetworkToHost32(host, networkPayloadLength);
    ReadsNetworkOrder(host, [0, 0], header[12..16]);
    ghost var _ := ReadValueIsTheNumber(header[12..16]);
    length := payloadLength as nat;
  }
}
