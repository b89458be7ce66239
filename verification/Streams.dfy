/**
 Many packets over one connection: whatever pieces the two kernels cut the bytes into, the
 receiver gets the packets that were sent.
 */
module Streams {
  import opened Common
  import opened Packets
  import opened Codec
  import opened Framing
  import opened Kernels
  import opened PacketIOs

  function Values(packets: seq<Packet>): (values: seq<PacketValue>)
    reads packets
    ensures |values| == |packets|
  {
    if packets == [] then [] else [packets[0].Value()] + Values(packets[1..])
  }

  /** The bytes on the wire are all frames of the packets sent, then part of one more frame if that send failed. */
  ghost predicate SentUpTo(bytes: seq<bv8>, values: seq<PacketValue>, sent: nat)
    requires sent <= |values|
    decreases sent
  {
    if sent > 0 then
      ValidPacket(values[0]) && Wire(values[0]) <= bytes && SentUpTo(bytes[|Wire(values[0])|..], values[1..], sent - 1)
    else bytes == [] || (values != [] && bytes < Wire(values[0]))
  }

  /** When everything was sent the stream is exactly the frames. */
  lemma {:induction false} AllSentMeansFrames(bytes: seq<bv8>, values: seq<PacketValue>)
    requires SentUpTo(bytes, values, |values|)
    ensures AllValid(values) && bytes == Frames(values)
  {
    if values != [] {
      AllSentMeansFrames(bytes[|Wire(values[0])|..], values[1..]);
      assert forall i | 0 < i < |values| :: values[i] == values[1..][i - 1];
    }
  }

  lemma FirstThenRest(first: seq<bv8>, rest: seq<bv8>, values: seq<PacketValue>, sent: nat)
    requires values != [] && ValidPacket(values[0]) && first == Wire(values[0])
    requires sent < |values| && SentUpTo(rest, values[1..], sent)
    ensures SentUpTo(first + rest, values, sent + 1)
  {
    assert (first + rest)[|first|..] == rest;
  }

  /** One send: `bytes` is what it put on the stream. */
  method SendOne(os: Kernel, io: PacketIO, packet: Packet) returns (error: ErrorCode, ghost bytes: seq<bv8>)
    modifies os`outbound, os`log
    ensures os.Out(io.Fd()) == old(os.Out(io.Fd())) + bytes
    ensures error == Success ==> ValidPacket(packet.Value()) && bytes == Wire(packet.Value())
    ensures error != Success ==> SentUpTo(bytes, [packet.Value()], 0)
    ensures os.reliable && io.transport.Live(os) && ValidPacket(packet.Value()) ==> error == Success
  {
    ghost var before := os.Out(io.Fd());
    error := io.Send(os, packet);
    bytes := os.Out(io.Fd())[|before|..];
  }

  lemma NothingSentYet(bytes: seq<bv8>, values: seq<PacketValue>)
    requires values != [] && SentUpTo(bytes, values[..1], 0)
    ensures SentUpTo(bytes, values, 0)
  {
  }

  /** Sends packets until one fails; `bytes` is what that put on the stream. */
  method SendAll(os: Kernel, io: PacketIO, packets: seq<Packet>, ghost values: seq<PacketValue>)
      returns (sent: nat, error: ErrorCode, ghost bytes: seq<bv8>)
    requires values == Values(packets)
    modifies os`outbound, os`log
    ensures sent <= |values| && (error == Success <==> sent == |values|)
    ensures os.Out(io.Fd()) == old(os.Out(io.Fd())) + bytes && SentUpTo(bytes, values, sent)
    ensures os.reliable && io.transport.Live(os) && AllValid(values) ==> error == Success
    decreases |packets|
  {
    hide Wire;
    sent, error, bytes := 0, Success, [];
    if packets != [] {
      error, bytes := SendOne(os, io, packets[0]);
      assert values[..1] == [packets[0].Value()];
      if error == Success {
        ghost var rest;
        sent, error, rest := SendAll(os, io, packets[1..], values[1..]);
        FirstThenRest(bytes, rest, values, sent);
        bytes := bytes + rest;
        sent := sent + 1;
      } else {
        NothingSentYet(bytes, values);
      }
    }
  }

  /** Receives until a call reports something other than a frame; what it got is what the stream means. */
  method ReceiveAll(os: Kernel, io: PacketIO, packet: Packet, calls: nat)
      returns (results: seq<Result<PacketValue, ProtocolErrorCode>>)
    modifies os`inbound, os`open, os`log, io.transport.connection, io.transport.connection.socket, packet
    ensures results <= Unframe(old(os.In(io.Fd())), calls).0
    ensures |results| == calls ==> os.In(old(io.Fd())) == Unframe(old(os.In(io.Fd())), calls).1
    ensures os.reliable && old(io.transport.Live(os)) && |Unframe(old(os.In(io.Fd())), calls).0| == calls ==>
              |results| == calls
    decreases calls
  {
    hide HasFrame, FirstFrame, AfterFrame, Parse;
    results := [];
    if calls > 0 {
      var error, protocolError := io.Receive(os, packet);
      if error == Success {
        var first := [Ok(packet.Value())];
        results := ReceiveAll(os, io, packet, calls - 1);
        results := first + results;
      } else if error == ProtocolError {
        results := ReceiveAll(os, io, packet, calls - 1);
        results := [Err(protocolError)] + results;
      }
    }
  }

  /**
   A sender and a receiver with a network between them that delivers the sent bytes,
   followed by whatever comes later. The sender's kernel may fail; the receiver's may only
   cut the stream into pieces. If all sends succeed, the same number of receives returns
   exactly the packets sent, in order, and leaves exactly the later bytes.
   */
  method Transfer(txOs: Kernel, tx: PacketIO, packets: seq<Packet>, rxOs: Kernel, rx: PacketIO, later: seq<bv8>)
      returns (error: ErrorCode, results: seq<Result<PacketValue, ProtocolErrorCode>>)
    requires txOs != rxOs && rxOs.reliable && rx.transport.Live(rxOs) && rxOs.In(rx.Fd()) == []
    modifies txOs`outbound, txOs`log, rxOs`inbound, rxOs`arriving, rxOs`open, rxOs`log
    modifies rx.transport.connection, rx.transport.connection.socket
    ensures error == Success ==>
              results == Accepted(old(Values(packets))) && rxOs.In(old(rx.Fd())) == later
    ensures txOs.reliable && tx.transport.Live(txOs) && AllValid(old(Values(packets))) ==> error == Success
  {
    hide Wire, Parse, HasFrame, FirstFrame, AfterFrame, Unframe, Frames, SentUpTo;
    var before := txOs.Out(tx.Fd());
    ghost var values := Values(packets);
    var sent;
    ghost var added;
    sent, error, added := SendAll(txOs, tx, packets, values);
    results := [];
    if error == Success {
      var bytes := txOs.Out(tx.Fd())[|before|..];
      AllSentMeansFrames(bytes, values);
      StreamRoundTrip(values, later);
      rxOs.inbound := rxOs.inbound[rx.Fd() := bytes + later];
      rxOs.arriving := rxOs.arriving[rx.Fd() := bytes + later];
      var packet := new Packet();
      results := ReceiveAll(rxOs, rx, packet, |packets|);
    }
  }
}
