/**
 How packets sit one after another on a byte stream, and what PacketIO's reads make of any
 stream: first sixteen bytes, then as many as they declare, then the decoder.
 */
module Framing {
  import opened Common
  import opened Endian
  import opened Packets
  import opened Codec

  function FrameSize(stream: seq<bv8>): nat
    requires |stream| >= HEADER_SIZE
  {
    HEADER_SIZE + DeclaredLength(stream)
  }

  /** The stream starts with a complete header and all the payload it declares. */
  predicate HasFrame(stream: seq<bv8>) {
    |stream| >= HEADER_SIZE && |stream| >= FrameSize(stream)
  }

  function FirstFrame(stream: seq<bv8>): seq<bv8>
    requires HasFrame(stream)
  {
    stream[..FrameSize(stream)]
  }

  function AfterFrame(stream: seq<bv8>): seq<bv8>
    requires HasFrame(stream)
  {
    stream[FrameSize(stream)..]
  }

  /** The stream that sending these packets in order produces. */
  function Frames(packets: seq<PacketValue>): seq<bv8> {
    if packets == [] then [] else Wire(packets[0]) + Frames(packets[1..])
  }

  predicate AllValid(packets: seq<PacketValue>) {
    forall i | 0 <= i < |packets| :: ValidPacket(packets[i])
  }

  /** What up to `calls` successive receives take from a stream, and what they leave. */
  function Unframe(stream: seq<bv8>, calls: nat): (seq<Result<PacketValue, ProtocolErrorCode>>, seq<bv8>) {
    if calls == 0 || !HasFrame(stream) then ([], stream)
    else
      var (later, rest) := Unframe(AfterFrame(stream), calls - 1);
      ([Parse(FirstFrame(stream))] + later, rest)
  }

  /** An encoding is a frame, wherever more bytes follow it. */
  lemma WireIsAFrame(p: PacketValue, tail: seq<bv8>)
    requires ValidPacket(p)
    ensures HasFrame(Wire(p) + tail)
    ensures FirstFrame(Wire(p) + tail) == Wire(p) && AfterFrame(Wire(p) + tail) == tail
    ensures Parse(FirstFrame(Wire(p) + tail)) == Ok(p)
  {
    WireFields(p, tail);
    ParseAfterWire(p);
  }

  function Accepted(packets: seq<PacketValue>): (results: seq<Result<PacketValue, ProtocolErrorCode>>)
    ensures |results| == |packets|
  {
    if packets == [] then [] else [Ok(packets[0])] + Accepted(packets[1..])
  }

  /** As many receives as there were sends give back the packets in order and nothing else. */
  lemma {:induction false} StreamRoundTrip(packets: seq<PacketValue>, tail: seq<bv8>)
    requires AllValid(packets)
    ensures Unframe(Frames(packets) + tail, |packets|) == (Accepted(packets), tail)
  {
    if packets == [] {
      assert Frames(packets) + tail == tail;
    } else {
      var rest := Frames(packets[1..]) + tail;
      assert Frames(packets) + tail == Wire(packets[0]) + rest;
      WireIsAFrame(packets[0], rest);
      StreamRoundTrip(packets[1..], tail);
    }
  }

  /** Different packet lists never produce the same stream, nor one a prefix of the other. */
  lemma {:induction false} StreamsAreUnambiguous(ps: seq<PacketValue>, qs: seq<PacketValue>, x: seq<bv8>)
    requires AllValid(ps) && AllValid(qs)
    requires Frames(ps) + x == Frames(qs)
    ensures ps <= qs && x == Frames(qs[|ps|..])
  {
    if ps == [] {
      assert Frames(ps) + x == x;
    } else {
      assert qs != [];
      assert Frames(ps) + x == Wire(ps[0]) + (Frames(ps[1..]) + x);
      WireIsSelfDelimiting(ps[0], Frames(ps[1..]) + x, qs[0], Frames(qs[1..]));
      StreamsAreUnambiguous(ps[1..], qs[1..], x);
      assert ps == [ps[0]] + ps[1..] && qs == [qs[0]] + qs[1..];
      assert qs[|ps|..] == qs[1..][|ps[1..]|..];
    }
  }

  /**
   A complete frame always has the size its header declares, so on a stream the decoder's
   own size checks never fail: a frame is refused for its magic number or its version only.
   */
  lemma FramesHaveTheirSize(stream: seq<bv8>)
    requires HasFrame(stream)
    ensures var frame := FirstFrame(stream);
            && |frame| == HEADER_SIZE + DeclaredLength(frame)
            && DeclaredLength(frame) == DeclaredLength(stream)
            && (Parse(frame) == Err(InvalidPacket) <==> FromBigEndian32(stream[0..4]) != MAGIC_NUMBER)
            && (Parse(frame) == Err(UnsupportedVersion) <==>
                  FromBigEndian32(stream[0..4]) == MAGIC_NUMBER && stream[4] != VERSION)
            && (Parse(frame).Ok? <==> FromBigEndian32(stream[0..4]) == MAGIC_NUMBER && stream[4] == VERSION)
  {
    var frame := FirstFrame(stream);
    assert frame[0..4] == stream[0..4] && frame[4] == stream[4] && frame[12..16] == stream[12..16];
  }

  /** Only the header decides how long a frame is. */
  lemma FrameSizeOfHeader(stream: seq<bv8>)
    requires |stream| >= HEADER_SIZE
    ensures stream[..HEADER_SIZE][12..16] == stream[12..16]
    ensures DeclaredLength(stream[..HEADER_SIZE]) == DeclaredLength(stream)
    ensures DeclaredLength(stream) <= MAX_PAYLOAD
  {
    assert stream[..HEADER_SIZE][12..16] == stream[12..16];
    DigitsOfNumber(stream[12..16]);
    SizeFits(DeclaredLength(stream));
  }
}
