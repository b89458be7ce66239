/**
 packetforge::protocol::OpcodeDispatcher, and the server's reply as a function of the bytes
 of the request.
 */
module Dispatcher {
  import opened Common
  import opened Endian
  import opened Packets
  import opened Codec
  import opened Framing

  const GREETING: seq<bv8> := [
    72, 101, 108, 108, 111, 32, 102, 114, 111, 109, 32, 80, 97, 99, 107, 101, 116,
    70, 111, 114, 103, 101, 32, 83, 101, 114, 118, 101, 114] // "Hello from PacketForge Server"

  function HelloReply(sequenceId: bv32): PacketValue {
    PacketValue(MAGIC_NUMBER, VERSION, 0, HELLO_RESPONSE, sequenceId, GREETING)
  }

  function ErrorReply(error: ProtocolErrorCode, sequenceId: bv32): PacketValue {
    PacketValue(MAGIC_NUMBER, VERSION, 0, ERROR_RESPONSE, sequenceId, [error.Code()])
  }

  /** The dispatcher's answer to a request, with the sequence id it finds when it writes the answer. */
  function Dispatched(request: PacketValue, sequenceId: bv32): PacketValue {
    if request.version != VERSION then ErrorReply(UnsupportedVersion, sequenceId)
    else if request.opcode == HELLO_REQUEST then HelloReply(sequenceId)
    else ErrorReply(UnsupportedOpcode, sequenceId)
  }

  lemma DispatchedIsValid(request: PacketValue, sequenceId: bv32)
    ensures ValidPacket(Dispatched(request, sequenceId))
  {
  }

  /** The dispatcher's answer field by field. */
  lemma AnswerFields(request: PacketValue, sequenceId: bv32)
    ensures Dispatched(request, sequenceId) ==
            if request.version != 1 then PacketValue(0x50464B54, 1, 0, 100, sequenceId, [3])
            else if request.opcode == 1 then PacketValue(0x50464B54, 1, 0, 2, sequenceId, GREETING)
            else PacketValue(0x50464B54, 1, 0, 100, sequenceId, [2])
  {
  }

  /** The one reply of the server to a complete frame. */
  function ReplyTo(frame: seq<bv8>): PacketValue {
    match Parse(frame)
    case Ok(request) => Dispatched(request, request.sequenceId)
    case Err(error) => ErrorReply(error, 0)
  }

  /**
   The handlers reset `response` before they read the request's sequence id, so an answer
   written over its own request carries sequence id 0.
   */
  method HandleHello(request: Packet, response: Packet) returns (error: ErrorCode)
    modifies response
    ensures error == Success
    ensures response.Value() == HelloReply(if request == response then 0 else old(request.sequenceId))
  {
    var blank := new Packet();
    response.Assign(blank);
    response.SetVersion(VERSION);
    response.SetFlags(0);
    response.SetOpcode(HELLO_RESPONSE);
    response.SetSequenceId(request.sequenceId);
    response.SetPayload(GREETING);
    error := Success;
  }

  method MakeErrorResponse(request: Packet, code: ProtocolErrorCode, response: Packet) returns (error: ErrorCode)
    modifies response
    ensures error == Success
    ensures response.Value() == ErrorReply(code, if request == response then 0 else old(request.sequenceId))
  {
    var blank := new Packet();
    response.Assign(blank);
    response.SetVersion(VERSION);
    response.SetFlags(0);
    response.SetOpcode(ERROR_RESPONSE);
    response.SetSequenceId(request.sequenceId);
    response.SetPayload([code.Code()]);
    error := Success;
  }

  method Dispatch(request: Packet, response: Packet) returns (error: ErrorCode)
    modifies response
    ensures error == Success
    ensures response.Value() ==
            Dispatched(old(request.Value()), if request == response then 0 else old(request.sequenceId))
  {
    if request.version != VERSION {
      error := MakeErrorResponse(request, UnsupportedVersion, response);
    } else if request.opcode == HELLO_REQUEST {
      error := HandleHello(request, response);
    } else {
      error := MakeErrorResponse(request, UnsupportedOpcode, response);
    }
  }

  /** A reply can always be encoded, and whoever reads it off a stream gets exactly it. */
  lemma RepliesAreReadable(frame: seq<bv8>, tail: seq<bv8>)
    ensures var reply := ReplyTo(frame);
            && ValidPacket(reply)
            && HasFrame(Wire(reply) + tail)
            && Parse(FirstFrame(Wire(reply) + tail)) == Ok(reply)
            && AfterFrame(Wire(reply) + tail) == tail
  {
    WireIsAFrame(ReplyTo(frame), tail);
  }

  /**
   A whole transaction, seen from the client that sends a valid request: the server's first
   frame is that request whatever follows it, the reply is fixed by the request's opcode and
   sequence id, and reading the reply off the stream gives exactly it.
   */
  lemma RequestGetsItsReply(request: PacketValue, more: seq<bv8>, tail: seq<bv8>)
    requires ValidPacket(request)
    ensures HasFrame(Wire(request) + more)
    ensures var reply := ReplyTo(FirstFrame(Wire(request) + more));
            && reply == (if request.opcode == 1 then HelloReply(request.sequenceId)
                         else ErrorReply(UnsupportedOpcode, request.sequenceId))
            && HasFrame(Wire(reply) + tail) && Parse(FirstFrame(Wire(reply) + tail)) == Ok(reply)
            && AfterFrame(Wire(reply) + tail) == tail
  {
    WireIsAFrame(request, more);
    RepliesAreReadable(Wire(request), tail);
  }

  lemma FieldBytes(p: PacketValue)
    ensures Wire(p)[0..4] == BigEndian32(p.magic) && Wire(p)[4..6] == [p.version, p.flags]
    ensures Wire(p)[6..8] == BigEndian16(p.opcode) && Wire(p)[8..12] == BigEndian32(p.sequenceId)
    ensures Wire(p)[16..] == p.payload
  {
  }

  /**
   The reply, byte for byte against the request. A frame with the wrong magic number or
   version is answered with error 1 or 3 and sequence id 0; a good one has its sequence id
   copied, opcode 1 is greeted and every other opcode is answered with error 2.
   */
  lemma ReplyBytes(stream: seq<bv8>)
    requires HasFrame(stream)
    ensures var reply := Wire(ReplyTo(FirstFrame(stream)));
            var goodMagic, goodVersion, hello :=
              stream[0..4] == [0x50, 0x46, 0x4B, 0x54], stream[4] == 1, stream[6..8] == [0, 1];
            && reply[0..4] == [0x50, 0x46, 0x4B, 0x54] && reply[4..6] == [1, 0]
            && reply[6..8] == (if goodMagic && goodVersion && hello then [0, 2] else [0, 100])
            && reply[8..12] == (if goodMagic && goodVersion then stream[8..12] else [0, 0, 0, 0])
            && reply[12..16] == (if goodMagic && goodVersion && hello then [0, 0, 0, 29] else [0, 0, 0, 1])
            && reply[16..] == if !goodMagic then [1] else if !goodVersion then [3] else if hello then GREETING else [2]
  {
    ReplyFields(stream);
    FieldBytes(ReplyTo(FirstFrame(stream)));
    ConstantBytes();
    ReplyLength(ReplyTo(FirstFrame(stream)));
  }

  lemma ReplyLength(p: PacketValue)
    requires ValidPacket(p) && |p.payload| in {1, 29}
    ensures Wire(p)[12..16] == if |p.payload| == 29 then [0, 0, 0, 29] else [0, 0, 0, 1]
  {
    hide Wire;
    LengthFieldIsBigEndian(p);
    assert BigEndian32(29) == [0, 0, 0, 29] && BigEndian32(1) == [0, 0, 0, 1];
  }

  const GREETING_TEXT := "Hello from PacketForge Server"

  predicate SpelledAt(i: nat)
    requires i < 29
  {
    GREETING[i] as int == GREETING_TEXT[i] as int
  }

  lemma SpellsHello()
    ensures SpelledAt(0) && SpelledAt(1) && SpelledAt(2) && SpelledAt(3) && SpelledAt(4) && SpelledAt(5)
  {
  }

  lemma SpellsFrom()
    ensures SpelledAt(6) && SpelledAt(7) && SpelledAt(8) && SpelledAt(9) && SpelledAt(10)
  {
  }

  lemma SpellsPacket()
    ensures SpelledAt(11) && SpelledAt(12) && SpelledAt(13) && SpelledAt(14) && SpelledAt(15) && SpelledAt(16)
  {
  }

  lemma SpellsForge()
    ensures SpelledAt(17) && SpelledAt(18) && SpelledAt(19) && SpelledAt(20) && SpelledAt(21) && SpelledAt(22)
  {
  }

  lemma SpellsServer()
    ensures SpelledAt(23) && SpelledAt(24) && SpelledAt(25) && SpelledAt(26) && SpelledAt(27) && SpelledAt(28)
  {
  }

  /** The greeting is the text, one byte a character. */
  lemma GreetingIsText()
    ensures |GREETING| == |GREETING_TEXT| == 29
    ensures forall i | 0 <= i < 29 :: SpelledAt(i)
  {
    hide SpelledAt;
    SpellsHello();
    SpellsFrom();
    SpellsPacket();
    SpellsForge();
    SpellsServer();
  }

  lemma ReplyFields(stream: seq<bv8>)
    requires HasFrame(stream)
    ensures var r := ReplyTo(FirstFrame(stream));
            var goodMagic, goodVersion, hello :=
              stream[0..4] == [0x50, 0x46, 0x4B, 0x54], stream[4] == 1, stream[6..8] == [0, 1];
            && r.magic == MAGIC_NUMBER && r.version == 1 && r.flags == 0
            && r.opcode == (if goodMagic && goodVersion && hello then HELLO_RESPONSE else ERROR_RESPONSE)
            && BigEndian32(r.sequenceId) == (if goodMagic && goodVersion then stream[8..12] else BigEndian32(0))
            && r.payload == if !goodMagic then [1] else if !goodVersion then [3] else if hello then GREETING else [2]
  {
    FramesHaveTheirSize(stream);
    MagicBytes(stream[0..4]);
    if Parse(FirstFrame(stream)).Ok? {
      AcceptedFields(stream);
      OpcodeBytes(stream[6..8]);
    }
  }

  lemma AcceptedFields(stream: seq<bv8>)
    requires HasFrame(stream) && Parse(FirstFrame(stream)).Ok?
    ensures var p := Parse(FirstFrame(stream)).value;
            && p.version == VERSION && p.opcode == FromBigEndian16(stream[6..8])
            && BigEndian32(p.sequenceId) == stream[8..12]
  {
    var frame := FirstFrame(stream);
    assert frame[6..8] == stream[6..8] && frame[8..12] == stream[8..12];
    WriteInvertsRead32(stream[8..12]);
  }

  lemma MagicBytes(bytes: seq<bv8>)
    requires |bytes| == 4
    ensures bytes == [0x50, 0x46, 0x4B, 0x54] <==> FromBigEndian32(bytes) == MAGIC_NUMBER
  {
    WriteInvertsRead32(bytes);
    ConstantBytes();
  }

  lemma OpcodeBytes(bytes: seq<bv8>)
    requires |bytes| == 2
    ensures bytes == [0, 1] <==> FromBigEndian16(bytes) == HELLO_REQUEST
  {
    WriteInvertsRead16(bytes);
    ConstantBytes();
  }

  lemma ConstantBytes()
    ensures BigEndian32(MAGIC_NUMBER) == [0x50, 0x46, 0x4B, 0x54] && BigEndian32(0) == [0, 0, 0, 0]
    ensures BigEndian16(HELLO_REQUEST) == [0, 1] && BigEndian16(HELLO_RESPONSE) == [0, 2]
    ensures BigEndian16(ERROR_RESPONSE) == [0, 100]
    ensures FromBigEndian32([0x50, 0x46, 0x4B, 0x54]) == MAGIC_NUMBER && FromBigEndian16([0, 1]) == HELLO_REQUEST
  {
  }
}
