/** packetforge::protocol::Packet, opcodes and protocol error codes. */
module Packets {

  const HEADER_SIZE: nat := 16
  const MAGIC_NUMBER: bv32 := 0x50464B54
  const VERSION: bv8 := 1
  const MAX_PAYLOAD: nat := 0xFFFF_FFFF

  const HELLO_REQUEST: bv16 := 1
  const HELLO_RESPONSE: bv16 := 2
  const ERROR_RESPONSE: bv16 := 100

  datatype ProtocolErrorCode = InvalidPacket | UnsupportedOpcode | UnsupportedVersion | InvalidPayload
  {
    /** static_cast of the enumerator to a byte. */
    function Code(): bv8 {
      match this
      case InvalidPacket => 1
      case UnsupportedOpcode => 2
      case UnsupportedVersion => 3
      case InvalidPayload => 4
    }
  }

  /** The value of a packet object. */
  datatype PacketValue = PacketValue(
    magic: bv32, version: bv8, flags: bv8, opcode: bv16, sequenceId: bv32, payload: seq<bv8>)

  const DEFAULT_PACKET := PacketValue(MAGIC_NUMBER, VERSION, 0, 0, 0, [])

  predicate ValidPacket(p: PacketValue) {
    p.magic == MAGIC_NUMBER && p.version == VERSION && |p.payload| <= MAX_PAYLOAD
  }

  class Packet {
    var magic: bv32
    var version: bv8
    var flags: bv8
    var opcode: bv16
    var sequenceId: bv32
    var payload: seq<bv8>

    function Value(): PacketValue
      reads this
    {
      PacketValue(magic, version, flags, opcode, sequenceId, payload)
    }

    constructor ()
      ensures Value() == DEFAULT_PACKET
    {
      magic, version, flags, opcode, sequenceId, payload := MAGIC_NUMBER, VERSION, 0, 0, 0, [];
    }

    method SetVersion(version: bv8)
      modifies this`version
      ensures Value() == old(Value()).(version := version)
    {
      this.version := version;
    }

    method SetFlags(flags: bv8)
      modifies this`flags
      ensures Value() == old(Value()).(flags := flags)
    {
      this.flags := flags;
    }

    method SetOpcode(opcode: bv16)
      modifies this`opcode
      ensures Value() == old(Value()).(opcode := opcode)
    {
      this.opcode := opcode;
    }

    method SetSequenceId(id: bv32)
      modifies this`sequenceId
      ensures Value() == old(Value()).(sequenceId := id)
    {
      sequenceId := id;
    }

    method SetPayload(payload: seq<bv8>)
      modifies this`payload
      ensures Value() == old(Value()).(payload := payload)
    {
      this.payload := payload;
    }

    /** Copy assignment. */
    method Assign(other: Packet)
      modifies this
      ensures Value() == old(other.Value())
    {
      magic, version, flags, opcode, sequenceId, payload :=
        other.magic, other.version, other.flags, other.opcode, other.sequenceId, other.payload;
    }

    /** static_cast<std::uint32_t>(payload.size()), which truncates. */
    function PayloadLength(): bv32
      reads this
    {
      (|payload| % 0x1_0000_0000) as bv32
    }

    predicate IsValid()
      reads this
    {
      if magic != MAGIC_NUMBER then false
      else if version != VERSION then false
      else |payload| <= MAX_PAYLOAD
    }
  }
}
