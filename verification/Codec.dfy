/**
 The wire format, Encoder::encode and Decoder::decode.

 `Wire` and `Parse` are stated without any host; the methods go through host memory and are
 proved to agree with them on either kind of host.
 */
module Codec {
  import opened Common
  import opened Endian
  import opened Packets

  function Header(p: PacketValue, length: seq<bv8>): (bytes: seq<bv8>)
    requires |length| == 4
    ensures |bytes| == HEADER_SIZE
  {
    BigEndian32(p.magic) + [p.version] + [p.flags] + BigEndian16(p.opcode)
    + BigEndian32(p.sequenceId) + length
  }

  /** The bytes of a packet on the wire. */
  function Wire(p: PacketValue): (bytes: seq<bv8>)
    ensures |bytes| == HEADER_SIZE + |p.payload|
  {
    Header(p, Digits(|p.payload|, 4)) + p.payload
  }

  /** The payload length a header declares: the number its last four bytes denote. */
  function DeclaredLength(data: seq<bv8>): nat
    requires |data| >= HEADER_SIZE
  {
    Number(data[12..16])
  }

  /** What a buffer means. */
  function Parse(data: seq<bv8>): Result<PacketValue, ProtocolErrorCode> {
    if |data| < HEADER_SIZE || FromBigEndian32(data[0..4]) != MAGIC_NUMBER then Err(InvalidPacket)
    else if data[4] != VERSION then Err(UnsupportedVersion)
    else if |data| != HEADER_SIZE + DeclaredLength(data) then Err(InvalidPayload)
    else
      var opcode, sequenceId := FromBigEndian16(data[6..8]), FromBigEndian32(data[8..12]);
      Ok(PacketValue(MAGIC_NUMBER, data[4], data[5], opcode, sequenceId, data[16..]))
  }

  /** What reading a header's fields at their offsets gives back. */
  lemma HeaderReads(p: PacketValue, length: seq<bv8>)
    requires |length| == 4
    ensures var h := Header(p, length);
            && FromBigEndian32(h[0..4]) == p.magic && h[4] == p.version && h[5] == p.flags
            && FromBigEndian16(h[6..8]) == p.opcode && FromBigEndian32(h[8..12]) == p.sequenceId
            && h[12..16] == length
  {
    var h := Header(p, length);
    assert h[0..4] == BigEndian32(p.magic) && h[6..8] == BigEndian16(p.opcode) && h[8..12] == BigEndian32(p.sequenceId);
    ReadInvertsWrite32(p.magic);
    ReadInvertsWrite16(p.opcode);
    ReadInvertsWrite32(p.sequenceId);
  }

  /** A header is its fields and nothing else. */
  lemma HeaderIsItsFields(h: seq<bv8>, payload: seq<bv8>)
    requires |h| == HEADER_SIZE
    ensures var opcode, sequenceId := FromBigEndian16(h[6..8]), FromBigEndian32(h[8..12]);
            var p := PacketValue(FromBigEndian32(h[0..4]), h[4], h[5], opcode, sequenceId, payload);
            Header(p, h[12..16]) == h
  {
    WriteInvertsRead32(h[0..4]);
    WriteInvertsRead16(h[6..8]);
    WriteInvertsRead32(h[8..12]);
    assert h == h[0..4] + [h[4]] + [h[5]] + h[6..8] + h[8..12] + h[12..16];
  }

  /** The first sixteen bytes of a buffer decide all its fields. */
  lemma FieldsOfPrefix(data: seq<bv8>)
    requires |data| >= HEADER_SIZE
    ensures var h := data[..HEADER_SIZE];
            && data[0..4] == h[0..4] && data[4] == h[4] && data[5] == h[5] && data[6..8] == h[6..8]
            && data[8..12] == h[8..12] && data[12..16] == h[12..16]
  {
  }

  /** What a buffer that starts with an encoding reads as. */
  lemma WireFields(p: PacketValue, tail: seq<bv8>)
    requires |p.payload| <= MAX_PAYLOAD
    ensures var d := Wire(p) + tail;
            && FromBigEndian32(d[0..4]) == p.magic && d[4] == p.version && d[5] == p.flags
            && FromBigEndian16(d[6..8]) == p.opcode && FromBigEndian32(d[8..12]) == p.sequenceId
            && DeclaredLength(d) == |p.payload|
  {
    var d := Wire(p) + tail;
    var length := Digits(|p.payload|, 4);
    assert d[..HEADER_SIZE] == Header(p, length);
    FieldsOfPrefix(d);
    HeaderReads(p, length);
    SizeFits(|p.payload|);
    NumberOfDigits(|p.payload|, 4);
  }

  /** The length field of an encoding is the size of its payload as a big-endian 32-bit number. */
  lemma LengthFieldIsBigEndian(p: PacketValue)
    requires ValidPacket(p)
    ensures Wire(p)[12..16] == BigEndian32(|p.payload| as bv32)
  {
    var length := Digits(|p.payload|, 4);
    SizeBytesAreDigits(|p.payload|);
    HeaderReads(p, length);
    assert Wire(p)[..HEADER_SIZE] == Header(p, length);
    FieldsOfPrefix(Wire(p));
  }

  /** A header declares the big-endian 32-bit number in its last four bytes. */
  lemma DeclaredLengthIsBigEndian(data: seq<bv8>)
    requires |data| >= HEADER_SIZE
    ensures DeclaredLength(data) == FromBigEndian32(data[12..16]) as nat
  {
    var _ := ReadValueIsTheNumber(data[12..16]);
  }

  lemma SizeFits(n: nat)
    ensures n <= MAX_PAYLOAD <==> n < Capacity(4)
  {
    assert Capacity(2) == 0x1_0000 && Capacity(4) == 256 * (256 * Capacity(2));
  }

  lemma ParseAfterWire(p: PacketValue)
    requires ValidPacket(p)
    ensures Parse(Wire(p)) == Ok(p)
  {
    WireFields(p, []);
    assert Wire(p) + [] == Wire(p);
  }

  lemma WireAfterParse(data: seq<bv8>)
    requires Parse(data).Ok?
    ensures ValidPacket(Parse(data).value) && Wire(Parse(data).value) == data
  {
    FieldsOfPrefix(data);
    HeaderIsItsFields(data[..HEADER_SIZE], data[HEADER_SIZE..]);
    DigitsOfNumber(data[12..16]);
    SizeFits(|data| - HEADER_SIZE);
    assert data == data[..HEADER_SIZE] + data[HEADER_SIZE..];
  }

  /** The decoder accepts exactly the encodings of valid packets, and gives the packet back. */
  lemma ParseInvertsWire(data: seq<bv8>, p: PacketValue)
    ensures Parse(data) == Ok(p) <==> ValidPacket(p) && data == Wire(p)
  {
    if Parse(data).Ok? {
      WireAfterParse(data);
    }
    if ValidPacket(p) {
      ParseAfterWire(p);
    }
  }

  /** No encoding is a proper prefix of another, so bytes that start with one start with only one. */
  lemma WireIsSelfDelimiting(p: PacketValue, x: seq<bv8>, q: PacketValue, y: seq<bv8>)
    requires ValidPacket(p) && ValidPacket(q)
    requires Wire(p) + x == Wire(q) + y
    ensures p == q && x == y
  {
    WireFields(p, x);
    WireFields(q, y);
    assert Wire(p) == (Wire(p) + x)[..|Wire(p)|] == (Wire(q) + y)[..|Wire(q)|] == Wire(q);
    ParseAfterWire(p);
    ParseAfterWire(q);
    assert x == (Wire(p) + x)[|Wire(p)|..] == y;
  }

  /** appendValue: a value's bytes as they lie in memory, which for a value in network order are big-endian. */
  method AppendValue16(host: Endianness, buffer: seq<bv8>, value: bv16) returns (grown: seq<bv8>)
    ensures grown == buffer + BigEndian16(NetworkToHost16(host, value))
  {
    grown := buffer + Memory16(host, value);
    WritesNetworkOrder(host, NetworkToHost16(host, value), 0);
    SwapsAreInvolutions(value, 0, 0);
  }

  method AppendValue32(host: Endianness, buffer: seq<bv8>, value: bv32) returns (grown: seq<bv8>)
    ensures grown == buffer + BigEndian32(NetworkToHost32(host, value))
  {
    grown := buffer + Memory32(host, value);
    WritesNetworkOrder(host, 0, NetworkToHost32(host, value));
    SwapsAreInvolutions(0, value, 0);
  }

  lemma ToHostAndBack(host: Endianness, a: bv16, b: bv32)
    ensures NetworkToHost16(host, HostToNetwork16(host, a)) == a
    ensures NetworkToHost32(host, HostToNetwork32(host, b)) == b
  {
    SwapsAreInvolutions(a, b, 0);
  }

  method AppendHeader(host: Endianness, packet: Packet, length: bv32) returns (buffer: seq<bv8>)
    ensures buffer == Header(packet.Value(), BigEndian32(length))
  {
    ToHostAndBack(host, packet.opcode, packet.magic);
    ToHostAndBack(host, packet.opcode, packet.sequenceId);
    ToHostAndBack(host, packet.opcode, length);
    buffer := AppendValue32(host, [], HostToNetwork32(host, packet.magic));
    buffer := buffer + [packet.version];
    buffer := buffer + [packet.flags];
    buffer := AppendValue16(host, buffer, HostToNetwork16(host, packet.opcode));
    buffer := AppendValue32(host, buffer, HostToNetwork32(host, packet.sequenceId));
    buffer := AppendValue32(host, buffer, HostToNetwork32(host, length));
  }

  /** Encoder::encode; an invalid packet throws std::invalid_argument. */
  method Encode(host: Endianness, packet: Packet) returns (result: Result<seq<bv8>, ()>)
    ensures result.Ok? <==> ValidPacket(packet.Value())
    ensures result.Ok? ==> result.value == Wire(packet.Value())
  {
    if !packet.IsValid() {
      return Err(());
    }
    var buffer := AppendHeader(host, packet, packet.PayloadLength());
    SizeBytesAreDigits(|packet.payload|);
    buffer := buffer + packet.payload;
    result := Ok(buffer);
  }

  function ReadUint32(host: Endianness, data: seq<bv8>, offset: nat): (value: bv32)
    requires offset + 4 <= |data|
    ensures value == FromBigEndian32(data[offset..offset + 4])
  {
    ReadsNetworkOrder(host, [0, 0], data[offset..offset + 4]);
    NetworkToHost32(host, Load32(host, data[offset..offset + 4]))
  }

  function ReadUint16(host: Endianness, data: seq<bv8>, offset: nat): (value: bv16)
    requires offset + 2 <= |data|
    ensures value == FromBigEndian16(data[offset..offset + 2])
  {
    ReadsNetworkOrder(host, data[offset..offset + 2], [0, 0, 0, 0]);
    NetworkToHost16(host, Load16(host, data[offset..offset + 2]))
  }

  /** Decoder::decode; ProtocolDecodeError carries the error code. */
  method Decode(host: Endianness, data: seq<bv8>) returns (result: Result<Packet, ProtocolErrorCode>)
    ensures Parse(data).Ok? ==> result.Ok? && fresh(result.value) && result.value.Value() == Parse(data).value
    ensures Parse(data).Err? ==> result == Err(Parse(data).error)
  {
    if |data| < HEADER_SIZE {
      return Err(InvalidPacket);
    }
    var magic := ReadUint32(host, data, 0);
    if magic != MAGIC_NUMBER {
      return Err(InvalidPacket);
    }
    var version := data[4];
    if version != VERSION {
      return Err(UnsupportedVersion);
    }
    var flags := data[5];
    var opcode := ReadUint16(host, data, 6);
    var sequenceId := ReadUint32(host, data, 8);
    var payloadLength := ReadUint32(host, data, 12);
    var expectedSize := HEADER_SIZE + payloadLength as nat;
    ghost var _ := ReadValueIsTheNumber(data[12..16]);
    if |data| != expectedSize {
      return Err(InvalidPayload);
    }
    var packet := new Packet();
    packet.SetVersion(version);
    packet.SetFlags(flags);
    packet.SetOpcode(opcode);
    packet.SetSequenceId(sequenceId);
    if payloadLength > 0 {
      packet.SetPayload(data[HEADER_SIZE..]);
    }
    result := Ok(packet);
  }
}
