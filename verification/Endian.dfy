/**
 packetforge::common::Endian, and what it means for the bytes in memory: whatever the
 byte order of the host, a value put through `HostToNetwork` and then copied out of memory
 byte by byte comes out most significant byte first (appendix B of RFC 791).
 */
module Endian {

  datatype Endianness = Little | Big

  function Swap16(value: bv16): bv16 {
    (value >> 8) | (value << 8)
  }

  function Swap32(value: bv32): bv32 {
    ((value & 0x000000FF) << 24) |
    ((value & 0x0000FF00) << 8) |
    ((value & 0x00FF0000) >> 8) |
    ((value & 0xFF000000) >> 24)
  }

  function Swap64(value: bv64): bv64 {
    ((value & 0x00000000000000FF) << 56) |
    ((value & 0x000000000000FF00) << 40) |
    ((value & 0x0000000000FF0000) << 24) |
    ((value & 0x00000000FF000000) << 8) |
    ((value & 0x000000FF00000000) >> 8) |
    ((value & 0x0000FF0000000000) >> 24) |
    ((value & 0x00FF000000000000) >> 40) |
    ((value & 0xFF00000000000000) >> 56)
  }

  /** Swapping twice is the identity, so the same function serves both directions. */
  lemma SwapsAreInvolutions(a: bv16, b: bv32, c: bv64)
    ensures Swap16(Swap16(a)) == a && Swap32(Swap32(b)) == b && Swap64(Swap64(c)) == c
  {
  }

  function HostToNetwork16(host: Endianness, value: bv16): bv16 {
    if host == Little then Swap16(value) else value
  }

  function HostToNetwork32(host: Endianness, value: bv32): bv32 {
    if host == Little then Swap32(value) else value
  }

  function NetworkToHost16(host: Endianness, value: bv16): bv16 {
    HostToNetwork16(host, value)
  }

  function NetworkToHost32(host: Endianness, value: bv32): bv32 {
    HostToNetwork32(host, value)
  }

  /** Byte `i` of a value, counted from the least significant. */
  function Byte16(value: bv16, i: bv16): bv8
    requires i <= 1
  {
    ((value >> (8 * i)) & 0xFF) as bv8
  }

  function Byte32(value: bv32, i: bv32): bv8
    requires i <= 3
  {
    ((value >> (8 * i)) & 0xFF) as bv8
  }

  function Byte64(value: bv64, i: bv64): bv8
    requires i <= 7
  {
    ((value >> (8 * i)) & 0xFF) as bv8
  }

  function Join16(high: bv8, low: bv8): bv16 {
    (high as bv16 << 8) | low as bv16
  }

  function Join32(b3: bv8, b2: bv8, b1: bv8, b0: bv8): bv32 {
    (b3 as bv32 << 24) | (b2 as bv32 << 16) | (b1 as bv32 << 8) | b0 as bv32
  }

  /** The bytes of a value in memory, lowest address first. */
  function Memory16(host: Endianness, value: bv16): (bytes: seq<bv8>)
    ensures |bytes| == 2
  {
    if host == Little then [Byte16(value, 0), Byte16(value, 1)]
    else [Byte16(value, 1), Byte16(value, 0)]
  }

  function Memory32(host: Endianness, value: bv32): (bytes: seq<bv8>)
    ensures |bytes| == 4
  {
    if host == Little then [Byte32(value, 0), Byte32(value, 1), Byte32(value, 2), Byte32(value, 3)]
    else [Byte32(value, 3), Byte32(value, 2), Byte32(value, 1), Byte32(value, 0)]
  }

  /** The value memcpy leaves when it copies these bytes over an integer. */
  function Load16(host: Endianness, bytes: seq<bv8>): bv16
    requires |bytes| == 2
  {
    if host == Little then Join16(bytes[1], bytes[0]) else Join16(bytes[0], bytes[1])
  }

  function Load32(host: Endianness, bytes: seq<bv8>): bv32
    requires |bytes| == 4
  {
    if host == Little then Join32(bytes[3], bytes[2], bytes[1], bytes[0])
    else Join32(bytes[0], bytes[1], bytes[2], bytes[3])
  }

  /** Network order, without reference to any host. */
  function BigEndian16(value: bv16): (bytes: seq<bv8>)
    ensures |bytes| == 2
  {
    [Byte16(value, 1), Byte16(value, 0)]
  }

  function BigEndian32(value: bv32): (bytes: seq<bv8>)
    ensures |bytes| == 4
  {
    [Byte32(value, 3), Byte32(value, 2), Byte32(value, 1), Byte32(value, 0)]
  }

  function FromBigEndian16(bytes: seq<bv8>): bv16
    requires |bytes| == 2
  {
    Join16(bytes[0], bytes[1])
  }

  function FromBigEndian32(bytes: seq<bv8>): bv32
    requires |bytes| == 4
  {
    Join32(bytes[0], bytes[1], bytes[2], bytes[3])
  }

  // The bit-level facts, one at a time and away from sequences.

  lemma SwapMirrorsBytes16(value: bv16)
    ensures Byte16(Swap16(value), 0) == Byte16(value, 1) && Byte16(Swap16(value), 1) == Byte16(value, 0)
  {
  }

  lemma SwapMirrorsBytes32(value: bv32)
    ensures Byte32(Swap32(value), 0) == Byte32(value, 3) && Byte32(Swap32(value), 1) == Byte32(value, 2)
    ensures Byte32(Swap32(value), 2) == Byte32(value, 1) && Byte32(Swap32(value), 3) == Byte32(value, 0)
  {
  }

  lemma SwapMirrorsBytes64(value: bv64)
    ensures Byte64(Swap64(value), 0) == Byte64(value, 7) && Byte64(Swap64(value), 1) == Byte64(value, 6)
    ensures Byte64(Swap64(value), 2) == Byte64(value, 5) && Byte64(Swap64(value), 3) == Byte64(value, 4)
    ensures Byte64(Swap64(value), 4) == Byte64(value, 3) && Byte64(Swap64(value), 5) == Byte64(value, 2)
    ensures Byte64(Swap64(value), 6) == Byte64(value, 1) && Byte64(Swap64(value), 7) == Byte64(value, 0)
  {
  }

  lemma JoinAfterSplit16(value: bv16)
    ensures Join16(Byte16(value, 1), Byte16(value, 0)) == value
  {
  }

  lemma JoinAfterSplit32(value: bv32)
    ensures Join32(Byte32(value, 3), Byte32(value, 2), Byte32(value, 1), Byte32(value, 0)) == value
  {
  }

  lemma SplitAfterJoin16(b1: bv8, b0: bv8)
    ensures Byte16(Join16(b1, b0), 1) == b1 && Byte16(Join16(b1, b0), 0) == b0
  {
  }

  lemma SplitAfterJoin32(b3: bv8, b2: bv8, b1: bv8, b0: bv8)
    ensures Byte32(Join32(b3, b2, b1, b0), 3) == b3 && Byte32(Join32(b3, b2, b1, b0), 2) == b2
    ensures Byte32(Join32(b3, b2, b1, b0), 1) == b1 && Byte32(Join32(b3, b2, b1, b0), 0) == b0
  {
  }

  lemma SwapReversesJoin(b3: bv8, b2: bv8, b1: bv8, b0: bv8)
    ensures Swap16(Join16(b1, b0)) == Join16(b0, b1)
    ensures Swap32(Join32(b3, b2, b1, b0)) == Join32(b0, b1, b2, b3)
  {
  }

  /** What the encoder appends for a field does not depend on the host. */
  lemma WritesNetworkOrder(host: Endianness, a: bv16, b: bv32)
    ensures Memory16(host, HostToNetwork16(host, a)) == BigEndian16(a)
    ensures Memory32(host, HostToNetwork32(host, b)) == BigEndian32(b)
  {
    SwapMirrorsBytes16(a);
    SwapMirrorsBytes32(b);
  }

  /** What the decoder reads from a field does not depend on the host. */
  lemma ReadsNetworkOrder(host: Endianness, a: seq<bv8>, b: seq<bv8>)
    requires |a| == 2 && |b| == 4
    ensures NetworkToHost16(host, Load16(host, a)) == FromBigEndian16(a)
    ensures NetworkToHost32(host, Load32(host, b)) == FromBigEndian32(b)
  {
    SwapReversesJoin(0, 0, a[1], a[0]);
    SwapReversesJoin(b[3], b[2], b[1], b[0]);
  }

  /** Reading inverts writing. */
  lemma ReadInvertsWrite16(value: bv16)
    ensures FromBigEndian16(BigEndian16(value)) == value
  {
    JoinAfterSplit16(value);
  }

  lemma ReadInvertsWrite32(value: bv32)
    ensures FromBigEndian32(BigEndian32(value)) == value
  {
    JoinAfterSplit32(value);
  }

  /** Writing inverts reading. */
  lemma WriteInvertsRead16(bytes: seq<bv8>)
    requires |bytes| == 2
    ensures BigEndian16(FromBigEndian16(bytes)) == bytes
  {
    SplitAfterJoin16(bytes[0], bytes[1]);
  }

  lemma WriteInvertsRead32(bytes: seq<bv8>)
    requires |bytes| == 4
    ensures BigEndian32(FromBigEndian32(bytes)) == bytes
  {
    SplitAfterJoin32(bytes[0], bytes[1], bytes[2], bytes[3]);
  }

  /** The number a byte string denotes when its digits to base 256 are written most significant first. */
  function Number(bytes: seq<bv8>): nat {
    if bytes == [] then 0
    else 256 * Number(bytes[..|bytes| - 1]) + bytes[|bytes| - 1] as nat
  }

  lemma ShiftInByte(value: bv32, digit: bv8) returns (next: bv32)
    requires value < 0x0100_0000
    ensures next == (value << 8) | digit as bv32
    ensures next as nat == 256 * (value as nat) + digit as nat
    ensures value < 0x100 ==> next < 0x1_0000
    ensures value < 0x1_0000 ==> next < 0x100_0000
  {
    next := (value << 8) | digit as bv32;
  }

  lemma WidenByte(digit: bv8) returns (value: bv32)
    ensures value == digit as bv32 && value as nat == digit as nat && value < 0x100
  {
    value := digit as bv32;
  }

  lemma JoinBytewise(b3: bv8, b2: bv8, b1: bv8, b0: bv8, v3: bv32, v2: bv32, v1: bv32)
    requires v3 == b3 as bv32 && v2 == (v3 << 8) | b2 as bv32 && v1 == (v2 << 8) | b1 as bv32
    ensures Join32(b3, b2, b1, b0) == (v1 << 8) | b0 as bv32
  {
  }

  /** Digit by digit, the joined value and the number stay together. */
  lemma PushDigits(b3: bv8, b2: bv8, b1: bv8, b0: bv8) returns (value: bv32)
    ensures value == Join32(b3, b2, b1, b0)
    ensures value as nat == 256 * (256 * (256 * (b3 as nat) + b2 as nat) + b1 as nat) + b0 as nat
  {
    var v3 := WidenByte(b3);
    var v2 := ShiftInByte(v3, b2);
    var v1 := ShiftInByte(v2, b1);
    value := ShiftInByte(v1, b0);
    JoinBytewise(b3, b2, b1, b0, v3, v2, v1);
  }

  /** The value the decoder reads from four bytes is the number they denote. */
  lemma ReadValueIsTheNumber(bytes: seq<bv8>) returns (value: bv32)
    requires |bytes| == 4
    ensures value == FromBigEndian32(bytes) && value as nat == Number(bytes)
  {
    value := PushDigits(bytes[0], bytes[1], bytes[2], bytes[3]);
    assert bytes[..3][..2] == bytes[..2] && bytes[..2][..1] == bytes[..1] && bytes[..1][..0] == [];
    assert Number(bytes[..1]) == bytes[0] as nat;
    assert Number(bytes[..2]) == 256 * Number(bytes[..1]) + bytes[1] as nat;
    assert Number(bytes[..3]) == 256 * Number(bytes[..2]) + bytes[2] as nat;
  }

  /** The four bytes on the wire are the base-256 digits of the value. */
  lemma WireDigitsAreTheNumber(value: bv32)
    ensures Number(BigEndian32(value)) == value as nat
  {
    ReadInvertsWrite32(value);
    var _ := ReadValueIsTheNumber(BigEndian32(value));
  }

  lemma PushDigits16(high: bv8, low: bv8) returns (value: bv16)
    ensures value == Join16(high, low)
    ensures value as nat == 256 * (high as nat) + low as nat
  {
    value := (high as bv16 << 8) | low as bv16;
  }

  /** The same for a field of two bytes. */
  lemma ReadValueIsTheNumber16(bytes: seq<bv8>) returns (value: bv16)
    requires |bytes| == 2
    ensures value == FromBigEndian16(bytes) && value as nat == Number(bytes)
  {
    value := PushDigits16(bytes[0], bytes[1]);
    assert bytes[..1][..0] == [];
    assert Number(bytes[..1]) == bytes[0] as nat;
  }

  lemma WireDigitsAreTheNumber16(value: bv16)
    ensures Number(BigEndian16(value)) == value as nat
  {
    ReadInvertsWrite16(value);
    var _ := ReadValueIsTheNumber16(BigEndian16(value));
  }

  /** Memory holds the least significant byte first on a little-endian host and last on a big-endian one. */
  lemma MemoryIsInHostOrder(value: bv32, short: bv16)
    ensures var m := Memory32(Little, value); Number([m[3], m[2], m[1], m[0]]) == value as nat
    ensures Number(Memory32(Big, value)) == value as nat
    ensures var m := Memory16(Little, short); Number([m[1], m[0]]) == short as nat
    ensures Number(Memory16(Big, short)) == short as nat
  {
    WireDigitsAreTheNumber(value);
    WireDigitsAreTheNumber16(short);
  }

  /** Loading bytes gives the number they denote in the host's order. */
  lemma LoadIsInHostOrder(b: seq<bv8>, s: seq<bv8>)
    requires |b| == 4 && |s| == 2
    ensures Load32(Little, b) as nat == Number([b[3], b[2], b[1], b[0]]) && Load32(Big, b) as nat == Number(b)
    ensures Load16(Little, s) as nat == Number([s[1], s[0]]) && Load16(Big, s) as nat == Number(s)
  {
    var _ := ReadValueIsTheNumber(b);
    var _ := ReadValueIsTheNumber([b[3], b[2], b[1], b[0]]);
    var _ := ReadValueIsTheNumber16(s);
    var _ := ReadValueIsTheNumber16([s[1], s[0]]);
  }

  lemma ByteSuccessor(digit: bv8)
    requires digit != 255
    ensures (digit + 1) as nat == digit as nat + 1
  {
  }

  /** The byte that denotes a number below 256. */
  function Digit(n: nat): (digit: bv8)
    requires n < 256
    ensures digit as nat == n
  {
    if n == 0 then 0
    else
      ByteSuccessor(Digit(n - 1));
      Digit(n - 1) + 1
  }

  lemma DigitOfByte(b: bv8)
    ensures Digit(b as nat) == b
  {
    ByteIsItsNumber(Digit(b as nat), b);
  }

  lemma ByteIsItsNumber(a: bv8, b: bv8)
    requires a as nat == b as nat
    ensures a == b
  {
    assert (a as nat) as bv8 == a && (b as nat) as bv8 == b;
  }

  /** The base-256 digits of a number, most significant first, in a field of fixed width. */
  function Digits(n: nat, width: nat): (bytes: seq<bv8>)
    ensures |bytes| == width
  {
    if width == 0 then [] else Digits(n / 256, width - 1) + [Digit(n % 256)]
  }

  function Capacity(width: nat): nat {
    if width == 0 then 1 else 256 * Capacity(width - 1)
  }

  /** Every number that fits is recovered from its digits. */
  lemma {:induction false} NumberOfDigits(n: nat, width: nat)
    requires n < Capacity(width)
    ensures Number(Digits(n, width)) == n
  {
    if width > 0 {
      NumberOfDigits(n / 256, width - 1);
      assert Digits(n, width)[..width - 1] == Digits(n / 256, width - 1);
    }
  }

  lemma DigitsOfShifted(n: nat, last: bv8, width: nat)
    ensures Digits(256 * n + last as nat, width + 1) == Digits(n, width) + [last]
  {
    var m := 256 * n + last as nat;
    assert m / 256 == n && m % 256 == last as nat;
    DigitOfByte(last);
  }

  /** Every field of bytes is the digits of its number. */
  lemma {:induction false} DigitsOfNumber(bytes: seq<bv8>)
    ensures Digits(Number(bytes), |bytes|) == bytes
    ensures Number(bytes) < Capacity(|bytes|)
  {
    if bytes != [] {
      var front, last := bytes[..|bytes| - 1], bytes[|bytes| - 1];
      DigitsOfNumber(front);
      DigitsOfShifted(Number(front), last, |front|);
      assert bytes == front + [last];
    }
  }

  /** Every number below 2^32 is the number of some 32-bit value. */
  lemma SomeValueHasNumber(n: nat) returns (value: bv32)
    requires n < 0x1_0000_0000
    ensures value as nat == n
  {
    assert Capacity(2) == 0x1_0000 && Capacity(4) == 256 * (256 * Capacity(2));
    NumberOfDigits(n, 4);
    value := ReadValueIsTheNumber(Digits(n, 4));
  }

  /** A size that fits 32 bits survives `static_cast<std::uint32_t>` and the way back. */
  lemma SizeRoundTrip(n: nat)
    requires n < 0x1_0000_0000
    ensures (n as bv32) as nat == n
  {
    var v := SomeValueHasNumber(n);
    assert (v as nat) as bv32 == v;
  }

  /** The bytes of a 32-bit value are the digits of its number. */
  lemma BytesAreDigits(value: bv32)
    ensures BigEndian32(value) == Digits(value as nat, 4)
  {
    WireDigitsAreTheNumber(value);
    DigitsOfNumber(BigEndian32(value));
  }

  /** So the bytes of a size cast to 32 bits are the digits of the size. */
  lemma SizeBytesAreDigits(n: nat)
    requires n < 0x1_0000_0000
    ensures BigEndian32(n as bv32) == Digits(n, 4)
  {
    SizeRoundTrip(n);
    BytesAreDigits(n as bv32);
  }
}
