/** Bytes, host byte orders, and what a raw memory copy of a multi-byte
    integer means on a host of either order. */
module Bytes {

  type byte = bv8

  /** The native integer byte order of a host. Mixed orders are not modelled. */
  datatype Endian = Big | Little

  /** `s` backwards: the element at position `i` moves to `|s| - 1 - i`. */
  function Reverse<T>(s: seq<T>): (r: seq<T>)
    ensures |r| == |s|
    ensures forall i :: 0 <= i < |s| ==> r[i] == s[|s| - 1 - i]
  {
    if |s| == 0 then [] else Reverse(s[1..]) + [s[0]]
  }

  // ---------------------------------------------------------------------------
  // Interpretations of a byte slice as an unsigned integer
  // ---------------------------------------------------------------------------

  /** Four bytes read most significant first (network order). */
  function BigEndian32(s: seq<byte>): bv32
    requires |s| == 4
  {
    ((s[0] as bv32) << 24) | ((s[1] as bv32) << 16) | ((s[2] as bv32) << 8) | (s[3] as bv32)
  }

  /** Four bytes read least significant first. */
  function LittleEndian32(s: seq<byte>): bv32
    requires |s| == 4
  {
    ((s[3] as bv32) << 24) | ((s[2] as bv32) << 16) | ((s[1] as bv32) << 8) | (s[0] as bv32)
  }

  /** Two bytes read most significant first. */
  function BigEndian16(s: seq<byte>): bv16
    requires |s| == 2
  {
    ((s[0] as bv16) << 8) | (s[1] as bv16)
  }

  /** Two bytes read least significant first. */
  function LittleEndian16(s: seq<byte>): bv16
    requires |s| == 2
  {
    ((s[1] as bv16) << 8) | (s[0] as bv16)
  }

  /** The bytes of `v`, most significant first: what a big-endian producer
      writes on the wire. */
  function BigEndianBytes32(v: bv32): (s: seq<byte>)
    ensures |s| == 4
    ensures BigEndian32(s) == v
  {
    [((v >> 24) & 0xFF) as bv8, ((v >> 16) & 0xFF) as bv8,
     ((v >> 8) & 0xFF) as bv8, (v & 0xFF) as bv8]
  }

  /** The bytes of `v`, most significant first. */
  function BigEndianBytes16(v: bv16): (s: seq<byte>)
    ensures |s| == 2
    ensures BigEndian16(s) == v
  {
    [((v >> 8) & 0xFF) as bv8, (v & 0xFF) as bv8]
  }

  /** The other half of the wire round trip: four bytes decoded and encoded
      again are the same four bytes. */
  lemma BigEndianBytesOfRead32(s: seq<byte>)
    requires |s| == 4
    ensures BigEndianBytes32(BigEndian32(s)) == s
  {
  }

  /** Two bytes decoded and encoded again are the same two bytes. */
  lemma BigEndianBytesOfRead16(s: seq<byte>)
    requires |s| == 2
    ensures BigEndianBytes16(BigEndian16(s)) == s
  {
  }

  /** Reading least significant first is reading the reversed slice most
      significant first. */
  lemma LittleEndianIsReversedBigEndian32(s: seq<byte>)
    requires |s| == 4
    ensures LittleEndian32(s) == BigEndian32(Reverse(s))
  {
  }

  /** The two-byte form of LittleEndianIsReversedBigEndian32. */
  lemma LittleEndianIsReversedBigEndian16(s: seq<byte>)
    requires |s| == 2
    ensures LittleEndian16(s) == BigEndian16(Reverse(s))
  {
  }

  /** The two orders agree on four bytes exactly when those bytes read the
      same forwards and backwards. */
  lemma BothOrdersAgreeIffPalindrome32(s: seq<byte>)
    requires |s| == 4
    ensures LittleEndian32(s) == BigEndian32(s) <==> s[0] == s[3] && s[1] == s[2]
  {
    var r := Reverse(s);
    LittleEndianIsReversedBigEndian32(s);
    BigEndianBytesOfRead32(s);
    BigEndianBytesOfRead32(r);
    if s[0] == s[3] && s[1] == s[2] {
      assert r == s;
    }
  }

  // ---------------------------------------------------------------------------
  // The host's view: native reads and native memory images
  // ---------------------------------------------------------------------------

  /** What a `uint32_t` overlaid on the four bytes `s` holds on `host`: the
      effect of `memcpy` into an integer field. */
  function NativeRead32(host: Endian, s: seq<byte>): bv32
    requires |s| == 4
  {
    match host
    case Big => BigEndian32(s)
    case Little => LittleEndian32(s)
  }

  /** What a `uint16_t` overlaid on the two bytes `s` holds on `host`. */
  function NativeRead16(host: Endian, s: seq<byte>): bv16
    requires |s| == 2
  {
    match host
    case Big => BigEndian16(s)
    case Little => LittleEndian16(s)
  }

  /** The four bytes, lowest address first, in which `host` stores `v`. */
  function NativeImage32(host: Endian, v: bv32): (s: seq<byte>)
    ensures |s| == 4
    ensures NativeRead32(host, s) == v
  {
    var wire := BigEndianBytes32(v);
    match host
    case Big => wire
    case Little =>
      LittleEndianIsReversedBigEndian32(Reverse(wire));
      assert Reverse(Reverse(wire)) == wire;
      Reverse(wire)
  }

  /** A native read followed by a native store gives back the same bytes:
      together with NativeImage32's contract, memory images and values are
      in one-to-one correspondence on either host. */
  lemma NativeImageOfRead32(host: Endian, s: seq<byte>)
    requires |s| == 4
    ensures NativeImage32(host, NativeRead32(host, s)) == s
  {
    match host
    case Big =>
      BigEndianBytesOfRead32(s);
    case Little =>
      LittleEndianIsReversedBigEndian32(s);
      BigEndianBytesOfRead32(Reverse(s));
      assert Reverse(Reverse(s)) == s;
  }

  /** The runtime byte-order probe: store the unsigned integer 1 and look at
      the byte at the lowest address; a non-zero byte there means the least
      significant byte comes first. */
  function ProbeByteOrder(host: Endian): (r: Endian)
    ensures r == host
  {
    if NativeImage32(host, 1)[0] != 0 then Little else Big
  }
}
