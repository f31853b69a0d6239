/** The two ways the converters reverse the bytes of an integer: the
    single-instruction intrinsic (`std::byteswap`, `__builtin_bswap32`,
    `_byteswap_ulong` and their 16-bit forms) and the portable shift/mask
    fallback. */
module ByteSwap {
  import opened Bytes

  /** The intrinsic: reverse the byte sequence of `v`. */
  function ByteSwap32(v: bv32): (r: bv32)
    ensures BigEndianBytes32(r) == Reverse(BigEndianBytes32(v))
  {
    BigEndianBytesOfRead32(Reverse(BigEndianBytes32(v)));
    BigEndian32(Reverse(BigEndianBytes32(v)))
  }

  /** The 16-bit intrinsic: exchange the two bytes of `v`. */
  function ByteSwap16(v: bv16): (r: bv16)
    ensures BigEndianBytes16(r) == Reverse(BigEndianBytes16(v))
  {
    BigEndianBytesOfRead16(Reverse(BigEndianBytes16(v)));
    BigEndian16(Reverse(BigEndianBytes16(v)))
  }

  /** The shift/mask fallback for 32-bit values, on `uint32_t` throughout.
      It agrees with the intrinsic on all 2^32 inputs, so it too reverses the
      byte sequence. */
  function ManualSwap32(v: bv32): (r: bv32)
    ensures r == ByteSwap32(v)
  {
    ((v >> 24) & 0x0000_00FF)
    | ((v >> 8) & 0x0000_FF00)
    | ((v << 8) & 0x00FF_0000)
    | ((v << 24) & 0xFF00_0000)
  }

  /** The 16-bit fallback `(v >> 8) | (v << 8)`. Both shifts act on `v`
      promoted to a 32-bit `int`, where `v << 8` keeps the high byte in bits
      16..23 instead of losing it; the conversion back to `uint16_t` on return
      keeps the low 16 bits only. It agrees with the intrinsic on all 2^16
      inputs, truncation included. */
  function ManualSwap16(v: bv16): (r: bv16)
    ensures r == ByteSwap16(v)
  {
    (((v as bv32 >> 8) | (v as bv32 << 8)) & 0xFFFF) as bv16
  }

  /** The promoted 16-bit fallback never overflows a 32-bit `int`: the
      mathematical product `v * 256` stays below 2^31, so the 32-bit left
      shift computes it exactly. */
  lemma ManualSwap16NoOverflow(v: bv16)
    ensures (v as int) * 256 < 0x8000_0000
    ensures (v as bv32 << 8) as int == (v as int) * 256
  {
  }

  /** Swapping twice restores the value: the converter is its own inverse, so
      the same function turns wire order into host order and back. */
  lemma ByteSwap32Involution(v: bv32)
    ensures ByteSwap32(ByteSwap32(v)) == v
  {
  }

  /** The 16-bit form of ByteSwap32Involution. */
  lemma ByteSwap16Involution(v: bv16)
    ensures ByteSwap16(ByteSwap16(v)) == v
  {
  }

  /** Reading four bytes least significant first yields the byte-swap of the
      value they encode in network order. */
  lemma LittleEndianReadIsSwapped32(s: seq<byte>)
    requires |s| == 4
    ensures LittleEndian32(s) == ByteSwap32(BigEndian32(s))
  {
    BigEndianBytesOfRead32(s);
    LittleEndianIsReversedBigEndian32(s);
  }

  /** The two-byte form of LittleEndianReadIsSwapped32. */
  lemma LittleEndianReadIsSwapped16(s: seq<byte>)
    requires |s| == 2
    ensures LittleEndian16(s) == ByteSwap16(BigEndian16(s))
  {
    BigEndianBytesOfRead16(s);
    LittleEndianIsReversedBigEndian16(s);
  }

  // ---------------------------------------------------------------------------
  // The byte-order converter
  // ---------------------------------------------------------------------------

  /** The converter from big-endian (wire) order to host order, 32 bits: a
      no-op on a big-endian host; otherwise byte 0 trades places with byte 3
      and byte 1 with byte 2. */
  function FromBigEndian32(host: Endian, v: bv32): (r: bv32)
    ensures host == Big ==> r == v
    ensures host == Little ==> BigEndianBytes32(r) == Reverse(BigEndianBytes32(v))
  {
    if host == Big then v else ByteSwap32(v)
  }

  /** The 16-bit converter: a no-op on a big-endian host; otherwise the two
      bytes trade places. */
  function FromBigEndian16(host: Endian, v: bv16): (r: bv16)
    ensures host == Big ==> r == v
    ensures host == Little ==> BigEndianBytes16(r) == Reverse(BigEndianBytes16(v))
  {
    if host == Big then v else ByteSwap16(v)
  }

  /** The converters are their own inverses on either host: converting a
      host value to wire order and back gives the value again. */
  lemma FromBigEndianRoundTrip(host: Endian, v32: bv32, v16: bv16)
    ensures FromBigEndian32(host, FromBigEndian32(host, v32)) == v32
    ensures FromBigEndian16(host, FromBigEndian16(host, v16)) == v16
  {
  }

  /** Converting what a raw copy left in a `uint32_t` yields the
      network-order value of the four bytes, whatever the host order. */
  lemma FromBigEndianOfNativeRead32(host: Endian, s: seq<byte>)
    requires |s| == 4
    ensures FromBigEndian32(host, NativeRead32(host, s)) == BigEndian32(s)
  {
    if host == Little {
      LittleEndianReadIsSwapped32(s);
      ByteSwap32Involution(BigEndian32(s));
    }
  }

  /** The 16-bit form of FromBigEndianOfNativeRead32. */
  lemma FromBigEndianOfNativeRead16(host: Endian, s: seq<byte>)
    requires |s| == 2
    ensures FromBigEndian16(host, NativeRead16(host, s)) == BigEndian16(s)
  {
    if host == Little {
      LittleEndianReadIsSwapped16(s);
      ByteSwap16Involution(BigEndian16(s));
    }
  }
}
