/** The refactored header decoder: the same raw copy as the legacy version,
    then `swap32` on every integer field. */
module RefactoredX86 {
  import opened Bytes
  import opened ByteSwap
  import opened Records
  import LegacyBigEndian

  /** `swap32` as the preprocessor leaves it. `stdEndian` says whether
      `std::endian` is available (C++20 or later). With it, this is the
      converter FromBigEndian32. Without it, the big-endian early return is not
      compiled and the bytes are reversed on every host. */
  function Swap32(stdEndian: bool, host: Endian, value: bv32): (r: bv32)
    ensures stdEndian ==> r == FromBigEndian32(host, value)
    ensures !stdEndian ==> BigEndianBytes32(r) == Reverse(BigEndianBytes32(value))
  {
    if stdEndian && host == Big then value else ByteSwap32(value)
  }

  /** `swap16` as the preprocessor leaves it; see Swap32. */
  function Swap16(stdEndian: bool, host: Endian, value: bv16): (r: bv16)
    ensures stdEndian ==> r == FromBigEndian16(host, value)
    ensures !stdEndian ==> BigEndianBytes16(r) == Reverse(BigEndianBytes16(value))
  {
    if stdEndian && host == Big then value else ByteSwap16(value)
  }

  /** Built before C++20 on a big-endian host, the converters corrupt the
      values that the raw copy had already read correctly: the first field of
      the demonstration record, 1, becomes 16777216, and a 16-bit 1 becomes
      256. */
  lemma AsWrittenMisreadsOnBigEndianHost()
    ensures NativeRead32(Big, LegacyBigEndian.ExampleBuffer[0..4]) == 1
    ensures Swap32(false, Big, NativeRead32(Big, LegacyBigEndian.ExampleBuffer[0..4])) == 16777216
    ensures Swap16(false, Big, 1) == 256
  {
  }

  /** `processHeader` as the preprocessor leaves it; `stdEndian` is as in
      Swap32. Built with `std::endian` (the `-std=c++23` line), or run on a
      little-endian host, every integer field ends up with the value its slice
      encodes in network order. Built without it (the `-std=c++17` line) on a
      big-endian host, every integer field is the byte-swap of that value. The
      status is the four bytes at offset 12 as they are in every build. */
  function ProcessHeader(stdEndian: bool, host: Endian, buf: seq<byte>): (h: LegacyHeader)
    requires |buf| >= RecordSize
    ensures stdEndian || host == Little ==>
      && h.transactionId == BigEndian32(buf[0..4])
      && h.amountCents == BigEndian32(buf[4..8])
      && h.terminalId == BigEndian32(buf[8..12])
    ensures !stdEndian && host == Big ==>
      && h.transactionId == ByteSwap32(BigEndian32(buf[0..4]))
      && h.amountCents == ByteSwap32(BigEndian32(buf[4..8]))
      && h.terminalId == ByteSwap32(BigEndian32(buf[8..12]))
    ensures h.status == buf[12..16]
  {
    var raw := RawCopyHeader(host, buf);
    FromBigEndianOfNativeRead32(host, buf[0..4]);
    FromBigEndianOfNativeRead32(host, buf[4..8]);
    FromBigEndianOfNativeRead32(host, buf[8..12]);
    LegacyHeader(
      Swap32(stdEndian, host, raw.transactionId),
      Swap32(stdEndian, host, raw.amountCents),
      Swap32(stdEndian, host, raw.terminalId),
      raw.status)
  }

  /** The refactoring keeps the original platform's results in the build the
      compile line prescribes: with `std::endian`, on any host, the refactored
      decoder returns what the legacy decoder returned on the big-endian
      machine. */
  lemma AgreesWithLegacyOnBigEndian(host: Endian, buf: seq<byte>)
    requires |buf| >= RecordSize
    ensures ProcessHeader(true, host, buf) == LegacyBigEndian.ProcessHeader(Big, buf)
  {
  }

  /** The `-std=c++17` build on a big-endian host decodes every buffer exactly
      as the unconverted legacy decoder does on a little-endian host: the
      refactoring brings the original bug to the original platform. */
  lemma AsWrittenOnBigEndianIsLegacyOnLittleEndian(buf: seq<byte>)
    requires |buf| >= RecordSize
    ensures ProcessHeader(false, Big, buf) == LegacyBigEndian.ProcessHeader(Little, buf)
  {
  }

  /** The 16 bytes a big-endian producer writes for `h`. */
  function WireHeader(h: LegacyHeader): seq<byte>
  {
    BigEndianBytes32(h.transactionId) + BigEndianBytes32(h.amountCents)
    + BigEndianBytes32(h.terminalId) + h.status
  }

  /** Decoding inverts the producer: with `std::endian`, a header written in
      network order is read back unchanged on either host. */
  lemma ProcessHeaderInvertsWire(host: Endian, h: LegacyHeader)
    ensures ProcessHeader(true, host, WireHeader(h)) == h
  {
  }

  /** With `std::endian`, the demonstration record decodes to 1, 5000, 42 and
      "OK" on either host. */
  lemma ExampleDecodes(host: Endian)
    ensures ProcessHeader(true, host, LegacyBigEndian.ExampleBuffer)
         == LegacyHeader(1, 5000, 42, LegacyBigEndian.OkStatus)
  {
  }

  /** `checkEndianness`: with `std::endian` the answer is the compile-time
      constant for the host; without it, the runtime probe. Either way the
      report is the host's order. */
  function CheckEndianness(stdEndian: bool, host: Endian): (r: Endian)
    ensures r == host
  {
    if stdEndian then host else ProbeByteOrder(host)
  }
}
