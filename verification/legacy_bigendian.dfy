/** The legacy header decoder, written for a big-endian machine: it copies
    the 16 raw bytes over a `LegacyHeader` and converts nothing. */
module LegacyBigEndian {
  import opened Bytes
  import opened ByteSwap
  import opened Records

  /** "OK" followed by two NUL bytes. */
  const OkStatus: Chars4 := [0x4F, 0x4B, 0x00, 0x00]

  /** The record the demonstration builds: transaction 1, 5000 cents,
      terminal 42, all in network order, then the status "OK" padded with two
      NUL bytes. */
  const ExampleBuffer: seq<byte> :=
    [0x00, 0x00, 0x00, 0x01,
     0x00, 0x00, 0x13, 0x88,
     0x00, 0x00, 0x00, 0x2A] + OkStatus

  /** `processHeader` without conversion. On a big-endian host every field
      has the value the producer wrote; on a little-endian host every integer
      field holds the byte-swap of that value; the status is right on both. */
  function ProcessHeader(host: Endian, buf: seq<byte>): (h: LegacyHeader)
    requires |buf| >= RecordSize
    ensures host == Big ==>
      && h.transactionId == BigEndian32(buf[0..4])
      && h.amountCents == BigEndian32(buf[4..8])
      && h.terminalId == BigEndian32(buf[8..12])
    ensures host == Little ==>
      && h.transactionId == ByteSwap32(BigEndian32(buf[0..4]))
      && h.amountCents == ByteSwap32(BigEndian32(buf[4..8]))
      && h.terminalId == ByteSwap32(BigEndian32(buf[8..12]))
    ensures h.status == buf[12..16]
  {
    LittleEndianReadIsSwapped32(buf[0..4]);
    LittleEndianReadIsSwapped32(buf[4..8]);
    LittleEndianReadIsSwapped32(buf[8..12]);
    RawCopyHeader(host, buf)
  }

  /** On a little-endian host an unconverted field is right exactly when its
      four bytes read the same forwards and backwards. */
  lemma LittleEndianFieldCorrectIffPalindrome(buf: seq<byte>)
    requires |buf| >= RecordSize
    ensures ProcessHeader(Little, buf).transactionId == BigEndian32(buf[0..4])
        <==> buf[0] == buf[3] && buf[1] == buf[2]
  {
    var s := buf[0..4];
    assert ProcessHeader(Little, buf).transactionId == LittleEndian32(s) by {
      assert RawCopyHeader(Little, buf).transactionId == NativeRead32(Little, s);
    }
    BothOrdersAgreeIffPalindrome32(s);
    assert s[0] == buf[0] && s[1] == buf[1] && s[2] == buf[2] && s[3] == buf[3];
  }

  /** The demonstration record on the machine it was written for: 1, 5000,
      42 and "OK". */
  lemma ExampleOnBigEndianHost()
    ensures ProcessHeader(Big, ExampleBuffer) == LegacyHeader(1, 5000, 42, OkStatus)
  {
  }

  /** The demonstration record on a little-endian host: 16777216
      (0x01000000), 2282946560 (0x88130000) and 704643072 (0x2A000000), with
      the status still "OK". The middle value is not 2283798528. */
  lemma ExampleOnLittleEndianHost()
    ensures ProcessHeader(Little, ExampleBuffer)
         == LegacyHeader(16777216, 2282946560, 704643072, OkStatus)
    ensures ProcessHeader(Little, ExampleBuffer).amountCents != 2283798528
  {
  }
}
