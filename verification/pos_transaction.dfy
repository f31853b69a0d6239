/** The legacy transaction decoder: `memcpy` of 16 raw bytes over a
    `TxnRecord`, with no byte-order conversion. */
module PosTransaction {
  import opened Bytes
  import opened ByteSwap
  import opened Records

  /** The characters "VISA". */
  const Visa: Chars4 := [0x56, 0x49, 0x53, 0x41]

  /** The record the demonstration builds: transaction 1, 5000 cents, store
      100, pump 7 in network order, then the card type "VISA". */
  const ExampleBuffer: seq<byte> :=
    [0x00, 0x00, 0x00, 0x01,
     0x00, 0x00, 0x13, 0x88,
     0x00, 0x64,
     0x00, 0x07] + Visa

  /** `processTxn` without conversion. On a big-endian host every field has
      the value the producer wrote; on a little-endian host every integer
      field holds the byte reversal of that value; the card type is passed
      through on both. */
  function ProcessTxn(host: Endian, buf: seq<byte>): (t: TxnRecord)
    requires |buf| >= RecordSize
    ensures host == Big ==>
      && t.txnId == BigEndian32(buf[0..4])
      && t.amountCents == BigEndian32(buf[4..8])
      && t.storeNumber == BigEndian16(buf[8..10])
      && t.pumpNumber == BigEndian16(buf[10..12])
    ensures host == Little ==>
      && t.txnId == ByteSwap32(BigEndian32(buf[0..4]))
      && t.amountCents == ByteSwap32(BigEndian32(buf[4..8]))
      && t.storeNumber == ByteSwap16(BigEndian16(buf[8..10]))
      && t.pumpNumber == ByteSwap16(BigEndian16(buf[10..12]))
    ensures t.cardType == buf[12..16]
  {
    LittleEndianReadIsSwapped32(buf[0..4]);
    LittleEndianReadIsSwapped32(buf[4..8]);
    LittleEndianReadIsSwapped16(buf[8..10]);
    LittleEndianReadIsSwapped16(buf[10..12]);
    RawCopyTxn(host, buf)
  }

  /** The demonstration record on the machine it was written for. */
  lemma ExampleOnBigEndianHost()
    ensures ProcessTxn(Big, ExampleBuffer) == TxnRecord(1, 5000, 100, 7, Visa)
  {
  }

  /** The demonstration record on a little-endian host: bytes 00 00 00 01
      read as 16777216, and likewise every other integer comes out
      byte-reversed, while the card type is still "VISA". */
  lemma ExampleOnLittleEndianHost()
    ensures ProcessTxn(Little, ExampleBuffer)
         == TxnRecord(16777216, 2282946560, 25600, 1792, Visa)
  {
  }
}
