/** The refactored transaction decoder: the same raw copy as the legacy
    version, then `fromBigEndian32`/`fromBigEndian16` (ByteSwap.FromBigEndian32
    and ByteSwap.FromBigEndian16) on every integer field. */
module PosTransactionX86 {
  import opened Bytes
  import opened ByteSwap
  import opened Records
  import PosTransaction

  /** `processTxn`: on either host, every integer field ends up with the
      value its slice encodes in network order, and the card type is the
      four bytes at offset 12 as they are. */
  function ProcessTxn(host: Endian, buf: seq<byte>): (t: TxnRecord)
    requires |buf| >= RecordSize
    ensures t.txnId == BigEndian32(buf[0..4])
    ensures t.amountCents == BigEndian32(buf[4..8])
    ensures t.storeNumber == BigEndian16(buf[8..10])
    ensures t.pumpNumber == BigEndian16(buf[10..12])
    ensures t.cardType == buf[12..16]
  {
    var raw := RawCopyTxn(host, buf);
    FromBigEndianOfNativeRead32(host, buf[0..4]);
    FromBigEndianOfNativeRead32(host, buf[4..8]);
    FromBigEndianOfNativeRead16(host, buf[8..10]);
    FromBigEndianOfNativeRead16(host, buf[10..12]);
    TxnRecord(
      FromBigEndian32(host, raw.txnId),
      FromBigEndian32(host, raw.amountCents),
      FromBigEndian16(host, raw.storeNumber),
      FromBigEndian16(host, raw.pumpNumber),
      raw.cardType)
  }

  /** The 16 bytes a big-endian producer writes for `t`. */
  function WireTxn(t: TxnRecord): seq<byte>
  {
    BigEndianBytes32(t.txnId) + BigEndianBytes32(t.amountCents)
    + BigEndianBytes16(t.storeNumber) + BigEndianBytes16(t.pumpNumber)
    + t.cardType
  }

  /** Decoding inverts the producer: a record written in network order is
      read back unchanged on either host. */
  lemma ProcessTxnInvertsWire(host: Endian, t: TxnRecord)
    ensures ProcessTxn(host, WireTxn(t)) == t
  {
  }

  /** The demonstration record decodes to 1, 5000, 100, 7 and "VISA" on
      either host. */
  lemma ExampleDecodes(host: Endian)
    ensures ProcessTxn(host, PosTransaction.ExampleBuffer)
         == TxnRecord(1, 5000, 100, 7, PosTransaction.Visa)
  {
  }
}
