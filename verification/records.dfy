/** The two fixed 16-byte records and the raw copy (`memcpy` of the buffer
    over the struct) that every decoder starts with. The struct layouts are
    the same in the legacy and the refactored files; only what happens after
    the copy differs. */
module Records {
  import opened Bytes
  import opened Layout

  /** Size in bytes of both records. */
  const RecordSize: nat := 16

  /** A `char[4]` field: exactly four raw bytes. */
  type Chars4 = s: seq<byte> | |s| == 4 witness [0, 0, 0, 0]

  /** `LegacyHeader`: three `uint32_t` fields and a 4-character status. */
  datatype LegacyHeader = LegacyHeader(
    transactionId: bv32,
    amountCents: bv32,
    terminalId: bv32,
    status: Chars4)

  /** `TxnRecord`: two `uint32_t`, two `uint16_t` and a 4-character card type. */
  datatype TxnRecord = TxnRecord(
    txnId: bv32,
    amountCents: bv32,
    storeNumber: bv16,
    pumpNumber: bv16,
    cardType: Chars4)

  const HeaderLayout: seq<Field> := [U32, U32, U32, Chars(4)]

  const TxnLayout: seq<Field> := [U32, U32, U16, U16, Chars(4)]

  /** `LegacyHeader` has its fields at offsets 0, 4, 8 and 12, needs no
      padding, and is exactly 16 bytes. */
  lemma HeaderLayoutIsPacked()
    ensures Offset(HeaderLayout, 0) == 0
    ensures Offset(HeaderLayout, 1) == 4
    ensures Offset(HeaderLayout, 2) == 8
    ensures Offset(HeaderLayout, 3) == 12
    ensures Size(HeaderLayout) == RecordSize
    ensures Packed(HeaderLayout)
  {
  }

  /** `TxnRecord` has its fields at offsets 0, 4, 8, 10 and 12, needs no
      padding, and is exactly 16 bytes: the size guard
      `sizeof(TxnRecord) == 16` holds. */
  lemma TxnLayoutIsPacked()
    ensures Offset(TxnLayout, 0) == 0
    ensures Offset(TxnLayout, 1) == 4
    ensures Offset(TxnLayout, 2) == 8
    ensures Offset(TxnLayout, 3) == 10
    ensures Offset(TxnLayout, 4) == 12
    ensures Size(TxnLayout) == RecordSize
    ensures Packed(TxnLayout)
  {
    assert Offset(TxnLayout, 4) == 12;
    assert Offset(TxnLayout, 5) == 16;
    forall i | 0 <= i < |TxnLayout|
      ensures Offset(TxnLayout, i) % Alignment(TxnLayout[i]) == 0
    {
      if i == 0 {} else if i == 1 {} else if i == 2 {} else if i == 3 {} else {}
    }
    assert MaxAlignment(TxnLayout) == 4;
  }

  /** `memcpy` of the first 16 bytes of `buf` over a `LegacyHeader` on
      `host`: each integer field holds the native read of its slice, and the
      status holds its four bytes as they are. */
  function RawCopyHeader(host: Endian, buf: seq<byte>): (h: LegacyHeader)
    requires |buf| >= RecordSize
    ensures h.transactionId == NativeRead32(host, buf[0..4])
    ensures h.amountCents == NativeRead32(host, buf[4..8])
    ensures h.terminalId == NativeRead32(host, buf[8..12])
    ensures h.status == buf[12..16]
  {
    HeaderLayoutIsPacked();
    LegacyHeader(
      NativeRead32(host, FieldBytes(HeaderLayout, buf, 0)),
      NativeRead32(host, FieldBytes(HeaderLayout, buf, 1)),
      NativeRead32(host, FieldBytes(HeaderLayout, buf, 2)),
      FieldBytes(HeaderLayout, buf, 3))
  }

  /** `memcpy` of the first 16 bytes of `buf` over a `TxnRecord` on `host`. */
  function RawCopyTxn(host: Endian, buf: seq<byte>): (t: TxnRecord)
    requires |buf| >= RecordSize
    ensures t.txnId == NativeRead32(host, buf[0..4])
    ensures t.amountCents == NativeRead32(host, buf[4..8])
    ensures t.storeNumber == NativeRead16(host, buf[8..10])
    ensures t.pumpNumber == NativeRead16(host, buf[10..12])
    ensures t.cardType == buf[12..16]
  {
    TxnLayoutIsPacked();
    TxnRecord(
      NativeRead32(host, FieldBytes(TxnLayout, buf, 0)),
      NativeRead32(host, FieldBytes(TxnLayout, buf, 1)),
      NativeRead16(host, FieldBytes(TxnLayout, buf, 2)),
      NativeRead16(host, FieldBytes(TxnLayout, buf, 3)),
      FieldBytes(TxnLayout, buf, 4))
  }
}
