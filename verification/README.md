# Fixed 16-byte big-endian records on a host of either byte order

This project models, in Dafny, the decoding core of a small C++ migration
example. A record of 16 bytes is produced on a big-endian machine: every
multi-byte integer is written most significant byte first, and text fields
are raw characters. Each decoder `memcpy`s the 16 bytes over a C struct. The
legacy decoders stop there. The refactored decoders then pass every integer
field through a byte-order converter, meant to be a no-op on a big-endian
host and a byte reversal on a little-endian host. The transaction converter
is that in every build. The header converter is that only when
`std::endian` is available (C++20 or later); see "## Findings".

There are two record types:

- `LegacyHeader`: `uint32_t transactionId, amountCents, terminalId; char status[4]`.
- `TxnRecord`: `uint32_t txnId, amountCents; uint16_t storeNumber, pumpNumber; char cardType[4]`.

Each record has a legacy decoder and a refactored decoder, so there are four
source files.

The host's byte order is a parameter, `Endian = Big | Little`. A raw copy of
a k-byte slice into an integer field is the host's native read of the slice:
big-endian or little-endian interpretation of a `seq<bv8>`. Integers are
`bv32` and `bv16`, so C's unsigned wrap-around and truncation are explicit.
A `char[4]` field is `Records.Chars4`, a byte sequence of length exactly 4.

Modules:

- `Bytes`: bytes, host orders, big- and little-endian reads, the big-endian
  encoding, native memory images and the runtime byte-order probe.
- `ByteSwap`: the reversal instruction, modelled as "reverse the byte
  sequence". It also holds the literal shift/mask fallbacks, the proofs
  that the two agree on every input, and the byte-order converter
  (`fromBigEndian32`/`fromBigEndian16`). `swap32`/`swap16` in
  `src/refactored_x86.cpp` are the same converter when `std::endian` is
  available. The fallback expressions in the two refactored files are
  equivalent: the 16-bit one in `src/pos_transaction_x86.cpp` casts to
  `uint16_t` explicitly, and the one in `src/refactored_x86.cpp` relies on
  the implicit conversion on return. One definition serves both.
- `Layout`: field widths, offsets, and the packing (no-padding) condition.
- `Records`: the two structs, their layouts, and the raw copy.
- `LegacyBigEndian`, `PosTransaction`, `RefactoredX86`, `PosTransactionX86`:
  one module per source file.

The main results are:

- `PosTransactionX86.ProcessTxn` gives every integer field the big-endian
  value of its slice, at offsets 0/4/8/10, on both hosts. So does
  `RefactoredX86.ProcessHeader`, at offsets 0/4/8, when built with
  `std::endian` as its compile line prescribes, and on a little-endian host
  in any build. Built with `-std=c++17` on a big-endian host, it
  byte-swaps every integer field. The character field is the bytes at
  offset 12, untouched, in every case.
- The legacy decoders are right on a big-endian host. On a little-endian
  host every integer field is the byte-swap of the right value, and the text
  field is still right.

A byte-order converter cannot be applied to a character field. Integer
fields are `bv16`/`bv32` and character fields are `seq<bv8>`, so the types
rule it out.

A documentation note. The header comment of `src/legacy_bigendian.cpp`
lists the wrong little-endian amount as 2283798528 (0x88200000). The bytes
`00 00 13 88` read least significant first give 0x88130000 = 2282946560.
`LegacyBigEndian.ExampleOnLittleEndianHost` proves the latter value and that
it differs from the former. The other two values in that comment, 16777216
and 704643072, are right.

## Model

| member | source | states |
|---|---|---|
| `Bytes.ProbeByteOrder` | src/legacy_bigendian.cpp:71-79 | Store the unsigned integer 1 and test whether the byte at the lowest address is non-zero. That test reports exactly the host's byte order. |
| `ByteSwap.ByteSwap32` | src/refactored_x86.cpp:69-74 | The 32-bit intrinsic (`std::byteswap`, `__builtin_bswap32`, `_byteswap_ulong`; also src/pos_transaction_x86.cpp:36-39): the result's four bytes in network order are the input's four bytes in reverse. |
| `ByteSwap.ByteSwap16` | src/refactored_x86.cpp:95-100 | The 16-bit intrinsic (`std::byteswap`, `__builtin_bswap16`, `_byteswap_ushort`; also src/pos_transaction_x86.cpp:56-59): the result's two bytes are the input's two bytes exchanged. |
| `ByteSwap.ManualSwap32` | src/refactored_x86.cpp:76-80 | The shift/mask fallback of `swap32` (and of `fromBigEndian32`, src/pos_transaction_x86.cpp:41-45) equals the 32-bit intrinsic for all 2^32 inputs. |
| `ByteSwap.ManualSwap16` | src/pos_transaction_x86.cpp:61 | `(v >> 8) \| (v << 8)` is computed on the promoted `int` and truncated to 16 bits. It equals the 16-bit intrinsic for all 2^16 inputs. The same holds for the form without the cast at src/refactored_x86.cpp:101-102. |
| `ByteSwap.ManualSwap16NoOverflow` | src/pos_transaction_x86.cpp:61 | For every 16-bit `v`, the mathematical product `v * 256` is below 2^31, and the 32-bit `v << 8` equals it exactly. So the shift on the promoted `int` cannot overflow. |
| `ByteSwap.ByteSwap32Involution` | src/refactored_x86.cpp:77-80 | Reversing the four bytes twice gives back the value. |
| `ByteSwap.ByteSwap16Involution` | src/refactored_x86.cpp:102 | Exchanging the two bytes twice gives back the value. |
| `ByteSwap.LittleEndianReadIsSwapped32` | src/legacy_bigendian.cpp:57-59 | Four bytes read least significant first give the byte-swap of the value they encode in network order. |
| `ByteSwap.FromBigEndian32` | src/pos_transaction_x86.cpp:31-47 | The converter is the identity on a big-endian host. On a little-endian host the result's bytes are the input's bytes in reverse order. |
| `ByteSwap.FromBigEndian16` | src/pos_transaction_x86.cpp:52-63 | The converter is the identity on a big-endian host. On a little-endian host the two bytes trade places. |
| `ByteSwap.FromBigEndianRoundTrip` | src/pos_transaction_x86.cpp:18-26 | On either host, converting twice returns the original 32-bit or 16-bit value, so the converter is also the host-to-wire conversion. |
| `ByteSwap.FromBigEndianOfNativeRead32` | src/pos_transaction_x86.cpp:95-100 | Converting a raw-copied `uint32_t` gives the network-order value of its four bytes on either host. |
| `ByteSwap.FromBigEndianOfNativeRead16` | src/pos_transaction_x86.cpp:101-102 | Converting a raw-copied `uint16_t` gives the network-order value of its two bytes on either host. |
| `ByteSwap.LittleEndianReadIsSwapped16` | src/pos_transaction.cpp:45-47 | Two bytes read least significant first give the byte-swap of their network-order value. |
| `Layout.FieldWithinRecord` | src/pos_transaction_x86.cpp:72-78 | In any layout, every field ends at or before the record size. A buffer of that size holds the whole field. |
| `Layout.FieldsDisjoint` | src/pos_transaction_x86.cpp:72-78 | In any layout, a later field starts no earlier than the end of an earlier one. |
| `Records.HeaderLayoutIsPacked` | src/legacy_bigendian.cpp:41-46 | `LegacyHeader` has fields at offsets 0, 4, 8 and 12. It is naturally aligned with no padding and is 16 bytes in total. |
| `Records.TxnLayoutIsPacked` | src/pos_transaction_x86.cpp:72-82 | `TxnRecord` has fields at offsets 0, 4, 8, 10 and 12 and no padding, so the guard `sizeof(TxnRecord) == 16` holds. |
| `Records.RawCopyHeader` | src/refactored_x86.cpp:126-127 | The raw copy puts the native read of the slices at offsets 0, 4 and 8 into the three integer fields. The status is the bytes 12..16 as they are. |
| `Records.RawCopyTxn` | src/pos_transaction.cpp:45-47 | The raw copy puts the native read of the slices at offsets 0, 4, 8 and 10 into the integer fields. The card type is the bytes 12..16. |
| `LegacyBigEndian.ProcessHeader` | src/legacy_bigendian.cpp:54-65 | On a big-endian host each field is its big-endian slice value. On a little-endian host each integer field is the byte-swap of that value. The status is the same on both hosts. |
| `LegacyBigEndian.LittleEndianFieldCorrectIffPalindrome` | src/legacy_bigendian.cpp:57-59 | On a little-endian host the unconverted `transactionId` is right if and only if its four bytes are a palindrome. |
| `LegacyBigEndian.ExampleOnBigEndianHost` | src/legacy_bigendian.cpp:15-20 | The demonstration buffer decodes to 1, 5000, 42 and "OK" on a big-endian host. |
| `LegacyBigEndian.ExampleOnLittleEndianHost` | src/legacy_bigendian.cpp:22-26 | On a little-endian host the demonstration buffer decodes to 16777216, 2282946560 (not 2283798528) and 704643072. The status is still "OK". |
| `PosTransaction.ProcessTxn` | src/pos_transaction.cpp:42-56 | On a big-endian host the raw copy alone gives the right values. On a little-endian host each integer field is the byte reversal of its big-endian value. `cardType` is passed through. |
| `PosTransaction.ExampleOnBigEndianHost` | src/pos_transaction.cpp:58-73 | The demonstration buffer decodes to 1, 5000, 100, 7 and "VISA" on a big-endian host. |
| `PosTransaction.ExampleOnLittleEndianHost` | src/pos_transaction.cpp:35-40 | On a little-endian host `00 00 00 01` reads as 16777216, and every integer field of the demonstration buffer comes out byte-reversed. |
| `PosTransactionX86.ProcessTxn` | src/pos_transaction_x86.cpp:92-103 | On both hosts, txnId, amountCents, storeNumber and pumpNumber are the big-endian values of the slices at offsets 0, 4, 8 and 10. `cardType` is the bytes 12..16, unconverted. |
| `PosTransactionX86.ProcessTxnInvertsWire` | src/pos_transaction_x86.cpp:66-71 | A record written in the unchanged network-order format decodes back to the same record on either host. |
| `PosTransactionX86.ExampleDecodes` | src/pos_transaction_x86.cpp:115-124 | The demonstration buffer decodes to 1, 5000, 100, 7 and "VISA" on both hosts. |
| `RefactoredX86.Swap32` | src/refactored_x86.cpp:62-82 | With `std::endian` available, `swap32` is the converter: the identity on a big-endian host, and on a little-endian host byte 0 trades places with byte 3 and byte 1 with byte 2. Without `std::endian`, it reverses the bytes on every host. |
| `RefactoredX86.Swap16` | src/refactored_x86.cpp:88-104 | With `std::endian` available, `swap16` is the 16-bit converter. Without it, the two bytes trade places on every host. |
| `RefactoredX86.AsWrittenMisreadsOnBigEndianHost` | src/refactored_x86.cpp:17-22 | Built before C++20 on a big-endian host, the converters corrupt correct values: transaction id 1 becomes 16777216, and a 16-bit 1 becomes 256. |
| `RefactoredX86.ProcessHeader` | src/refactored_x86.cpp:123-135 | With `std::endian`, or on a little-endian host, `transactionId`, `amountCents` and `terminalId` are the big-endian values of the slices at offsets 0, 4 and 8. Without `std::endian` on a big-endian host, each is the byte-swap of that value. `status` is the bytes 12..16, never converted. |
| `RefactoredX86.AgreesWithLegacyOnBigEndian` | src/refactored_x86.cpp:106-116 | Built with `std::endian`, on any host, the refactored decoder returns what the legacy decoder returns on the big-endian machine. |
| `RefactoredX86.AsWrittenOnBigEndianIsLegacyOnLittleEndian` | src/refactored_x86.cpp:62-67 | Built without `std::endian` on a big-endian host, the refactored decoder returns, for every buffer, what the unconverted legacy decoder returns on a little-endian host. |
| `RefactoredX86.ProcessHeaderInvertsWire` | src/refactored_x86.cpp:8-15 | Built with `std::endian`, a header written in network order decodes back to the same header on either host. |
| `RefactoredX86.ExampleDecodes` | src/refactored_x86.cpp:24-28 | Built with `std::endian`, the demonstration buffer decodes to 1, 5000, 42 and "OK" on both hosts. |
| `RefactoredX86.CheckEndianness` | src/refactored_x86.cpp:148-167 | Both the compile-time answer and the runtime-probe fallback report the host's byte order. |

## Findings

| source | as written | input that shows it | evidently intended | confidence | as-written member | corrected member |
|---|---|---|---|---|---|---|
| src/refactored_x86.cpp:62-67 | The big-endian early return of `swap32` is inside `#if HAS_STD_ENDIAN`, and so is that of `swap16` (lines 88-93). Before C++20 both functions reverse the bytes on every host. Yet lines 20-22 offer `-std=c++17` as a supported build. | Build with `-std=c++17` on a big-endian host and decode bytes `00 00 00 01`. The raw copy reads 1, and `swap32` turns it into 16777216. | On a big-endian host the converters are the identity whatever the language standard, so decoding is right on both hosts. | medium (not executed) | `RefactoredX86.Swap32` and `RefactoredX86.ProcessHeader` with `stdEndian` false, shown by `RefactoredX86.AsWrittenMisreadsOnBigEndianHost` and `RefactoredX86.AsWrittenOnBigEndianIsLegacyOnLittleEndian` | `ByteSwap.FromBigEndian32`, which `RefactoredX86.Swap32` equals with `stdEndian` true; `RefactoredX86.ProcessHeader` with `stdEndian` true and `PosTransactionX86.ProcessTxn` are proved correct on both hosts |

## Left out

- Printing (`std::cout`) and the `main` drivers are I/O. The demonstration buffers they build are kept as constants, along with the values they expect.
- The display scaling `amountCents / 100.0` is floating-point presentation and is not modelled.
- Compiler and feature selection (`__cplusplus`, `__GNUC__`, `_MSC_VER`, `HAS_STD_BYTESWAP`) is not modelled. The intrinsic and the shift/mask fallback are two functions proved equal, so whichever branch a build takes computes the same result. `HAS_STD_ENDIAN` is the one exception: it is the `stdEndian` parameter of `RefactoredX86.Swap32`, `RefactoredX86.Swap16`, `RefactoredX86.ProcessHeader` and `RefactoredX86.CheckEndianness`, because it changes the results.
- `RefactoredX86.AgreesWithLegacyOnBigEndian`, `RefactoredX86.ProcessHeaderInvertsWire` and `RefactoredX86.ExampleDecodes` are stated for the build with `std::endian` only, because the `-std=c++17` build on a big-endian host does not have these properties (see "## Findings").
- The "mixed endianness" branch of `checkEndianness` is not modelled. The host is either big- or little-endian.
- `memcpy` and pointer casts are modelled only as "native-order read of a byte slice". Alignment of the source buffer, aliasing and object lifetime are not modelled.
- Printing `status` as a C string without a terminator is a printing concern and is not modelled.
- Buffer length: the source never checks it, and `memcpy` reads exactly 16 bytes. The decoders therefore require `|buf| >= 16`. There are no `BufferTooShort` or `LayoutInvalid` error paths, because the code has none. The layout's correctness is a proved fact (`Records.TxnLayoutIsPacked`) rather than a runtime check.
- The requirement that the big-endian branch cost nothing at run time (`if constexpr`) is a performance property. It is not expressible here.
