# Robot hand EtherCAT / CAN FD link: SII image builders, CAN FD routing and LAN9252 bring-up

This project models three pieces of the robot-hand communication firmware and tooling and proves properties about them.

- **The SII EEPROM image builders.** These are the eleven `generate_eeprom*.py` scripts in `Ethercat/master/eeprom_writer_failed/`. Each one builds the configuration image of the EtherCAT slave (a LAN9252):
  - a header: 8 bytes in the first script and 16 bytes (words 0-7) in the others, with PDI control `0x0080` in word 0 except in v4 and v5, whose header is all zero; a checksum byte (or, in v4 and v5, the constant `0xFF`) in byte 14;
  - then the Strings (type 10), General (type 30) and SyncManager (type 40) categories;
  - then an End marker and zero padding.

  The shared pieces are modelled once and each script becomes its own module (`EepromV1` … `EepromV11`, `EepromV9Old`):
  - `SiiChecksum`: the additive header checksum;
  - `SiiCategories`: the category framing and the three payload codecs;
  - `SiiAppend`: the `eeprom += …` style of the first two scripts;
  - `SiiBuffer`: the in-place writes into a 256-byte `bytearray`, which is an `array<byte>` here.

  Each builder is proved to produce exactly its bytes. Those bytes pass the checksum test, and a category reader walking the image recovers the categories written. The reader (`ReadImage`/`ReadCategories`) is an independent reference definition. The scripts themselves contain no reader.
- **The CAN FD glue of the two STM32H743 boards.** These are the two `canfd_utils.c` files.
  - The motherboard receives the satellites' 40-byte TxPDO frames on IDs `0x200..0x20E`. It sends 24-byte RxPDO commands on `0x300 + (motor_id & 0xF)`.
  - The satellite does the opposite.
  - Both keep frame counters, a "last other frame" record with a pending flag, and a 1 kHz tick hand-off from the timer ISR.

  `CanfdRouting` holds the receive logic shared by both boards as a pure specification (`Receive`, `Drain`). `CanfdMotherboard.Motherboard` and `CanfdSatellite.Satellite` are classes whose fields are the C file's statics. Their FIFO callbacks are loops proved against `Drain`. `CanfdLink` connects the sender of one board to the receiver of the other.
- **The LAN9252 SPI bring-up test** (`lan9252_test.c`). `Lan9252.Lan9252Port` models the chip-select line and the sequence of SPI and GPIO events put on the bus. It has the 32-bit little-endian read and write, the 20-try BYTE_TEST proof of life, and the INT_EN write/readback test.

SPI and FDCAN transfer results are parameters:
- a `ReadOutcome` per read;
- an `RxRead` list that stands for what the RX FIFO yields.

## Model

| member | source | states |
|---|---|---|
| Bytes.U16Le | Ethercat/master/eeprom_writer_failed/generate_eeprom.py:32 | `struct.pack('<H')`: two bytes that read back, low byte first, as the value |
| Bytes.U32Le | Ethercat/master/eeprom_writer_failed/generate_eeprom.py:37 | `struct.pack('<I')`: four bytes that read back little-endian as the value |
| Bytes.Zeros | Ethercat/master/eeprom_writer_failed/generate_eeprom_v3.py:14 | `bytearray(n)`: n bytes, every one zero |
| Bytes.U16LeOfAt | Ethercat/master/eeprom_writer_failed/generate_eeprom.py:32 | writing back a word read from two bytes gives those two bytes, the converse of U16Le's read-back |
| Bytes.Splice | Ethercat/master/eeprom_writer_failed/generate_eeprom_v11.py:53 | equal-length slice assignment: same length, the window holds the data, every byte outside it unchanged |
| SiiChecksum.ChecksumFor | Ethercat/master/eeprom_writer_failed/generate_eeprom.py:89-95 | the checksum byte makes the sum of bytes 0..13 plus itself equal 0xFF modulo 256 |
| SiiChecksum.ChecksumUnique | Ethercat/master/eeprom_writer_failed/generate_eeprom.py:94-95 | no other byte completes the sum to 0xFF, so every variant's formula computes the same byte |
| SiiChecksum.CalculateChecksum | Ethercat/master/eeprom_writer_failed/generate_eeprom_v6.py:11-23 | the summing loop returns exactly the byte that completes bytes 0..13 to 0xFF |
| SiiChecksum.ChecksumReadsHeaderOnly | Ethercat/master/eeprom_writer_failed/generate_eeprom.py:91-92 | two images that agree on bytes 0..13 get the same checksum, whatever follows |
| SiiChecksum.StoreChecksumValid | Ethercat/master/eeprom_writer_failed/generate_eeprom.py:102 | storing the computed byte at offset 14 yields an image that passes the checksum test |
| SiiChecksum.SingleByteChangeDetected | Ethercat/master/eeprom_writer_failed/generate_eeprom.py:89-95 | changing any one byte of 0..13 of a valid image, byte 14 kept, makes it fail the test |
| SiiChecksum.HeaderSumChange | Ethercat/master/eeprom_writer_failed/generate_eeprom.py:91-92 | replacing byte j of the summed range changes the sum by exactly the difference |
| SiiCategories.CategoryBytes | Ethercat/master/eeprom_writer_failed/generate_eeprom.py:32-33 | a category is its type word, its length in words (half the payload bytes) and the payload |
| SiiCategories.ReadEncodedCategories | Ethercat/master/eeprom_writer_failed/generate_eeprom_v3.py:31-65 | a reader walking the encoded categories and the End type word recovers exactly those categories, in order |
| SiiCategories.ReadFramedCategory | Ethercat/master/eeprom_writer_failed/generate_eeprom_v3.py:31-39 | at a written category the reader finds its type, a word count that is half the payload length, and the payload |
| SiiCategories.EncodeThree | Ethercat/master/eeprom_writer_failed/generate_eeprom.py:32-66 | three categories encode to their three framings, concatenated |
| SiiCategories.StringEntriesSnoc | Ethercat/master/eeprom_writer_failed/generate_eeprom.py:25-26 | appending a string appends its length byte and its bytes |
| SiiCategories.BuildStringsPayload | Ethercat/master/eeprom_writer_failed/generate_eeprom.py:23-29 | the loop succeeds exactly when the count and every length fit a byte; the result is the count, the length-prefixed strings and a pad to even length |
| SiiCategories.DecodeEntriesOfEncoded | Ethercat/master/eeprom_writer_failed/generate_eeprom.py:24-26 | decoding the length-prefixed entries returns the strings and leaves the trailing bytes |
| SiiCategories.StringsRoundTrip | Ethercat/master/eeprom_writer_failed/generate_eeprom.py:23-29 | decoding the Strings payload returns the strings, and the payload has even length |
| SiiCategories.StringsPayloadPadding | Ethercat/master/eeprom_writer_failed/generate_eeprom.py:23-29 | the payload starts with the string count, and after the entries comes exactly one zero byte when count and entries have odd length, nothing otherwise |
| SiiCategories.GeneralRoundTrip | Ethercat/master/eeprom_writer_failed/generate_eeprom_v11.py:61-63 | the General payload decodes to the identity, with CoE off for the plain 16 bytes and on with the flag tail |
| SiiCategories.GeneralPayload | Ethercat/master/eeprom_writer_failed/generate_eeprom.py:37 | the identity takes exactly 16 bytes |
| SiiCategories.SyncManagerRecord | Ethercat/master/eeprom_writer_failed/generate_eeprom.py:43-49 | each SyncManager record is 8 bytes: start and length read back little-endian at 0 and 2, control at 4, then status 0, enable 1, PDI control 0 |
| SiiCategories.SyncManagerPayload | Ethercat/master/eeprom_writer_failed/generate_eeprom.py:45-63 | the SyncManager payload is 8 bytes per record |
| SiiCategories.SyncManagersRoundTrip | Ethercat/master/eeprom_writer_failed/generate_eeprom.py:45-66 | decoding the SyncManager payload returns the records (start, length, control) in order; the reader also demands status 0, enable 1, PDI control 0 in each record |
| SiiCategories.SyncManagersDecodeExact | Ethercat/master/eeprom_writer_failed/generate_eeprom.py:45-66 | the converse: every payload the reader accepts is exactly the encoding of the records it returns, fixed bytes included |
| SiiBuffer.WriteBytes | Ethercat/master/eeprom_writer_failed/generate_eeprom_v11.py:53 | the slice store changes the window to the data and nothing else in the buffer |
| SiiBuffer.WriteCategory | Ethercat/master/eeprom_writer_failed/generate_eeprom_v11.py:50-54 | the four lines per category leave its framing at the offset and return the offset just after the payload |
| SiiBuffer.WriteCategories | Ethercat/master/eeprom_writer_failed/generate_eeprom_v11.py:41-85 | three category writes and the End type word amount to one write of the encoded list and `FF FF` from the base |
| SiiBuffer.PlaceThree | Ethercat/master/eeprom_writer_failed/generate_eeprom_v11.py:121-144 | four successive slice stores equal one store of the concatenation |
| SiiBuffer.PlacedImageReads | Ethercat/master/eeprom_writer_failed/generate_eeprom_v7.py:30-76 | with categories past the header, the stored checksum is the header's; only byte 14 changes; the image passes the test and reads back as the categories |
| SiiBuffer.PlacedPdiHeader | Ethercat/master/eeprom_writer_failed/generate_eeprom_v6.py:32-86 | a header of 0x80 then zeros gets checksum 0x7F, and words 0-7 read 0x0080, six zero words, 0x007F |
| SiiBuffer.PlacedBlankHeader | Ethercat/master/eeprom_writer_failed/generate_eeprom_v4.py:72 | an all-zero header gets checksum 0xFF, so the constant 0xFF stored there is the right checksum |
| SiiBuffer.KeptHeaderBytes | Ethercat/master/eeprom_writer_failed/generate_eeprom_v3.py:31-77 | placing categories from byte 16 and storing the checksum leaves header bytes other than 14 unchanged |
| SiiAppend.PadWithZeros | Ethercat/master/eeprom_writer_failed/generate_eeprom.py:72-73 | the padding loop appends exactly enough zero bytes to reach n, and nothing when the image is already longer |
| SiiAppend.AppendThree | Ethercat/master/eeprom_writer_failed/generate_eeprom.py:32-69 | the appends of three categories and the End record amount to header + encoded categories + End record |
| SiiAppend.AppendedImage | Ethercat/master/eeprom_writer_failed/generate_eeprom.py:72-102 | for content of at most 128 bytes, as in both append scripts, the padded image is exactly 128 bytes; `PadWithZeros` states the general case |
| SiiAppend.AppendedImageReads | Ethercat/master/eeprom_writer_failed/generate_eeprom_v2.py:15-73 | with a header covering byte 14, the categories and End record follow it intact, the checksum is the header's, the image passes the test and reads back as the categories |
| SiiAppend.AppendedPdiHeader | Ethercat/master/eeprom_writer_failed/generate_eeprom_v2.py:21-22 | a 16-byte header of 0x80 then zeros gives words 0-7 of 0x0080, six zero words and 0x007F |
| RobotHandConfig.RobotPayloads | Ethercat/master/eeprom_writer_failed/generate_eeprom.py:23-66 | the robot hand's Strings payload is `02 09 "RobotHand" 04 "Main"` (16 bytes, no pad), the General payload begins `D8 04 00 00 01 00 00 00`, and the SyncManager payload is 32 bytes |
| RobotHandConfig.RobotPayloadSizes | Ethercat/master/eeprom_writer_failed/generate_eeprom.py:23-66 | payload sizes 16, 16 and 32 bytes |
| RobotHandConfig.RobotCategoryOrders | Ethercat/master/eeprom_writer_failed/generate_eeprom_v2.py:26-54 | each category order the scripts use encodes to 76 bytes, and 82 with the CoE flag tail |
| EepromV1.BuildEeprom | Ethercat/master/eeprom_writer_failed/generate_eeprom.py:14-104 | the script's image is the 8-byte header, the categories, the End record, zero padding to 128 and the checksum at byte 14 |
| EepromV1.ChecksumOverwritesName | Ethercat/master/eeprom_writer_failed/generate_eeprom.py:89-102 | byte 14 lies inside the Strings payload: the checksum 0x62 replaces the first letter, and the image reads back as "bobotHand", "Main" |
| EepromV1.AsWrittenChecksum | Ethercat/master/eeprom_writer_failed/generate_eeprom.py:89-102 | the script's checksum byte is 0x62 and the image passes the checksum test |
| EepromV1.AsWrittenHead | Ethercat/master/eeprom_writer_failed/generate_eeprom.py:17-33 | bytes 0..13 before the store are the 8-byte header, the Strings framing `0A 00 08 00` and the bytes `02 09` |
| EepromV1.AsWrittenHeadSum | Ethercat/master/eeprom_writer_failed/generate_eeprom.py:89-92 | those 14 bytes sum to 0x9D |
| EepromV1.BobotPayload | Ethercat/master/eeprom_writer_failed/generate_eeprom.py:23-26 | the Strings payload of "bobotHand", "Main" is the script's payload with byte 2 set to 0x62 |
| EepromV1.AsWrittenLayout | Ethercat/master/eeprom_writer_failed/generate_eeprom.py:14-73 | bytes 8..85 of the finished image are the encoding of the "bobotHand" categories and the End type |
| EepromV1.BobotEncoding | Ethercat/master/eeprom_writer_failed/generate_eeprom.py:23-33 | the "bobotHand" categories encode to the script's encoding with byte 6 set to 0x62 |
| EepromV1.EncodeFirstUpdate | Ethercat/master/eeprom_writer_failed/generate_eeprom.py:32-33 | changing payload byte j of the first category changes byte 4 + j of the encoding, and nothing else |
| EepromV1.CategoryBytesUpdate | Ethercat/master/eeprom_writer_failed/generate_eeprom.py:32-33 | changing payload byte j changes byte 4 + j of the framed category |
| EepromV1.BuildEepromWordHeader | Ethercat/master/eeprom_writer_failed/generate_eeprom.py:15-17 | with the 16-byte header the comment announces, the image has header 0x0080 / 0x007F, the categories at 16..95, a valid checksum, and reads back with "RobotHand" intact |
| EepromV1.WordHeaderKeepsNames | Ethercat/master/eeprom_writer_failed/generate_eeprom.py:15-17 | the same facts about the corrected image, stated on `AppendedImage` |
| EepromV1.StringsFollowWordHeader | Ethercat/master/eeprom_writer_failed/generate_eeprom.py:23-33 | in the corrected image bytes 20..35 are the Strings payload |
| EepromV2.BuildEeprom | Ethercat/master/eeprom_writer_failed/generate_eeprom_v2.py:15-73 | 16-byte header, General, SyncManager and Strings from byte 16, End record, zeros to 128, checksum 0x7F, reads back |
| EepromV2.LayoutFacts | Ethercat/master/eeprom_writer_failed/generate_eeprom_v2.py:15-73 | the same layout stated on `AppendedImage` |
| EepromV3.BuildEeprom | Ethercat/master/eeprom_writer_failed/generate_eeprom_v3.py:12-79 | 256 bytes: header 0x0080 / 0x007F, Strings, General and SyncManager at 16..93, zeros after, valid and readable |
| EepromV3.LayoutFacts | Ethercat/master/eeprom_writer_failed/generate_eeprom_v3.py:12-79 | the same layout stated on the header and the placed categories |
| EepromV4.BuildEeprom | Ethercat/master/eeprom_writer_failed/generate_eeprom_v4.py:11-74 | 256 bytes: zero header with 0xFF at byte 14, General first at byte 16, then SyncManager and Strings; the constant passes the checksum test |
| EepromV4.LayoutFacts | Ethercat/master/eeprom_writer_failed/generate_eeprom_v4.py:11-74 | the same layout stated on the header and the placed categories |
| EepromV5.BuildEeprom | Ethercat/master/eeprom_writer_failed/generate_eeprom_v5.py:11-73 | 256 bytes: zero header with 0xFF at byte 14, Strings, General and SyncManager at 16..93, valid and readable |
| EepromV5.LayoutFacts | Ethercat/master/eeprom_writer_failed/generate_eeprom_v5.py:11-73 | the same layout stated on the header and the placed categories |
| EepromV6.BuildEeprom | Ethercat/master/eeprom_writer_failed/generate_eeprom_v6.py:25-89 | 256 bytes: header 0x0080 / 0x007F, General first at byte 16, then Strings and SyncManager, valid and readable |
| EepromV6.LayoutFacts | Ethercat/master/eeprom_writer_failed/generate_eeprom_v6.py:25-89 | the same layout stated on the header and the placed categories |
| EepromV7.BuildEeprom | Ethercat/master/eeprom_writer_failed/generate_eeprom_v7.py:19-78 | 256 bytes: header 0x0080 / 0x007F, bytes 16..127 zero, General, Strings and SyncManager at 128..205, valid and readable from 128 |
| EepromV7.LayoutFacts | Ethercat/master/eeprom_writer_failed/generate_eeprom_v7.py:19-78 | the same layout stated on the header and the placed categories |
| EepromV8.BuildEeprom | Ethercat/master/eeprom_writer_failed/generate_eeprom_v8.py:25-89 | 256 bytes: header 0x0080 / 0x007F, bytes 16..127 zero, Strings, General and SyncManager at 128..205, valid and readable from 128 |
| EepromV8.LayoutFacts | Ethercat/master/eeprom_writer_failed/generate_eeprom_v8.py:25-89 | the same layout stated on the header and the placed categories |
| EepromV9Old.BuildEeprom | Ethercat/master/eeprom_writer_failed/generate_eeprom_v9_old.py:21-83 | 256 bytes: header 0x0080 / 0x007F, mailbox protocol word 0x0004 at bytes 56-57, categories at 128..205, valid and readable |
| EepromV9Old.LayoutFacts | Ethercat/master/eeprom_writer_failed/generate_eeprom_v9_old.py:21-83 | the same layout stated on the header and the placed categories |
| EepromV10.BuildEeprom | Ethercat/master/eeprom_writer_failed/generate_eeprom_v10.py:19-96 | 256 bytes: header 0x0080 / 0x007F, the mailbox words at 48-57, categories at 128..205, valid and readable |
| EepromV10.InitBuffer | Ethercat/master/eeprom_writer_failed/generate_eeprom_v10.py:21-50 | the fresh buffer holds PDI control, the mailbox words 0x18-0x1C and zeros elsewhere |
| EepromV10.MailboxBytes | Ethercat/master/eeprom_writer_failed/generate_eeprom_v10.py:32-50 | the ten byte stores equal one store of the mailbox words at 48 |
| EepromV10.LayoutFacts | Ethercat/master/eeprom_writer_failed/generate_eeprom_v10.py:19-96 | the same layout stated on the header and the placed categories |
| EepromV10.MailboxWordsMatchSyncManagers | Ethercat/master/eeprom_writer_failed/generate_eeprom_v10.py:32-50 | the mailbox words read back as the SM0 and SM1 start and length of the SyncManager category, and CoE as the protocol |
| EepromV11.BuildEeprom | Ethercat/master/eeprom_writer_failed/generate_eeprom_v11.py:21-161 | 256 bytes: header 0x0080 / 0x007F, second copy of the categories at 16..99, bytes 100..147 the stale tail of the first copy, CoE flag at 56, valid and readable from 16 |
| EepromV11.FirstPassFacts | Ethercat/master/eeprom_writer_failed/generate_eeprom_v11.py:41-85 | after the first pass the categories sit at 64..147 and the header is untouched |
| EepromV11.LayoutFacts | Ethercat/master/eeprom_writer_failed/generate_eeprom_v11.py:121-159 | the finished image stated on the first pass and the second copy placed over it |
| EepromV11.CoeFlagInRegion | Ethercat/master/eeprom_writer_failed/generate_eeprom_v11.py:61-63 | byte 40 of the category list is the CoE details flag 0x01 of the General payload |
| CanfdRouting.Inc32 | Canfd/motherboard/HandHrcH743_v2/Core/Src/canfd_utils.c:168 | `x++` on a `uint32_t`: one more below the maximum, and 0xFFFFFFFF wraps to 0 |
| CanfdRouting.NewMessage | Canfd/motherboard/HandHrcH743_v2/Core/Src/canfd_utils.c:152 | holds exactly when bit 0 (`FDCAN_IT_RX_FIFO0_NEW_MESSAGE`) of the interrupt flags is set, i.e. `its & 1 != 0` |
| CanfdRouting.StdId | Canfd/motherboard/HandHrcH743_v2/Core/Src/canfd_utils.c:170 | the standard ID is the low eleven bits and equals the identifier when it already fits |
| CanfdRouting.SlotIndex | Canfd/motherboard/HandHrcH743_v2/Core/Src/canfd_utils.c:180-183 | the slot is the PDO's motor_id when it is below 15, otherwise the ID's offset from the base; always below 15 |
| CanfdRouting.RxBuffer | Canfd/motherboard/HandHrcH743_v2/Core/Src/canfd_utils.c:160-164 | the 64-byte receive buffer holds the received bytes and zeros after them |
| CanfdRouting.LastRxOf | Canfd/motherboard/HandHrcH743_v2/Core/Src/canfd_utils.c:190-195 | the debug record keeps the standard ID, raw DLC, BRS and FD as 1/0, and the 64 data bytes |
| CanfdRouting.Receive | Canfd/motherboard/HandHrcH743_v2/Core/Src/canfd_utils.c:168-196 | one frame bumps the total; a PDO ID bumps the PDO count and replaces only its slot; any other ID bumps the other count, records the frame and sets pending |
| CanfdRouting.Drain | Canfd/motherboard/HandHrcH743_v2/Core/Src/canfd_utils.c:157-197 | the drain loop keeps the 15 motor slots; its frame-by-frame meaning (frames up to the first failed read, each through `Receive`) is proved in DrainTakesReads, DrainStopsAtError and DrainCountsFrames |
| CanfdRouting.DrainTakesReads | Canfd/motherboard/HandHrcH743_v2/Core/Src/canfd_utils.c:157-166 | the drain depends only on the reads before the first failed one, and changes nothing when the first read fails or the FIFO is empty |
| CanfdRouting.ReadsTaken | Canfd/motherboard/HandHrcH743_v2/Core/Src/canfd_utils.c:157-166 | the drain consumes exactly the successful reads before the first failing one |
| CanfdRouting.Inc32TimesWraps | Canfd/motherboard/HandHrcH743_v2/Core/Src/canfd_utils.c:168 | k increments of a `uint32_t` counter wrap modulo 2^32 |
| CanfdRouting.DrainCountsFrames | Canfd/motherboard/HandHrcH743_v2/Core/Src/canfd_utils.c:157-168 | draining the FIFO advances the total once per frame read |
| CanfdRouting.DrainAdvancesTotal | Canfd/motherboard/HandHrcH743_v2/Core/Src/canfd_utils.c:157-168 | the total after a drain is the old total plus the frames read, modulo 2^32 |
| CanfdRouting.DrainKeepsCountersAgree | Canfd/motherboard/HandHrcH743_v2/Core/Src/canfd_utils.c:168-189 | if total = PDO + other (mod 2^32) before a drain, it still holds after |
| CanfdRouting.DrainStopsAtError | Canfd/motherboard/HandHrcH743_v2/Core/Src/canfd_utils.c:164-166 | a failed read ends the callback: frames queued after it have no effect |
| CanfdRouting.DrainKeepsUntouchedSlot | Canfd/motherboard/HandHrcH743_v2/Core/Src/canfd_utils.c:180-184 | a slot that no drained PDO frame is routed to keeps its value |
| CanfdMotherboard.SendEmpty32 | Canfd/motherboard/HandHrcH743_v2/Core/Src/canfd_utils.c:87-104 | 32 zero bytes under the low eleven bits of `std_id` |
| CanfdMotherboard.RxPdoPayload | Canfd/motherboard/HandHrcH743_v2/Core/Src/canfd_utils.c:108-113 | 24 bytes whose motor_id is the argument; the rest is the given PDO's, or zeros for a null PDO |
| CanfdMotherboard.SendMotorRxPdo | Canfd/motherboard/HandHrcH743_v2/Core/Src/canfd_utils.c:106-127 | the ID is 0x300 plus the motor's low four bits; the payload is the RxPDO bytes |
| CanfdMotherboard.Motherboard.constructor | Canfd/motherboard/HandHrcH743_v2/Core/Src/canfd_utils.c:7-22 | counters, tick count and pending flag zero, slots zero, empty last frame |
| CanfdMotherboard.Motherboard.On1kHzTickISR | Canfd/motherboard/HandHrcH743_v2/Core/Src/canfd_utils.c:73-76 | the tick count grows by one, wrapping at 2^32 |
| CanfdMotherboard.Motherboard.Consume1kHzTicks | Canfd/motherboard/HandHrcH743_v2/Core/Src/canfd_utils.c:78-85 | returns the ticks counted so far and leaves the count at zero |
| CanfdMotherboard.Motherboard.RxPending | Canfd/motherboard/HandHrcH743_v2/Core/Src/canfd_utils.c:129-132 | reports the pending flag without changing anything |
| CanfdMotherboard.Motherboard.GetLastRx | Canfd/motherboard/HandHrcH743_v2/Core/Src/canfd_utils.c:134-148 | succeeds exactly when given a target and a frame is pending, then copies the last frame; the flag is cleared in every case |
| CanfdMotherboard.Motherboard.RxFifo0Callback | Canfd/motherboard/HandHrcH743_v2/Core/Src/canfd_utils.c:150-198 | without the new-message flag nothing changes; otherwise the board's state becomes `Drain` of the FIFO over the TxPDO ID range |
| CanfdSatellite.SendMotorTxPdo | Canfd/satelliteboard/HandHrcH743_v1/Core/Src/canfd_utils.c:76-94 | 48 bytes: the 40-byte PDO then zeros, under the low eleven bits of `std_id` |
| CanfdSatellite.Satellite.constructor | Canfd/satelliteboard/HandHrcH743_v1/Core/Src/canfd_utils.c:7-24 | flags and counters zero, slots zero, empty last frame |
| CanfdSatellite.Satellite.On1kHzTickISR | Canfd/satelliteboard/HandHrcH743_v1/Core/Src/canfd_utils.c:62-65 | sets the tick flag |
| CanfdSatellite.Satellite.Consume1kHzTick | Canfd/satelliteboard/HandHrcH743_v1/Core/Src/canfd_utils.c:67-74 | returns whether a tick was pending and clears the flag |
| CanfdSatellite.Satellite.RxPending | Canfd/satelliteboard/HandHrcH743_v1/Core/Src/canfd_utils.c:96-99 | reports the pending flag without changing anything |
| CanfdSatellite.Satellite.GetLastRx | Canfd/satelliteboard/HandHrcH743_v1/Core/Src/canfd_utils.c:101-115 | succeeds exactly when given a target and a frame is pending, then copies the last frame; the flag is cleared in every case |
| CanfdSatellite.Satellite.RxFifo0Callback | Canfd/satelliteboard/HandHrcH743_v1/Core/Src/canfd_utils.c:117-165 | without the new-message flag nothing changes; otherwise the board's state becomes `Drain` of the FIFO over the RxPDO ID range |
| CanfdLink.RxPdoReachesSatellite | Canfd/satelliteboard/HandHrcH743_v1/Core/Src/canfd_utils.c:140-153 | a command for motor m lands in slot m with its motor_id when m's low nibble is below 15; a low nibble of 15 gives ID 0x30F and the frame is handled as "other" |
| CanfdLink.TxPdoReachesMotherboard | Canfd/motherboard/HandHrcH743_v2/Core/Src/canfd_utils.c:173-186 | a TxPDO sent on a PDO ID lands in its motor_id slot, or in the ID's slot when motor_id is out of range; other IDs become the pending last frame |
| CanfdLink.Empty32ClearsSlotZero | Canfd/motherboard/HandHrcH743_v2/Core/Src/canfd_utils.c:87-104 | an empty frame sent on an RxPDO ID zeroes slot 0 of the satellite (motor_id 0) and leaves every other slot alone |
| Lan9252.ReadHeader | Ethercat/slave/HandHrcF446_v2/Core/Src/lan9252_test.c:39-41 | the read instruction 0x03 followed by the address, high byte first |
| Lan9252.AssembleLe | Ethercat/slave/HandHrcF446_v2/Core/Src/lan9252_test.c:55-58 | the four received bytes, least significant first: each byte lane of the value is the byte received there; inverse of WriteFrame's data bytes (WriteDataRoundTrip, ReceivedBytesRoundTrip) |
| Lan9252.WriteFrame | Ethercat/slave/HandHrcF446_v2/Core/Src/lan9252_test.c:71-79 | seven bytes: 0x02, the address as for a read, then the value |
| Lan9252.WriteDataRoundTrip | Ethercat/slave/HandHrcF446_v2/Core/Src/lan9252_test.c:76-79 | assembling the four data bytes of a write frame gives back the written value |
| Lan9252.ReceivedBytesRoundTrip | Ethercat/slave/HandHrcF446_v2/Core/Src/lan9252_test.c:55-58 | writing back an assembled value sends the same four bytes that were received |
| Lan9252.ReadStatus | Ethercat/slave/HandHrcF446_v2/Core/Src/lan9252_test.c:45-52 | a read succeeds exactly when both transfers do; a failed transmit's status is returned as is |
| Lan9252.ReadValue | Ethercat/slave/HandHrcF446_v2/Core/Src/lan9252_test.c:52-58 | a successful read yields the little-endian value; a failed one leaves the caller's variable as it was |
| Lan9252.ReadWire | Ethercat/slave/HandHrcF446_v2/Core/Src/lan9252_test.c:43-50 | a read selects the chip, sends the header and ends with the chip deselected |
| Lan9252.FirstPass | Ethercat/slave/HandHrcF446_v2/Core/Src/lan9252_test.c:101-117 | the index of the first read that returns BYTE_TEST, or the count when none does |
| Lan9252.Lan9252Port.SelectChip | Ethercat/slave/HandHrcF446_v2/Core/Src/lan9252_test.c:17 | CS goes low |
| Lan9252.Lan9252Port.DeselectChip | Ethercat/slave/HandHrcF446_v2/Core/Src/lan9252_test.c:18 | CS goes high |
| Lan9252.Lan9252Port.ResetPulse | Ethercat/slave/HandHrcF446_v2/Core/Src/lan9252_test.c:21-30 | CS high, then reset low and high |
| Lan9252.Lan9252Port.Read32 | Ethercat/slave/HandHrcF446_v2/Core/Src/lan9252_test.c:34-64 | returns the status and value of `ReadStatus`/`ReadValue`; the bus sees the read's events and CS ends high |
| Lan9252.Lan9252Port.Write32 | Ethercat/slave/HandHrcF446_v2/Core/Src/lan9252_test.c:67-86 | sends the write frame between CS low and CS high and returns the transmit status |
| Lan9252.Lan9252Port.ProofOfLife | Ethercat/slave/HandHrcF446_v2/Core/Src/lan9252_test.c:90-120 | after a reset, reads BYTE_TEST until the first read that returns 0x87654321, at most 20 times; passes exactly when one of the first 20 does |
| Lan9252.Lan9252Port.WriteReadbackTest | Ethercat/slave/HandHrcF446_v2/Core/Src/lan9252_test.c:123-147 | the verdict as written: the last value read into `rd` equals `orig`, with both kept at their old values across failed reads; the bus sees read, write of `orig ^ 1`, read, write of `orig`, read |
| Lan9252.Lan9252Port.CheckedWriteReadbackTest | Ethercat/slave/HandHrcF446_v2/Core/Src/lan9252_test.c:123-147 | the corrected verdict: every read succeeds, the read after the first write returns `orig ^ 1`, and the final read returns `orig`; same bus traffic |
| Lan9252.CheckedTestIsStricter | Ethercat/slave/HandHrcF446_v2/Core/Src/lan9252_test.c:143-146 | whenever the corrected test passes, the test as written passes too |
| Lan9252.CheckedTestSeesWrite | Ethercat/slave/HandHrcF446_v2/Core/Src/lan9252_test.c:131-134 | a corrected pass shows the register took the write: the second value differs from the first, in bit 0 only |
| Lan9252.FlipBit0 | Ethercat/slave/HandHrcF446_v2/Core/Src/lan9252_test.c:131 | `orig ^ 1` has the opposite bit 0 |
| Lan9252.FlipBit0KeepsOtherBits | Ethercat/slave/HandHrcF446_v2/Core/Src/lan9252_test.c:131 | `orig ^ 1` keeps bits 1..31 |
| Lan9252.FlippedDiffersInBit0Only | Ethercat/slave/HandHrcF446_v2/Core/Src/lan9252_test.c:131 | the flipped value differs from the original, in bit 0 only |
| Lan9252.DeadLinkPassesUncheckedTest | Ethercat/slave/HandHrcF446_v2/Core/Src/lan9252_test.c:127-146 | with every read failing, `orig` and `rd` stay 0 and the test as written passes; the corrected test fails |
| Lan9252.IgnoredWritePassesUncheckedTest | Ethercat/slave/HandHrcF446_v2/Core/Src/lan9252_test.c:131-146 | a register that ignores writes and always reads the same value passes the test as written; the corrected test fails |

## Left out

- `__main__` blocks, file output and `print` of the scripts: I/O. The builders return the image.
- `struct.error` and `bytearray` `ValueError` for out-of-range values: the robot hand's constants are all in range. The one data-dependent failure, a string or string count above 255, is modelled as `None` in `SiiCategories.BuildStringsPayload`.
- EepromV1.BuildEeprom: the `len(eeprom) < 16` extension before the checksum store is dead code. The padding loop has already made the image 128 bytes long.
- SiiChecksum.CalculateChecksum: the inline checksum loop of `generate_eeprom_v3.py` and the differently written but equal formulas of the other scripts all map to this one method. `SiiChecksum.ChecksumUnique` shows they compute the same byte.
- SiiBuffer.WriteCategories: the scripts compute each payload just before its write, while the model computes the pure payloads first. Only the order of evaluation differs.
- The CRC-8 header checksum of the EtherCAT standard is not modelled. The scripts use an additive checksum, and the model follows the scripts.
- The reference reader `SiiCategories.ReadImage` reports a missing End marker, a malformed category and a checksum mismatch. It does not reject duplicate categories. The scripts contain no reader, so the reader is only a partner definition for the round trips.
- `CANFD_Utils_Init` and the HAL filter, interrupt and start calls: this is hardware configuration with no state the rest of the file reads.
- The `__clang__` stub branch of the motherboard file: editor-only code that is not built into the firmware.
- CanfdMotherboard.Motherboard.RxFifo0Callback, CanfdSatellite.Satellite.RxFifo0Callback: the interrupt and the main loop are treated as taking turns. Interleaving between them on the `volatile` statics is not modelled.
- The `float` fields of the PDO structs are opaque bytes. The raw DLC code of a received frame is an opaque parameter.
- FIFO fill level: the end of the `RxRead` list stands for `HAL_FDCAN_GetRxFifoFillLevel` reaching 0.
- CanfdMotherboard.SendEmpty32, CanfdMotherboard.SendMotorRxPdo, CanfdSatellite.SendMotorTxPdo: these model the frame that is queued, not `HAL_FDCAN_AddMessageToTxFifoQ`'s status or the boolean returned from it.
- `HAL_Delay` and every `printf` of `lan9252_test.c`: timing and console output.
- Lan9252.Lan9252Port.ProofOfLife: the SPI results are supplied as at least 20 `ReadOutcome`s. Only as many are consumed as the loop performs.
- Lan9252.Lan9252Port.WriteReadbackTest, Lan9252.Lan9252Port.ProofOfLife: both C functions are `void` and only print PASS or FAIL; the model returns that verdict as a boolean (`passed`) instead.
- The context files (`MerlinEthercatMaster.py`, `test_master.py`, `esc_hw.c`, `esc_sheet.c`, `soes_test.c`, `retarget.c`) are not part of this model.

## Findings

| source | as written | input that shows it | evidently intended | confidence | as-written member | corrected member |
|---|---|---|---|---|---|---|
| Ethercat/master/eeprom_writer_failed/generate_eeprom.py:17 | the header is 8 bytes, so the Strings category starts at byte 8 and byte 14 is the first letter of "RobotHand"; the checksum store at byte 14 writes 0x62 over it | `build_eeprom()` (no input): the image reads back with the device name "bobotHand" | a 16-byte header (words 0-7, as the comment on line 15 says), categories from byte 16, names intact | not executed | EepromV1.ChecksumOverwritesName | EepromV1.WordHeaderKeepsNames |
| Ethercat/slave/HandHrcF446_v2/Core/Src/lan9252_test.c:143 | PASS when the final read equals `orig`, with no status checked and the read after the first write never compared | every SPI read fails: `orig` and `rd` both stay 0 and the test passes; or a register that ignores writes and always reads the same value | PASS only when every read succeeds, the first readback is `orig ^ 1` and the final one is `orig` | not executed | Lan9252.DeadLinkPassesUncheckedTest | Lan9252.Lan9252Port.CheckedWriteReadbackTest |
