/**
 * `generate_eeprom_v9_old.py`: a 256-byte image with PDI control 0x0080 in
 * word 0, the mailbox protocol word 0x1C (bytes 56-57) set to 0x0004 (CoE),
 * the Strings, General and SyncManager categories from byte 128, the End type
 * word after them, and the header checksum in byte 14.
 */
module EepromV9Old {
  import opened Wrappers
  import opened Bytes
  import opened SiiChecksum
  import opened SiiCategories
  import opened SiiBuffer
  import opened RobotHandConfig

  /** Where the first category starts. */
  const CATEGORY_BASE: nat := 128

  /** The mailbox protocol bit for CoE. */
  const COE_PROTOCOL: u16 := 0x0004

  /** The buffer before any category is written: word 0 = 0x0080, word 0x1C = 0x0004, the rest zero. */
  const HEADER: seq<byte> := [0x80, 0x00] + Zeros(54) + [0x04, 0x00] + Zeros(IMAGE_SIZE - 58)

  /** `build_eeprom()` */
  method BuildEeprom() returns (image: seq<byte>)
    ensures AllWellFormed(STRINGS_GENERAL_SM) && |image| == IMAGE_SIZE
    ensures image[..16] == [0x80, 0x00, 0, 0, 0, 0, 0, 0, 0, 0, 0, 0, 0, 0, 0x7F, 0x00]
    ensures image[16..CATEGORY_BASE] == Zeros(40) + [0x04, 0x00] + Zeros(70)
    ensures image[CATEGORY_BASE..206] == EncodeCategories(STRINGS_GENERAL_SM) + END_TYPE
    ensures image[206..] == Zeros(IMAGE_SIZE - 206)
    ensures U16At(image, 56) == COE_PROTOCOL
    ensures ChecksumValid(image)
    ensures ReadImage(image, CATEGORY_BASE) == Success(STRINGS_GENERAL_SM)
  {
    var eeprom := new byte[IMAGE_SIZE](_ => 0);
    eeprom[0] := 0x80;
    eeprom[1] := 0x00;
    eeprom[56] := 0x04;
    eeprom[57] := 0x00;
    assert eeprom[..] == HEADER;

    RobotPayloadSizes();
    RobotCategoryOrders();
    var strData := BuildStringsPayload(ROBOT_STRINGS);
    var offset := WriteCategories(eeprom, CATEGORY_BASE,
      Category(STRINGS, strData.value),
      Category(GENERAL, GeneralPayload(ROBOT_IDENTITY)),
      Category(SYNC_MANAGER, SyncManagerPayload(ROBOT_SYNC_MANAGERS)));

    var checksum := CalculateChecksum(eeprom[..]);
    eeprom[CHECKSUM_OFFSET] := checksum;
    image := eeprom[..];
    LayoutFacts();
  }

  /** The finished image, stated on the header and the categories placed over it. */
  lemma LayoutFacts()
    ensures AllWellFormed(STRINGS_GENERAL_SM) && |EncodeCategories(STRINGS_GENERAL_SM)| == 76
    ensures var placed := Splice(HEADER, CATEGORY_BASE, EncodeCategories(STRINGS_GENERAL_SM) + END_TYPE);
            var image := placed[CHECKSUM_OFFSET := ChecksumFor(placed)];
            && |image| == IMAGE_SIZE
            && image[..16] == [0x80, 0x00, 0, 0, 0, 0, 0, 0, 0, 0, 0, 0, 0, 0, 0x7F, 0x00]
            && image[16..CATEGORY_BASE] == Zeros(40) + [0x04, 0x00] + Zeros(70)
            && image[CATEGORY_BASE..206] == EncodeCategories(STRINGS_GENERAL_SM) + END_TYPE
            && image[206..] == Zeros(IMAGE_SIZE - 206)
            && U16At(image, 56) == COE_PROTOCOL
            && ChecksumValid(image)
            && ReadImage(image, CATEGORY_BASE) == Success(STRINGS_GENERAL_SM)
  {
    RobotCategoryOrders();
    PlacedImageReads(HEADER, CATEGORY_BASE, STRINGS_GENERAL_SM);
    PlacedPdiHeader(HEADER, CATEGORY_BASE, STRINGS_GENERAL_SM);
  }
}
