/**
 * `generate_eeprom_v3.py`: a 256-byte image with PDI control 0x0080 in word 0,
 * the Strings, General and SyncManager categories from byte 16 (word 8), the
 * End type word after them, and the header checksum in byte 14.
 */
module EepromV3 {
  import opened Wrappers
  import opened Bytes
  import opened SiiChecksum
  import opened SiiCategories
  import opened SiiBuffer
  import opened RobotHandConfig

  /** Where the first category starts. */
  const CATEGORY_BASE: nat := 16

  /** The buffer before any category is written: word 0 = 0x0080, the rest zero. */
  const HEADER: seq<byte> := [0x80, 0x00] + Zeros(IMAGE_SIZE - 2)

  /** `build_eeprom()` */
  method BuildEeprom() returns (image: seq<byte>)
    ensures AllWellFormed(STRINGS_GENERAL_SM) && |image| == IMAGE_SIZE
    ensures image[..CATEGORY_BASE] == [0x80, 0x00, 0, 0, 0, 0, 0, 0, 0, 0, 0, 0, 0, 0, 0x7F, 0x00]
    ensures image[CATEGORY_BASE..94] == EncodeCategories(STRINGS_GENERAL_SM) + END_TYPE
    ensures image[94..] == Zeros(IMAGE_SIZE - 94)
    ensures ChecksumValid(image)
    ensures ReadImage(image, CATEGORY_BASE) == Success(STRINGS_GENERAL_SM)
  {
    var eeprom := new byte[IMAGE_SIZE](_ => 0);
    eeprom[0] := 0x80;
    eeprom[1] := 0x00;
    assert eeprom[..] == HEADER;

    RobotPayloadSizes();
    RobotCategoryOrders();
    var strData := BuildStringsPayload(ROBOT_STRINGS);
    var catOffset := WriteCategories(eeprom, CATEGORY_BASE,
      Category(STRINGS, strData.value),
      Category(GENERAL, GeneralPayload(ROBOT_IDENTITY)),
      Category(SYNC_MANAGER, SyncManagerPayload(ROBOT_SYNC_MANAGERS)));

    var checksum := CalculateChecksum(eeprom[..]);
    eeprom[CHECKSUM_OFFSET] := checksum;
    image := eeprom[..];
    LayoutFacts();
  }

  /** The layout of the finished image, as a fact about the header and the placed categories. */
  lemma LayoutFacts()
    ensures AllWellFormed(STRINGS_GENERAL_SM) && |EncodeCategories(STRINGS_GENERAL_SM)| == 76
    ensures var placed := Splice(HEADER, CATEGORY_BASE, EncodeCategories(STRINGS_GENERAL_SM) + END_TYPE);
            var image := placed[CHECKSUM_OFFSET := ChecksumFor(placed)];
            && image[..CATEGORY_BASE] == [0x80, 0x00, 0, 0, 0, 0, 0, 0, 0, 0, 0, 0, 0, 0, 0x7F, 0x00]
            && image[CATEGORY_BASE..94] == EncodeCategories(STRINGS_GENERAL_SM) + END_TYPE
            && image[94..] == Zeros(IMAGE_SIZE - 94)
            && ChecksumValid(image)
            && ReadImage(image, CATEGORY_BASE) == Success(STRINGS_GENERAL_SM)
  {
    RobotCategoryOrders();
    PlacedImageReads(HEADER, CATEGORY_BASE, STRINGS_GENERAL_SM);
    PlacedPdiHeader(HEADER, CATEGORY_BASE, STRINGS_GENERAL_SM);
  }
}
