/**
 * `generate_eeprom_v8.py`: a 256-byte image with PDI control 0x0080 in word 0,
 * bytes 16..127 left zero, the Strings, General and SyncManager categories
 * from byte 128, the End type word after them, and the header checksum in
 * byte 14. No PDO category is written.
 */
module EepromV8 {
  import opened Wrappers
  import opened Bytes
  import opened SiiChecksum
  import opened SiiCategories
  import opened SiiBuffer
  import opened RobotHandConfig

  /** Where the first category starts. */
  const CATEGORY_BASE: nat := 128

  /** The buffer before any category is written: word 0 = 0x0080, the rest zero. */
  const HEADER: seq<byte> := [0x80, 0x00] + Zeros(IMAGE_SIZE - 2)

  /** `build_eeprom()` */
  method BuildEeprom() returns (image: seq<byte>)
    ensures AllWellFormed(STRINGS_GENERAL_SM) && |image| == IMAGE_SIZE
    ensures image[..16] == [0x80, 0x00, 0, 0, 0, 0, 0, 0, 0, 0, 0, 0, 0, 0, 0x7F, 0x00]
    ensures image[16..CATEGORY_BASE] == Zeros(CATEGORY_BASE - 16)
    ensures image[CATEGORY_BASE..206] == EncodeCategories(STRINGS_GENERAL_SM) + END_TYPE
    ensures image[206..] == Zeros(IMAGE_SIZE - 206)
    ensures ChecksumValid(image)
    ensures ReadImage(image, CATEGORY_BASE) == Success(STRINGS_GENERAL_SM)
  {
    var eeprom := new byte[IMAGE_SIZE](_ => 0);
    eeprom[0] := 0x80;
    eeprom[1] := 0x00;
    assert eeprom[..] == HEADER;

    RobotPayloadSizes();
    RobotCategoryOrders();
    var strData := BuildStringsPayload(ROBOT_STRINGS);
    var offset := WriteCategories(eeprom, CATEGORY_BASE,
      Category(STRINGS, strData.value),
      Category(GENERAL, GeneralPayload(ROBOT_IDENTITY)),
      Category(SYNC_MANAGER, SyncManagerPayload(ROBOT_SYNC_MANAGERS)));

    var checksum := CalculateChecksum(eeprom[..]);
    eeprom[CHECKSUM_OFFSET] := checksum;
    image := eeprom[..];
    LayoutFacts();
  }

  /** The finished image, stated on the header and the categories placed over it. */
  lemma LayoutFacts()
    ensures AllWellFormed(STRINGS_GENERAL_SM) && |EncodeCategories(STRINGS_GENERAL_SM)| == 76
    ensures var placed := Splice(HEADER, CATEGORY_BASE, EncodeCategories(STRINGS_GENERAL_SM) + END_TYPE);
            var image := placed[CHECKSUM_OFFSET := ChecksumFor(placed)];
            && |image| == IMAGE_SIZE
            && image[..16] == [0x80, 0x00, 0, 0, 0, 0, 0, 0, 0, 0, 0, 0, 0, 0, 0x7F, 0x00]
            && image[16..CATEGORY_BASE] == Zeros(CATEGORY_BASE - 16)
            && image[CATEGORY_BASE..206] == EncodeCategories(STRINGS_GENERAL_SM) + END_TYPE
            && image[206..] == Zeros(IMAGE_SIZE - 206)
            && ChecksumValid(image)
            && ReadImage(image, CATEGORY_BASE) == Success(STRINGS_GENERAL_SM)
  {
    RobotCategoryOrders();
    PlacedImageReads(HEADER, CATEGORY_BASE, STRINGS_GENERAL_SM);
    PlacedPdiHeader(HEADER, CATEGORY_BASE, STRINGS_GENERAL_SM);
  }
}
