/**
 * `generate_eeprom_v4.py`: a 256-byte image whose header words 0-7 stay zero,
 * the General, SyncManager and Strings categories from byte 16, the End type
 * word after them, and byte 14 set to the constant 0xFF.
 */
module EepromV4 {
  import opened Wrappers
  import opened Bytes
  import opened SiiChecksum
  import opened SiiCategories
  import opened SiiBuffer
  import opened RobotHandConfig

  /** Where the first category starts. */
  const CATEGORY_BASE: nat := 16

  /** The buffer before any category is written: all zero. */
  const HEADER: seq<byte> := Zeros(IMAGE_SIZE)

  /** `build_eeprom()` */
  method BuildEeprom() returns (image: seq<byte>)
    ensures AllWellFormed(GENERAL_SM_STRINGS) && |image| == IMAGE_SIZE
    ensures image[..16] == [0, 0, 0, 0, 0, 0, 0, 0, 0, 0, 0, 0, 0, 0, 0xFF, 0x00]
    ensures image[CATEGORY_BASE..94] == EncodeCategories(GENERAL_SM_STRINGS) + END_TYPE
    ensures image[94..] == Zeros(IMAGE_SIZE - 94)
    ensures U16At(image, CATEGORY_BASE) == GENERAL
    ensures ChecksumValid(image)
    ensures ReadImage(image, CATEGORY_BASE) == Success(GENERAL_SM_STRINGS)
  {
    var eeprom := new byte[IMAGE_SIZE](_ => 0);
    assert eeprom[..] == HEADER;

    RobotPayloadSizes();
    RobotCategoryOrders();
    var strData := BuildStringsPayload(ROBOT_STRINGS);
    var offset := WriteCategories(eeprom, CATEGORY_BASE,
      Category(GENERAL, GeneralPayload(ROBOT_IDENTITY)),
      Category(SYNC_MANAGER, SyncManagerPayload(ROBOT_SYNC_MANAGERS)),
      Category(STRINGS, strData.value));

    eeprom[CHECKSUM_OFFSET] := 0xFF;
    image := eeprom[..];
    LayoutFacts();
  }

  /** The finished image, stated on the header and the categories placed over it. */
  lemma LayoutFacts()
    ensures AllWellFormed(GENERAL_SM_STRINGS) && |EncodeCategories(GENERAL_SM_STRINGS)| == 76
    ensures var placed := Splice(HEADER, CATEGORY_BASE, EncodeCategories(GENERAL_SM_STRINGS) + END_TYPE);
            var image := placed[CHECKSUM_OFFSET := ChecksumFor(placed)];
            && |image| == IMAGE_SIZE
            && image[..16] == [0, 0, 0, 0, 0, 0, 0, 0, 0, 0, 0, 0, 0, 0, 0xFF, 0x00]
            && image[CATEGORY_BASE..94] == EncodeCategories(GENERAL_SM_STRINGS) + END_TYPE
            && image[94..] == Zeros(IMAGE_SIZE - 94)
            && U16At(image, CATEGORY_BASE) == GENERAL
            && ChecksumValid(image)
            && ReadImage(image, CATEGORY_BASE) == Success(GENERAL_SM_STRINGS)
  {
    RobotCategoryOrders();
    PlacedImageReads(HEADER, CATEGORY_BASE, GENERAL_SM_STRINGS);
    PlacedBlankHeader(HEADER, CATEGORY_BASE, GENERAL_SM_STRINGS);
  }
}
