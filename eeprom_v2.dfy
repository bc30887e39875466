/**
 * `generate_eeprom_v2.py`: the image is appended to a 16-byte header
 * (PDI control 0x0080 in word 0): the General, SyncManager and Strings
 * categories, the End record, zero padding to 128 bytes, and the header
 * checksum in byte 14.
 */
module EepromV2 {
  import opened Wrappers
  import opened Bytes
  import opened SiiChecksum
  import opened SiiCategories
  import opened SiiAppend
  import opened RobotHandConfig

  /** Words 0-7: PDI control 0x0080, everything else zero until the checksum is stored. */
  const HEADER: seq<byte> := [0x80, 0x00, 0x00, 0x00, 0x00, 0x00, 0x00, 0x00] + [0x00, 0x00, 0x00, 0x00, 0x00, 0x00, 0x00, 0x00]

  /** `build_eeprom()` */
  method BuildEeprom() returns (eeprom: seq<byte>)
    ensures AllWellFormed(GENERAL_SM_STRINGS) && |EncodeCategories(GENERAL_SM_STRINGS)| == 76
    ensures eeprom == AppendedImage(HEADER, GENERAL_SM_STRINGS)
    ensures eeprom[..16] == [0x80, 0x00, 0, 0, 0, 0, 0, 0, 0, 0, 0, 0, 0, 0, 0x7F, 0x00]
    ensures eeprom[16..96] == EncodeCategories(GENERAL_SM_STRINGS) + END_RECORD
    ensures eeprom[96..] == Zeros(MIN_IMAGE_SIZE - 96)
    ensures ChecksumValid(eeprom)
    ensures ReadImage(eeprom, |HEADER|) == Success(GENERAL_SM_STRINGS)
  {
    eeprom := [0x80, 0x00, 0x00, 0x00, 0x00, 0x00, 0x00, 0x00];
    eeprom := eeprom + [0x00, 0x00, 0x00, 0x00, 0x00, 0x00, 0x00, 0x00];

    assert StringsFit(ROBOT_STRINGS) by { RobotPayloads(); }
    RobotCategoryOrders();
    var genData := GeneralPayload(ROBOT_IDENTITY);
    eeprom := eeprom + (U16Le(GENERAL) + U16Le(|genData| / 2));
    eeprom := eeprom + genData;

    var smData := SyncManagerPayload(ROBOT_SYNC_MANAGERS);
    eeprom := eeprom + (U16Le(SYNC_MANAGER) + U16Le(|smData| / 2));
    eeprom := eeprom + smData;

    var strData := BuildStringsPayload(ROBOT_STRINGS);
    eeprom := eeprom + (U16Le(STRINGS) + U16Le(|strData.value| / 2));
    eeprom := eeprom + strData.value;

    eeprom := eeprom + (U16Le(END) + U16Le(0));
    AppendThree(HEADER, GENERAL_CATEGORY, SYNC_MANAGER_CATEGORY, STRINGS_CATEGORY);
    assert eeprom == HEADER + EncodeCategories(GENERAL_SM_STRINGS) + END_RECORD;

    eeprom := PadWithZeros(eeprom, MIN_IMAGE_SIZE);
    var checksum := CalculateChecksum(eeprom);
    eeprom := eeprom[CHECKSUM_OFFSET := checksum];
    LayoutFacts();
  }

  /** The finished image, stated on the appended image of this header and order. */
  lemma LayoutFacts()
    ensures AllWellFormed(GENERAL_SM_STRINGS) && |EncodeCategories(GENERAL_SM_STRINGS)| == 76
    ensures var image := AppendedImage(HEADER, GENERAL_SM_STRINGS);
            && image[..16] == [0x80, 0x00, 0, 0, 0, 0, 0, 0, 0, 0, 0, 0, 0, 0, 0x7F, 0x00]
            && image[16..96] == EncodeCategories(GENERAL_SM_STRINGS) + END_RECORD
            && image[96..] == Zeros(MIN_IMAGE_SIZE - 96)
            && ChecksumValid(image)
            && ReadImage(image, |HEADER|) == Success(GENERAL_SM_STRINGS)
  {
    RobotCategoryOrders();
    AppendedImageReads(HEADER, GENERAL_SM_STRINGS);
    AppendedPdiHeader(HEADER, GENERAL_SM_STRINGS);
  }
}
