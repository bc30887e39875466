/**
 * `generate_eeprom_v11.py`: a 256-byte image with PDI control 0x0080 in word 0.
 * The categories (Strings, General with the CoE flag bytes, SyncManager) and
 * the End type word are written twice: first from byte 64, then again from
 * byte 16 over the first copy. The second list ends at byte 100; bytes
 * 100..147 keep the tail of the first copy, and the header checksum is stored
 * in byte 14.
 */
module EepromV11 {
  import opened Wrappers
  import opened Bytes
  import opened SiiChecksum
  import opened SiiCategories
  import opened SiiBuffer
  import opened RobotHandConfig

  /** Where the first copy of the categories starts. */
  const FIRST_PASS_BASE: nat := 64

  /** Where the second, final copy of the categories starts. */
  const CATEGORY_BASE: nat := 16

  /** The buffer before any category is written: word 0 = 0x0080, the PDI configuration word zero, the rest zero. */
  const HEADER: seq<byte> := [0x80, 0x00, 0x00, 0x00] + Zeros(IMAGE_SIZE - 4)

  /** `build_eeprom()` */
  method BuildEeprom() returns (image: seq<byte>)
    ensures AllWellFormed(STRINGS_GENERAL_COE_SM) && |image| == IMAGE_SIZE
    ensures image[..16] == [0x80, 0x00, 0, 0, 0, 0, 0, 0, 0, 0, 0, 0, 0, 0, 0x7F, 0x00]
    ensures image[CATEGORY_BASE..100] == EncodeCategories(STRINGS_GENERAL_COE_SM) + END_TYPE
    ensures image[100..148] == (EncodeCategories(STRINGS_GENERAL_COE_SM) + END_TYPE)[36..]
    ensures image[148..] == Zeros(IMAGE_SIZE - 148)
    ensures image[56] == 0x01
    ensures ChecksumValid(image)
    ensures ReadImage(image, CATEGORY_BASE) == Success(STRINGS_GENERAL_COE_SM)
  {
    var eeprom := new byte[IMAGE_SIZE](_ => 0);
    eeprom[0] := 0x80;
    eeprom[1] := 0x00;
    eeprom[2] := 0x00;
    eeprom[3] := 0x00;
    assert eeprom[..] == HEADER;

    RobotPayloadSizes();
    RobotCategoryOrders();
    var strData := BuildStringsPayload(ROBOT_STRINGS);
    var genData := GeneralPayload(ROBOT_IDENTITY) + COE_FLAG_TAIL;
    var offset := WriteCategories(eeprom, FIRST_PASS_BASE,
      Category(STRINGS, strData.value),
      Category(GENERAL, genData),
      Category(SYNC_MANAGER, SyncManagerPayload(ROBOT_SYNC_MANAGERS)));
    ghost var firstPass := eeprom[..];

    offset := WriteCategories(eeprom, CATEGORY_BASE,
      Category(STRINGS, strData.value),
      Category(GENERAL, genData),
      Category(SYNC_MANAGER, SyncManagerPayload(ROBOT_SYNC_MANAGERS)));

    var checksum := CalculateChecksum(eeprom[..]);
    eeprom[CHECKSUM_OFFSET] := checksum;
    image := eeprom[..];
    LayoutFacts();
  }

  /** The image after the first pass: the categories and End type word at byte 64 over the header. */
  lemma FirstPassFacts()
    ensures AllWellFormed(STRINGS_GENERAL_COE_SM) && |EncodeCategories(STRINGS_GENERAL_COE_SM)| == 82
    ensures var region := EncodeCategories(STRINGS_GENERAL_COE_SM) + END_TYPE;
            var firstPass := Splice(HEADER, FIRST_PASS_BASE, region);
            && firstPass[..16] == HEADER[..16]
            && firstPass[100..148] == region[36..]
            && firstPass[148..] == Zeros(IMAGE_SIZE - 148)
  {
    RobotCategoryOrders();
    var region := EncodeCategories(STRINGS_GENERAL_COE_SM) + END_TYPE;
    var firstPass := Splice(HEADER, FIRST_PASS_BASE, region);
    assert firstPass[100..148] == firstPass[FIRST_PASS_BASE..148][36..];
  }

  /** The finished image, stated on the first pass and the categories placed over it. */
  lemma LayoutFacts()
    ensures AllWellFormed(STRINGS_GENERAL_COE_SM) && |EncodeCategories(STRINGS_GENERAL_COE_SM)| == 82
    ensures var region := EncodeCategories(STRINGS_GENERAL_COE_SM) + END_TYPE;
            var firstPass := Splice(HEADER, FIRST_PASS_BASE, region);
            var placed := Splice(firstPass, CATEGORY_BASE, region);
            var image := placed[CHECKSUM_OFFSET := ChecksumFor(placed)];
            && |image| == IMAGE_SIZE
            && image[..16] == [0x80, 0x00, 0, 0, 0, 0, 0, 0, 0, 0, 0, 0, 0, 0, 0x7F, 0x00]
            && image[CATEGORY_BASE..100] == region
            && image[100..148] == region[36..]
            && image[148..] == Zeros(IMAGE_SIZE - 148)
            && image[56] == 0x01
            && ChecksumValid(image)
            && ReadImage(image, CATEGORY_BASE) == Success(STRINGS_GENERAL_COE_SM)
  {
    RobotCategoryOrders();
    FirstPassFacts();
    var region := EncodeCategories(STRINGS_GENERAL_COE_SM) + END_TYPE;
    var firstPass := Splice(HEADER, FIRST_PASS_BASE, region);
    PlacedImageReads(firstPass, CATEGORY_BASE, STRINGS_GENERAL_COE_SM);
    assert firstPass[0] == 0x80 && forall i :: 1 <= i < 16 ==> firstPass[i] == 0 by {
      forall i | 0 <= i < 16 ensures firstPass[i] == HEADER[i] {
        assert firstPass[i] == firstPass[..16][i];
      }
    }
    PlacedPdiHeader(firstPass, CATEGORY_BASE, STRINGS_GENERAL_COE_SM);
    var placed := Splice(firstPass, CATEGORY_BASE, region);
    var image := placed[CHECKSUM_OFFSET := ChecksumFor(placed)];
    CoeFlagInRegion();
    assert image[56] == image[CATEGORY_BASE..100][40];
  }

  /**
   * Byte 40 of the categories lies in the General payload (bytes 24..45 of
   * the encoding): its 17th byte, the CoE flag 0x01.
   */
  lemma CoeFlagInRegion()
    ensures AllWellFormed(STRINGS_GENERAL_COE_SM) && |EncodeCategories(STRINGS_GENERAL_COE_SM)| == 82
    ensures (EncodeCategories(STRINGS_GENERAL_COE_SM) + END_TYPE)[40] == 0x01
  {
    RobotCategoryOrders();
    var region := EncodeCategories(STRINGS_GENERAL_COE_SM) + END_TYPE;
    EncodeThree(STRINGS_CATEGORY, GENERAL_COE_CATEGORY, SYNC_MANAGER_CATEGORY);
    var general := CategoryBytes(GENERAL, GeneralPayload(ROBOT_IDENTITY) + COE_FLAG_TAIL);
    assert region[20..46] == general;
    assert region[40] == general[20] == COE_FLAG_TAIL[0];
  }
}
