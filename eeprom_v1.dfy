/**
 * `generate_eeprom.py`, the first generator: the image is appended to an
 * 8-byte header, then the Strings, General and SyncManager categories, the
 * End record, zero padding to 128 bytes, and the header checksum in byte 14.
 *
 * With an 8-byte header the categories begin at byte 8, so byte 14 is the
 * third byte of the Strings payload (the first letter of "RobotHand"); the
 * checksum store overwrites it with 0x62, and the first name reads
 * "bobotHand". `BuildEepromWordHeader` is the generator with the 16-byte
 * header (words 0-7) that the header comment describes.
 */
module EepromV1 {
  import opened Wrappers
  import opened Bytes
  import opened SiiChecksum
  import opened SiiCategories
  import opened SiiAppend
  import opened RobotHandConfig

  /** The header as written: eight bytes, PDI control 0x0080 in word 0. */
  const HEADER: seq<byte> := [0x80, 0x00, 0x00, 0x00, 0x00, 0x00, 0x00, 0x00]

  /** Words 0-7, as the header comment describes them: sixteen bytes. */
  const WORD_HEADER: seq<byte> := HEADER + [0x00, 0x00, 0x00, 0x00, 0x00, 0x00, 0x00, 0x00]

  /** b"bobotHand": "RobotHand" with its first byte replaced by the checksum 0x62. */
  const BOBOT_HAND: seq<byte> := [0x62, 0x6F, 0x62, 0x6F, 0x74, 0x48, 0x61, 0x6E, 0x64]

  /**
   * `build_eeprom()`, as written. The dead branch that extends an image
   * shorter than 16 bytes is left out: the padding loop has already made the
   * image 128 bytes long.
   */
  method BuildEeprom() returns (eeprom: seq<byte>)
    ensures AllWellFormed(STRINGS_GENERAL_SM) && |EncodeCategories(STRINGS_GENERAL_SM)| == 76
    ensures eeprom == AppendedImage(HEADER, STRINGS_GENERAL_SM)
  {
    eeprom := [0x80, 0x00, 0x00, 0x00, 0x00, 0x00, 0x00, 0x00];

    assert StringsFit(ROBOT_STRINGS) by { RobotPayloads(); }
    RobotCategoryOrders();
    var strData := BuildStringsPayload(ROBOT_STRINGS);
    eeprom := eeprom + (U16Le(STRINGS) + U16Le(|strData.value| / 2));
    eeprom := eeprom + strData.value;

    var genData := GeneralPayload(ROBOT_IDENTITY);
    eeprom := eeprom + (U16Le(GENERAL) + U16Le(|genData| / 2));
    eeprom := eeprom + genData;

    var smData := SyncManagerPayload(ROBOT_SYNC_MANAGERS);
    eeprom := eeprom + (U16Le(SYNC_MANAGER) + U16Le(|smData| / 2));
    eeprom := eeprom + smData;

    eeprom := eeprom + (U16Le(END) + U16Le(0));
    AppendThree(HEADER, STRINGS_CATEGORY, GENERAL_CATEGORY, SYNC_MANAGER_CATEGORY);
    assert eeprom == HEADER + EncodeCategories(STRINGS_GENERAL_SM) + END_RECORD;

    eeprom := PadWithZeros(eeprom, MIN_IMAGE_SIZE);
    var checksum := CalculateChecksum(eeprom);
    eeprom := eeprom[CHECKSUM_OFFSET := checksum];
  }

  /**
   * The image as written: the checksum byte 0x62 lands on the first letter
   * of the first name. The header still checks, and a reader starting at
   * byte 8 finds the three categories, but the Strings category now names
   * the device "bobotHand" instead of "RobotHand".
   */
  lemma ChecksumOverwritesName()
    ensures AllWellFormed(STRINGS_GENERAL_SM) && |EncodeCategories(STRINGS_GENERAL_SM)| == 76
    ensures var image := AppendedImage(HEADER, STRINGS_GENERAL_SM);
            && image[CHECKSUM_OFFSET] == 0x62
            && ChecksumValid(image)
            && ReadImage(image, |HEADER|)
               == Success([Category(STRINGS, StringsPayload([BOBOT_HAND, MAIN])), GENERAL_CATEGORY, SYNC_MANAGER_CATEGORY])
            && DecodeStrings(StringsPayload([BOBOT_HAND, MAIN])) == Some([BOBOT_HAND, MAIN])
            && BOBOT_HAND != ROBOT_HAND
  {
    RobotCategoryOrders();
    var image := AppendedImage(HEADER, STRINGS_GENERAL_SM);
    AsWrittenChecksum();
    BobotPayload();
    var bobot := Category(STRINGS, StringsPayload([BOBOT_HAND, MAIN]));
    var cats := [bobot, GENERAL_CATEGORY, SYNC_MANAGER_CATEGORY];
    AsWrittenLayout();
    var encB := EncodeCategories(cats);
    assert image[8..8 + |encB| + 2] == encB + END_TYPE;
    ReadEncodedCategories(image, 8, cats);
    StringsRoundTrip([BOBOT_HAND, MAIN]);
  }

  /**
   * Bytes 0..13 after the appends: the eight header bytes, the Strings type
   * and length words, and the first two payload bytes (count 2, length 9).
   */
  const AS_WRITTEN_HEAD: seq<byte> := [0x80, 0, 0, 0, 0, 0, 0, 0, 0x0A, 0x00, 0x08, 0x00, 0x02, 0x09]

  /** They sum to 0x80 + 0x0A + 0x08 + 0x02 + 0x09 = 0x9D; the checksum is 0x62. */
  lemma AsWrittenChecksum()
    ensures AllWellFormed(STRINGS_GENERAL_SM) && |EncodeCategories(STRINGS_GENERAL_SM)| == 76
    ensures AppendedImage(HEADER, STRINGS_GENERAL_SM)[CHECKSUM_OFFSET] == 0x62
    ensures ChecksumValid(AppendedImage(HEADER, STRINGS_GENERAL_SM))
  {
    RobotCategoryOrders();
    var body := HEADER + EncodeCategories(STRINGS_GENERAL_SM) + END_RECORD;
    var padded := body + Zeros(MIN_IMAGE_SIZE - |body|);
    AsWrittenHead(padded);
    HeaderSumPrefix(padded, AS_WRITTEN_HEAD, CHECKSUM_OFFSET);
    AsWrittenHeadSum();
    StoreChecksumValid(padded);
  }

  /** The image before the checksum store starts with AS_WRITTEN_HEAD. */
  lemma AsWrittenHead(padded: seq<byte>)
    requires AllWellFormed(STRINGS_GENERAL_SM)
    requires |HEADER + EncodeCategories(STRINGS_GENERAL_SM) + END_RECORD| <= |padded|
    requires padded[..|HEADER + EncodeCategories(STRINGS_GENERAL_SM) + END_RECORD|]
          == HEADER + EncodeCategories(STRINGS_GENERAL_SM) + END_RECORD
    ensures |padded| >= CHECKSUM_OFFSET && padded[..CHECKSUM_OFFSET] == AS_WRITTEN_HEAD
  {
    RobotPayloads();
    EncodeThree(STRINGS_CATEGORY, GENERAL_CATEGORY, SYNC_MANAGER_CATEGORY);
    var sc := CategoryBytes(STRINGS, StringsPayload(ROBOT_STRINGS));
    assert sc[..6] == [0x0A, 0x00, 0x08, 0x00, 0x02, 0x09] by {
      assert sc[4..] == StringsPayload(ROBOT_STRINGS);
      assert sc[4] == 0x02 && sc[5] == 0x09;
    }
    var n := |HEADER + EncodeCategories(STRINGS_GENERAL_SM) + END_RECORD|;
    forall i | 0 <= i < CHECKSUM_OFFSET
      ensures padded[i] == AS_WRITTEN_HEAD[i]
    {
      assert padded[i] == padded[..n][i];
      if 8 <= i {
        assert padded[..n][i] == sc[..6][i - 8];
      }
    }
  }

  /** The sum of AS_WRITTEN_HEAD, one term at a time. */
  lemma AsWrittenHeadSum()
    ensures HeaderSum(AS_WRITTEN_HEAD, CHECKSUM_OFFSET) == 0x9D
  {
    var h := AS_WRITTEN_HEAD;
    assert HeaderSum(h, 1) == 0x80;
    HeaderSumZeros(h, 1, 8);
    assert HeaderSum(h, 9) == 0x8A;
    assert HeaderSum(h, 11) == 0x92;
    assert HeaderSum(h, 13) == 0x94;
  }

  /** The "bobotHand" payload is the "RobotHand" payload with its third byte set to 0x62. */
  lemma BobotPayload()
    ensures StringsFit([BOBOT_HAND, MAIN])
    ensures StringsPayload([BOBOT_HAND, MAIN]) == StringsPayload(ROBOT_STRINGS)[2 := 0x62]
  {
    RobotPayloads();
    assert [BOBOT_HAND, MAIN][1..] == [MAIN];
    assert [MAIN][1..] == [];
    assert StringEntries([MAIN]) == [4] + MAIN;
    assert StringEntries([BOBOT_HAND, MAIN]) == [9] + BOBOT_HAND + [4] + MAIN;
  }

  /** The as-written image is the encoding of the categories with the first name changed. */
  lemma AsWrittenLayout()
    ensures StringsFit([BOBOT_HAND, MAIN])
    ensures var cats := [Category(STRINGS, StringsPayload([BOBOT_HAND, MAIN])), GENERAL_CATEGORY, SYNC_MANAGER_CATEGORY];
            && AllWellFormed(cats) && AllWellFormed(STRINGS_GENERAL_SM)
            && |EncodeCategories(STRINGS_GENERAL_SM)| == 76
            && AppendedImage(HEADER, STRINGS_GENERAL_SM)[8..86] == EncodeCategories(cats) + END_TYPE
  {
    BobotEncoding();
    AsWrittenChecksum();
    var cats := [Category(STRINGS, StringsPayload([BOBOT_HAND, MAIN])), GENERAL_CATEGORY, SYNC_MANAGER_CATEGORY];
    var enc := EncodeCategories(STRINGS_GENERAL_SM);
    var encB := EncodeCategories(cats);
    var body := HEADER + enc + END_RECORD;
    var padded := body + Zeros(MIN_IMAGE_SIZE - |body|);
    var image := AppendedImage(HEADER, STRINGS_GENERAL_SM);
    assert image == padded[CHECKSUM_OFFSET := 0x62];
    forall i | 0 <= i < 78
      ensures image[8 + i] == (encB + END_TYPE)[i]
    {
      assert padded[8 + i] == body[8 + i];
      if i < 76 {
        assert body[8 + i] == enc[i];
      } else {
        assert body[8 + i] == END_RECORD[i - 76];
      }
    }
  }

  /** Encoding the categories with "bobotHand" differs from the intended encoding in byte 6 only. */
  lemma BobotEncoding()
    ensures StringsFit([BOBOT_HAND, MAIN])
    ensures var cats := [Category(STRINGS, StringsPayload([BOBOT_HAND, MAIN])), GENERAL_CATEGORY, SYNC_MANAGER_CATEGORY];
            && AllWellFormed(cats) && AllWellFormed(STRINGS_GENERAL_SM)
            && |EncodeCategories(STRINGS_GENERAL_SM)| == 76
            && EncodeCategories(cats) == EncodeCategories(STRINGS_GENERAL_SM)[6 := 0x62]
  {
    RobotCategoryOrders();
    RobotPayloadSizes();
    BobotPayload();
    var bobot := Category(STRINGS, StringsPayload([BOBOT_HAND, MAIN]));
    EncodeFirstUpdate(STRINGS_CATEGORY, bobot, GENERAL_CATEGORY, SYNC_MANAGER_CATEGORY, 2, 0x62);
  }

  /** Changing one byte of the first category's payload changes the same byte of the encoding, four bytes further on. */
  lemma EncodeFirstUpdate(a: Category, a': Category, b: Category, c: Category, j: nat, x: byte)
    requires WellFormed(a) && WellFormed(b) && WellFormed(c)
    requires j < |a.payload| && a' == Category(a.kind, a.payload[j := x])
    ensures WellFormed(a') && AllWellFormed([a', b, c]) && AllWellFormed([a, b, c])
    ensures EncodeCategories([a', b, c]) == EncodeCategories([a, b, c])[4 + j := x]
  {
    EncodeThree(a, b, c);
    EncodeThree(a', b, c);
    CategoryBytesUpdate(a.kind, a.payload, j, x);
    var sa: seq<byte> := CategoryBytes(a.kind, a.payload);
    var rest: seq<byte> := CategoryBytes(b.kind, b.payload) + CategoryBytes(c.kind, c.payload);
    assert (sa + rest)[4 + j := x] == sa[4 + j := x] + rest;
  }

  /** Changing one payload byte changes the same byte of the framed category, four bytes further on. */
  lemma CategoryBytesUpdate(kind: u16, p: seq<byte>, j: nat, x: byte)
    requires j < |p| && |p| / 2 < 0x1_0000
    ensures CategoryBytes(kind, p[j := x]) == CategoryBytes(kind, p)[4 + j := x]
  {
    assert U16Le(kind) + U16Le(|p| / 2) + p[j := x] == (U16Le(kind) + U16Le(|p| / 2) + p)[4 + j := x];
  }

  /**
   * The generator with the 16-byte header: the checksum stays in the header,
   * the image checks, and the reader recovers both names intact.
   */
  method BuildEepromWordHeader() returns (eeprom: seq<byte>)
    ensures AllWellFormed(STRINGS_GENERAL_SM) && |EncodeCategories(STRINGS_GENERAL_SM)| == 76
    ensures eeprom == AppendedImage(WORD_HEADER, STRINGS_GENERAL_SM)
    ensures eeprom[..16] == [0x80, 0x00, 0, 0, 0, 0, 0, 0, 0, 0, 0, 0, 0, 0, 0x7F, 0x00]
    ensures eeprom[16..96] == EncodeCategories(STRINGS_GENERAL_SM) + END_RECORD
    ensures ChecksumValid(eeprom)
    ensures ReadImage(eeprom, |WORD_HEADER|) == Success(STRINGS_GENERAL_SM)
    ensures DecodeStrings(eeprom[20..36]) == Some(ROBOT_STRINGS)
  {
    eeprom := [0x80, 0x00, 0x00, 0x00, 0x00, 0x00, 0x00, 0x00];
    eeprom := eeprom + [0x00, 0x00, 0x00, 0x00, 0x00, 0x00, 0x00, 0x00];

    assert StringsFit(ROBOT_STRINGS) by { RobotPayloads(); }
    RobotCategoryOrders();
    var strData := BuildStringsPayload(ROBOT_STRINGS);
    eeprom := eeprom + (U16Le(STRINGS) + U16Le(|strData.value| / 2));
    eeprom := eeprom + strData.value;

    var genData := GeneralPayload(ROBOT_IDENTITY);
    eeprom := eeprom + (U16Le(GENERAL) + U16Le(|genData| / 2));
    eeprom := eeprom + genData;

    var smData := SyncManagerPayload(ROBOT_SYNC_MANAGERS);
    eeprom := eeprom + (U16Le(SYNC_MANAGER) + U16Le(|smData| / 2));
    eeprom := eeprom + smData;

    eeprom := eeprom + (U16Le(END) + U16Le(0));
    AppendThree(WORD_HEADER, STRINGS_CATEGORY, GENERAL_CATEGORY, SYNC_MANAGER_CATEGORY);
    assert eeprom == WORD_HEADER + EncodeCategories(STRINGS_GENERAL_SM) + END_RECORD;

    eeprom := PadWithZeros(eeprom, MIN_IMAGE_SIZE);
    var checksum := CalculateChecksum(eeprom);
    eeprom := eeprom[CHECKSUM_OFFSET := checksum];
    WordHeaderKeepsNames();
  }

  /** The image with the 16-byte header, stated on the appended image. */
  lemma WordHeaderKeepsNames()
    ensures AllWellFormed(STRINGS_GENERAL_SM) && |EncodeCategories(STRINGS_GENERAL_SM)| == 76
    ensures var image := AppendedImage(WORD_HEADER, STRINGS_GENERAL_SM);
            && image[..16] == [0x80, 0x00, 0, 0, 0, 0, 0, 0, 0, 0, 0, 0, 0, 0, 0x7F, 0x00]
            && image[16..96] == EncodeCategories(STRINGS_GENERAL_SM) + END_RECORD
            && ChecksumValid(image)
            && ReadImage(image, |WORD_HEADER|) == Success(STRINGS_GENERAL_SM)
            && DecodeStrings(image[20..36]) == Some(ROBOT_STRINGS)
  {
    RobotCategoryOrders();
    AppendedImageReads(WORD_HEADER, STRINGS_GENERAL_SM);
    AppendedPdiHeader(WORD_HEADER, STRINGS_GENERAL_SM);
    var image := AppendedImage(WORD_HEADER, STRINGS_GENERAL_SM);
    StringsFollowWordHeader(image);
    assert StringsFit(ROBOT_STRINGS) by { RobotPayloads(); }
    StringsRoundTrip(ROBOT_STRINGS);
  }

  /** Behind a 16-byte header, the Strings payload occupies bytes 20..35. */
  lemma StringsFollowWordHeader(image: seq<byte>)
    requires AllWellFormed(STRINGS_GENERAL_SM) && |image| >= 96
    requires |EncodeCategories(STRINGS_GENERAL_SM)| == 76
    requires image[16..96] == EncodeCategories(STRINGS_GENERAL_SM) + END_RECORD
    ensures image[20..36] == StringsPayload(ROBOT_STRINGS)
  {
    var enc := EncodeCategories(STRINGS_GENERAL_SM);
    assert enc[4..20] == StringsPayload(ROBOT_STRINGS) by {
      RobotPayloads();
      EncodeThree(STRINGS_CATEGORY, GENERAL_CATEGORY, SYNC_MANAGER_CATEGORY);
      assert enc[..20] == CategoryBytes(STRINGS, StringsPayload(ROBOT_STRINGS));
    }
    forall i | 0 <= i < 16
      ensures image[20 + i] == StringsPayload(ROBOT_STRINGS)[i]
    {
      assert image[20 + i] == image[16..96][4 + i] == enc[4 + i] == enc[4..20][i];
    }
  }
}
