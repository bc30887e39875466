/**
 * `generate_eeprom_v10.py`: a 256-byte image with PDI control 0x0080 in word 0,
 * the standard mailbox words 0x18-0x1B (bytes 48-55) pointing at the SM0 and
 * SM1 windows, the mailbox protocol word 0x1C set to 0x0004 (CoE), the Strings,
 * General and SyncManager categories from byte 128, the End type word after
 * them, and the header checksum in byte 14.
 */
module EepromV10 {
  import opened Wrappers
  import opened Bytes
  import opened SiiChecksum
  import opened SiiCategories
  import opened SiiBuffer
  import opened RobotHandConfig

  /** Where the first category starts. */
  const CATEGORY_BASE: nat := 128

  /**
   * Bytes 48-57: receive mailbox offset 0x1000 and size 128, send mailbox
   * offset 0x1080 and size 128, mailbox protocol 0x0004 (CoE).
   */
  const MAILBOX_WORDS: seq<byte> := [0x00, 0x10, 0x80, 0x00, 0x80, 0x10, 0x80, 0x00, 0x04, 0x00]

  /** The buffer before any category is written: word 0, the mailbox words 0x18-0x1C, the rest zero. */
  const HEADER: seq<byte> := [0x80, 0x00] + Zeros(46) + MAILBOX_WORDS + Zeros(IMAGE_SIZE - 58)

  /** `build_eeprom()` */
  method BuildEeprom() returns (image: seq<byte>)
    ensures AllWellFormed(STRINGS_GENERAL_SM) && |image| == IMAGE_SIZE
    ensures image[..16] == [0x80, 0x00, 0, 0, 0, 0, 0, 0, 0, 0, 0, 0, 0, 0, 0x7F, 0x00]
    ensures image[16..CATEGORY_BASE] == Zeros(32) + MAILBOX_WORDS + Zeros(70)
    ensures image[CATEGORY_BASE..206] == EncodeCategories(STRINGS_GENERAL_SM) + END_TYPE
    ensures image[206..] == Zeros(IMAGE_SIZE - 206)
    ensures U16At(image, 48) == SM0_MAILBOX_OUT.start && U16At(image, 50) == SM0_MAILBOX_OUT.length
    ensures U16At(image, 52) == SM1_MAILBOX_IN.start && U16At(image, 54) == SM1_MAILBOX_IN.length
    ensures U16At(image, 56) == 0x0004
    ensures ChecksumValid(image)
    ensures ReadImage(image, CATEGORY_BASE) == Success(STRINGS_GENERAL_SM)
  {
    var eeprom := InitBuffer();

    RobotPayloadSizes();
    RobotCategoryOrders();
    var strData := BuildStringsPayload(ROBOT_STRINGS);
    var offset := WriteCategories(eeprom, CATEGORY_BASE,
      Category(STRINGS, strData.value),
      Category(GENERAL, GeneralPayload(ROBOT_IDENTITY)),
      Category(SYNC_MANAGER, SyncManagerPayload(ROBOT_SYNC_MANAGERS)));

    var checksum := CalculateChecksum(eeprom[..]);
    eeprom[CHECKSUM_OFFSET] := checksum;
    image := eeprom[..];
    LayoutFacts();
    MailboxWordsMatchSyncManagers(image);
  }

  /**
   * Steps 1-4 of `build_eeprom()`: the zeroed 256-byte buffer, the PDI
   * control word, the standard mailbox words and the mailbox protocol word.
   */
  method InitBuffer() returns (eeprom: array<byte>)
    ensures fresh(eeprom) && eeprom[..] == HEADER
  {
    eeprom := new byte[IMAGE_SIZE](_ => 0);
    eeprom[0] := 0x80;
    eeprom[1] := 0x00;
    ghost var pdi := eeprom[..];
    eeprom[48] := 0x00;
    eeprom[49] := 0x10;
    eeprom[50] := 0x80;
    eeprom[51] := 0x00;
    eeprom[52] := 0x80;
    eeprom[53] := 0x10;
    eeprom[54] := 0x80;
    eeprom[55] := 0x00;
    eeprom[56] := 0x04;
    eeprom[57] := 0x00;
    assert eeprom[..] == pdi[48 := 0x00][49 := 0x10][50 := 0x80][51 := 0x00][52 := 0x80]
                            [53 := 0x10][54 := 0x80][55 := 0x00][56 := 0x04][57 := 0x00];
    MailboxBytes(pdi);
    assert pdi[..48] == [0x80, 0x00] + Zeros(46) by {
      forall i | 0 <= i < 48 ensures pdi[i] == ([0x80, 0x00] + Zeros(46))[i] {
        if i >= 2 {
          assert ([0x80, 0x00] + Zeros(46))[i] == Zeros(46)[i - 2];
        }
      }
    }
  }

  /** The ten byte stores of steps 3 and 4 write the mailbox words into bytes 48-57. */
  lemma MailboxBytes(s: seq<byte>)
    requires |s| == IMAGE_SIZE
    ensures s[48 := 0x00][49 := 0x10][50 := 0x80][51 := 0x00][52 := 0x80]
             [53 := 0x10][54 := 0x80][55 := 0x00][56 := 0x04][57 := 0x00]
         == s[..48] + MAILBOX_WORDS + s[58..]
  {
    var t := s[48 := 0x00][49 := 0x10][50 := 0x80][51 := 0x00][52 := 0x80]
              [53 := 0x10][54 := 0x80][55 := 0x00][56 := 0x04][57 := 0x00];
    forall i | 0 <= i < IMAGE_SIZE
      ensures t[i] == (s[..48] + MAILBOX_WORDS + s[58..])[i]
    {
      if 48 <= i < 58 {
        assert (s[..48] + MAILBOX_WORDS + s[58..])[i] == MAILBOX_WORDS[i - 48];
      }
    }
  }

  /** The finished image, stated on the header and the categories placed over it. */
  lemma LayoutFacts()
    ensures AllWellFormed(STRINGS_GENERAL_SM) && |EncodeCategories(STRINGS_GENERAL_SM)| == 76
    ensures var placed := Splice(HEADER, CATEGORY_BASE, EncodeCategories(STRINGS_GENERAL_SM) + END_TYPE);
            var image := placed[CHECKSUM_OFFSET := ChecksumFor(placed)];
            && |image| == IMAGE_SIZE
            && image[..16] == [0x80, 0x00, 0, 0, 0, 0, 0, 0, 0, 0, 0, 0, 0, 0, 0x7F, 0x00]
            && image[16..CATEGORY_BASE] == Zeros(32) + MAILBOX_WORDS + Zeros(70)
            && image[48..58] == MAILBOX_WORDS
            && image[CATEGORY_BASE..206] == EncodeCategories(STRINGS_GENERAL_SM) + END_TYPE
            && image[206..] == Zeros(IMAGE_SIZE - 206)
            && ChecksumValid(image)
            && ReadImage(image, CATEGORY_BASE) == Success(STRINGS_GENERAL_SM)
  {
    RobotCategoryOrders();
    PlacedImageReads(HEADER, CATEGORY_BASE, STRINGS_GENERAL_SM);
    PlacedPdiHeader(HEADER, CATEGORY_BASE, STRINGS_GENERAL_SM);
    var placed := Splice(HEADER, CATEGORY_BASE, EncodeCategories(STRINGS_GENERAL_SM) + END_TYPE);
    var image := placed[CHECKSUM_OFFSET := ChecksumFor(placed)];
    forall i | 0 <= i < 10
      ensures image[48 + i] == MAILBOX_WORDS[i]
    {
      assert image[48 + i] == placed[48 + i] == HEADER[48 + i];
    }
  }

  /**
   * The mailbox words read back as the SM0 and SM1 windows of the
   * SyncManager category, and the protocol word as CoE.
   */
  lemma MailboxWordsMatchSyncManagers(image: seq<byte>)
    requires |image| == IMAGE_SIZE
    requires image[48..58] == MAILBOX_WORDS
    ensures U16At(image, 48) == SM0_MAILBOX_OUT.start && U16At(image, 50) == SM0_MAILBOX_OUT.length
    ensures U16At(image, 52) == SM1_MAILBOX_IN.start && U16At(image, 54) == SM1_MAILBOX_IN.length
    ensures U16At(image, 56) == 0x0004
  {
    var w := image[48..58];
    assert image[48] == w[0] && image[49] == w[1];
    assert image[50] == w[2] && image[51] == w[3];
    assert image[52] == w[4] && image[53] == w[5];
    assert image[54] == w[6] && image[55] == w[7];
    assert image[56] == w[8] && image[57] == w[9];
  }
}
