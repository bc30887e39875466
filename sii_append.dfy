/**
 * The appending generators (the first two scripts): the image grows by
 * `eeprom += ...` from a literal header, is padded with zero bytes to the
 * 128-byte minimum, and then gets its checksum in byte 14.
 */
module SiiAppend {
  import opened Wrappers
  import opened Bytes
  import opened SiiChecksum
  import opened SiiCategories

  /** The minimum image size the padding loop fills up to. */
  const MIN_IMAGE_SIZE: nat := 128

  /** `while len(eeprom) < n: eeprom += b'\x00'` */
  method PadWithZeros(eeprom: seq<byte>, n: nat) returns (padded: seq<byte>)
    ensures |eeprom| <= n ==> padded == eeprom + Zeros(n - |eeprom|)
    ensures |eeprom| > n ==> padded == eeprom
  {
    padded := eeprom;
    while |padded| < n
      invariant |eeprom| <= |padded|
      invariant |eeprom| <= n ==> |padded| <= n
      invariant |eeprom| >= n ==> padded == eeprom
      invariant padded == eeprom + Zeros(|padded| - |eeprom|)
      decreases n - |padded|
    {
      padded := padded + [0];
    }
  }

  /**
   * The appends `eeprom += struct.pack('<H H', type, len(data) // 2)` and
   * `eeprom += data` for three categories, then the End record, amount to
   * the header followed by the encoded categories and the End record.
   */
  lemma AppendThree(header: seq<byte>, a: Category, b: Category, c: Category)
    requires WellFormed(a) && WellFormed(b) && WellFormed(c)
    ensures AllWellFormed([a, b, c])
    ensures header + (U16Le(a.kind) + U16Le(|a.payload| / 2)) + a.payload
                   + (U16Le(b.kind) + U16Le(|b.payload| / 2)) + b.payload
                   + (U16Le(c.kind) + U16Le(|c.payload| / 2)) + c.payload
                   + (U16Le(END) + U16Le(0))
         == header + EncodeCategories([a, b, c]) + END_RECORD
  {
    EncodeThree(a, b, c);
  }

  /**
   * What an appending generator produces from its header and its categories:
   * header, categories, the four-byte End record, zero padding to 128 bytes,
   * and byte 14 replaced by the checksum of bytes 0..13 as they stand after
   * the appends.
   */
  function AppendedImage(header: seq<byte>, cats: seq<Category>): (r: seq<byte>)
    requires AllWellFormed(cats)
    requires |header| + |EncodeCategories(cats)| + |END_RECORD| <= MIN_IMAGE_SIZE
    ensures |r| == MIN_IMAGE_SIZE
  {
    var body := header + EncodeCategories(cats) + END_RECORD;
    var padded := body + Zeros(MIN_IMAGE_SIZE - |body|);
    padded[CHECKSUM_OFFSET := ChecksumFor(padded)]
  }

  /**
   * With a header that covers byte 14, the checksum lands in the header:
   * the image keeps the categories and the End record intact after the
   * header, passes the checksum test, and a reader starting right after the
   * header recovers the categories.
   */
  lemma AppendedImageReads(header: seq<byte>, cats: seq<Category>)
    requires AllWellFormed(cats)
    requires CHECKSUM_OFFSET < |header|
    requires |header| + |EncodeCategories(cats)| + |END_RECORD| <= MIN_IMAGE_SIZE
    ensures var r := AppendedImage(header, cats);
            && r[..CHECKSUM_OFFSET] == header[..CHECKSUM_OFFSET]
            && r[CHECKSUM_OFFSET] == ChecksumFor(header)
            && r[|header|..|header| + |EncodeCategories(cats)| + |END_RECORD|] == EncodeCategories(cats) + END_RECORD
            && ChecksumValid(r)
            && ReadImage(r, |header|) == Success(cats)
  {
    var enc := EncodeCategories(cats);
    var r := AppendedImage(header, cats);
    AppendedChecksum(header, cats);
    AppendedWindow(header, cats);
    assert r[|header|..|header| + |enc| + 2] == enc + END_TYPE by {
      forall i | 0 <= i < |enc| + 2
        ensures r[|header| + i] == (enc + END_TYPE)[i]
      {
        assert r[|header| + i] == r[|header|..|header| + |enc| + |END_RECORD|][i];
      }
    }
    ReadEncodedCategories(r, |header|, cats);
  }

  /** The checksum part of AppendedImageReads: bytes 0..13 are the header's, byte 14 completes them. */
  lemma AppendedChecksum(header: seq<byte>, cats: seq<Category>)
    requires AllWellFormed(cats)
    requires CHECKSUM_OFFSET < |header|
    requires |header| + |EncodeCategories(cats)| + |END_RECORD| <= MIN_IMAGE_SIZE
    ensures var r := AppendedImage(header, cats);
            && r[..CHECKSUM_OFFSET] == header[..CHECKSUM_OFFSET]
            && r[CHECKSUM_OFFSET] == ChecksumFor(header)
            && ChecksumValid(r)
  {
    var body := header + EncodeCategories(cats) + END_RECORD;
    var padded := body + Zeros(MIN_IMAGE_SIZE - |body|);
    assert padded[..CHECKSUM_OFFSET] == header[..CHECKSUM_OFFSET] by {
      forall i | 0 <= i < CHECKSUM_OFFSET
        ensures padded[i] == header[i]
      {
        assert padded[i] == body[i];
      }
    }
    ChecksumReadsHeaderOnly(padded, header);
    StoreChecksumValid(padded);
  }

  /** The layout part of AppendedImageReads: the categories and the End record follow the header. */
  lemma AppendedWindow(header: seq<byte>, cats: seq<Category>)
    requires AllWellFormed(cats)
    requires CHECKSUM_OFFSET < |header|
    requires |header| + |EncodeCategories(cats)| + |END_RECORD| <= MIN_IMAGE_SIZE
    ensures var r := AppendedImage(header, cats);
            r[|header|..|header| + |EncodeCategories(cats)| + |END_RECORD|] == EncodeCategories(cats) + END_RECORD
  {
    var tail := EncodeCategories(cats) + END_RECORD;
    var body := header + tail;
    assert body == header + EncodeCategories(cats) + END_RECORD;
    var padded := body + Zeros(MIN_IMAGE_SIZE - |body|);
    var r := AppendedImage(header, cats);
    forall i | 0 <= i < |tail|
      ensures r[|header| + i] == tail[i]
    {
      assert r[|header| + i] == padded[|header| + i] == body[|header| + i];
    }
  }

  /**
   * With PDI control 0x0080 in word 0 and the rest of words 0-7 zero in the
   * appended header, the finished image starts with 0x0080, six zero words,
   * and the checksum 0x7F in byte 14.
   */
  lemma AppendedPdiHeader(header: seq<byte>, cats: seq<Category>)
    requires AllWellFormed(cats)
    requires 16 <= |header|
    requires |header| + |EncodeCategories(cats)| + |END_RECORD| <= MIN_IMAGE_SIZE
    requires header[0] == 0x80 && forall i :: 1 <= i < 16 ==> header[i] == 0
    ensures AppendedImage(header, cats)[..16] == [0x80, 0x00, 0, 0, 0, 0, 0, 0, 0, 0, 0, 0, 0, 0, 0x7F, 0x00]
  {
    var body := header + EncodeCategories(cats) + END_RECORD;
    var padded := body + Zeros(MIN_IMAGE_SIZE - |body|);
    var img := AppendedImage(header, cats);
    assert forall i :: 0 <= i < 16 ==> padded[i] == header[i] by {
      forall i | 0 <= i < 16 ensures padded[i] == header[i] {
        assert padded[i] == body[i];
      }
    }
    assert ChecksumFor(padded) == 0x7F by {
      HeaderSumZeros(padded, 1, CHECKSUM_OFFSET);
      assert HeaderSum(padded, 1) == padded[0] == 0x80;
    }
    SixteenBytes(img);
  }
}
