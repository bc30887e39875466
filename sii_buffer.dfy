/**
 * In-place writes into the preallocated 256-byte `bytearray` of the
 * generators: an equal-length slice assignment, and the four lines every
 * script repeats per category (type word, length word, `offset += 4`,
 * payload, `offset += len(data)`).
 */
module SiiBuffer {
  import opened Bytes
  import opened Wrappers
  import opened SiiChecksum
  import opened SiiCategories

  /** The size of the preallocated image, `bytearray(256)`. */
  const IMAGE_SIZE: nat := 256

  /** `eeprom[off:off+len(data)] = data` on a buffer long enough to hold it. */
  method WriteBytes(eeprom: array<byte>, off: nat, data: seq<byte>)
    requires off + |data| <= eeprom.Length
    modifies eeprom
    ensures eeprom[..] == Splice(old(eeprom[..]), off, data)
  {
    forall i | 0 <= i < |data| {
      eeprom[off + i] := data[i];
    }
    assert eeprom[..] == Splice(old(eeprom[..]), off, data) by {
      forall i | 0 <= i < eeprom.Length
        ensures eeprom[..][i] == Splice(old(eeprom[..]), off, data)[i]
      {
        if off <= i < off + |data| {
          assert Splice(old(eeprom[..]), off, data)[i]
              == Splice(old(eeprom[..]), off, data)[off..off + |data|][i - off];
        }
      }
    }
  }

  /**
   * One category at `offset`: the type and the word length
   * `len(data) // 2`, then the payload; returns the offset just after it.
   */
  method WriteCategory(eeprom: array<byte>, offset: nat, kind: u16, data: seq<byte>) returns (next: nat)
    requires |data| / 2 < 0x1_0000
    requires offset + 4 + |data| <= eeprom.Length
    modifies eeprom
    ensures next == offset + 4 + |data|
    ensures eeprom[..] == Splice(old(eeprom[..]), offset, CategoryBytes(kind, data))
  {
    WriteBytes(eeprom, offset, U16Le(kind));
    WriteBytes(eeprom, offset + 2, U16Le(|data| / 2));
    next := offset + 4;
    WriteBytes(eeprom, next, data);
    next := next + |data|;
    SpliceAdjacent(old(eeprom[..]), offset, U16Le(kind), U16Le(|data| / 2));
    SpliceAdjacent(old(eeprom[..]), offset, U16Le(kind) + U16Le(|data| / 2), data);
  }

  /**
   * The three category writes and the End type word `b'\xFF\xFF'` every
   * 256-byte generator performs from `base`: together one write of the
   * encoded categories followed by the End type. Returns the offset just
   * after the End type word.
   */
  method WriteCategories(eeprom: array<byte>, base: nat, a: Category, b: Category, c: Category) returns (next: nat)
    requires WellFormed(a) && WellFormed(b) && WellFormed(c)
    requires base + 14 + |a.payload| + |b.payload| + |c.payload| <= eeprom.Length
    modifies eeprom
    ensures AllWellFormed([a, b, c])
    ensures |EncodeCategories([a, b, c])| == 12 + |a.payload| + |b.payload| + |c.payload|
    ensures next == base + |EncodeCategories([a, b, c]) + END_TYPE|
    ensures eeprom[..] == Splice(old(eeprom[..]), base, EncodeCategories([a, b, c]) + END_TYPE)
  {
    var offset := WriteCategory(eeprom, base, a.kind, a.payload);
    offset := WriteCategory(eeprom, offset, b.kind, b.payload);
    offset := WriteCategory(eeprom, offset, c.kind, c.payload);
    WriteBytes(eeprom, offset, END_TYPE);
    next := offset + |END_TYPE|;
    PlaceThree(old(eeprom[..]), base, a, b, c);
  }

  /**
   * The common end of every 256-byte generator: once the categories and the
   * End type word sit at `base`, past the header, the checksum computed over
   * bytes 0..13 is the header's own; storing it changes byte 14 and nothing
   * else, the stored image passes the checksum test and a reader recovers
   * exactly those categories.
   */
  lemma PlacedImageReads(header: seq<byte>, base: nat, cats: seq<Category>)
    requires AllWellFormed(cats)
    requires CHECKSUM_OFFSET < base
    requires base + |EncodeCategories(cats)| + 2 <= |header|
    ensures var region := EncodeCategories(cats) + END_TYPE;
            var placed := Splice(header, base, region);
            var img := placed[CHECKSUM_OFFSET := ChecksumFor(placed)];
            && ChecksumFor(placed) == ChecksumFor(header)
            && |img| == |header|
            && img[..CHECKSUM_OFFSET] == header[..CHECKSUM_OFFSET]
            && img[CHECKSUM_OFFSET] == ChecksumFor(header)
            && img[CHECKSUM_OFFSET + 1..base] == header[CHECKSUM_OFFSET + 1..base]
            && img[base..base + |region|] == region
            && img[base + |region|..] == header[base + |region|..]
            && ChecksumValid(img)
            && ReadImage(img, base) == Success(cats)
  {
    var region := EncodeCategories(cats) + END_TYPE;
    var placed := Splice(header, base, region);
    var img := placed[CHECKSUM_OFFSET := ChecksumFor(placed)];
    assert placed[..CHECKSUM_OFFSET] == header[..CHECKSUM_OFFSET];
    ChecksumReadsHeaderOnly(placed, header);
    StoreChecksumValid(placed);
    assert img[base..base + |region|] == placed[base..base + |region|];
    ReadEncodedCategories(img, base, cats);
  }

  /**
   * With PDI control 0x0080 in word 0 and bytes 1..15 zero before the
   * categories are placed, words 0-7 of the finished image read 0x0080,
   * six zero words, and the checksum 0x7F in byte 14.
   */
  lemma PlacedPdiHeader(header: seq<byte>, base: nat, cats: seq<Category>)
    requires AllWellFormed(cats)
    requires 16 <= base
    requires base + |EncodeCategories(cats)| + 2 <= |header|
    requires header[0] == 0x80 && forall i :: 1 <= i < 16 ==> header[i] == 0
    ensures var placed := Splice(header, base, EncodeCategories(cats) + END_TYPE);
            var img := placed[CHECKSUM_OFFSET := ChecksumFor(placed)];
            img[..16] == [0x80, 0x00, 0, 0, 0, 0, 0, 0, 0, 0, 0, 0, 0, 0, 0x7F, 0x00]
  {
    var placed := Splice(header, base, EncodeCategories(cats) + END_TYPE);
    var img := placed[CHECKSUM_OFFSET := ChecksumFor(placed)];
    assert ChecksumFor(placed) == 0x7F by {
      HeaderSumZeros(placed, 1, CHECKSUM_OFFSET);
      assert HeaderSum(placed, 1) == placed[0] == 0x80;
    }
    KeptHeaderBytes(header, base, cats);
    SixteenBytes(img);
  }

  /**
   * With words 0-7 all zero before the categories are placed, the finished
   * image keeps them zero except the checksum 0xFF in byte 14.
   */
  lemma PlacedBlankHeader(header: seq<byte>, base: nat, cats: seq<Category>)
    requires AllWellFormed(cats)
    requires 16 <= base
    requires base + |EncodeCategories(cats)| + 2 <= |header|
    requires forall i :: 0 <= i < 16 ==> header[i] == 0
    ensures var placed := Splice(header, base, EncodeCategories(cats) + END_TYPE);
            var img := placed[CHECKSUM_OFFSET := ChecksumFor(placed)];
            img[..16] == [0, 0, 0, 0, 0, 0, 0, 0, 0, 0, 0, 0, 0, 0, 0xFF, 0x00]
  {
    var placed := Splice(header, base, EncodeCategories(cats) + END_TYPE);
    var img := placed[CHECKSUM_OFFSET := ChecksumFor(placed)];
    assert ChecksumFor(placed) == 0xFF by {
      HeaderSumZeros(placed, 0, CHECKSUM_OFFSET);
    }
    KeptHeaderBytes(header, base, cats);
    SixteenBytes(img);
  }

  /** Placing the categories from byte 16 on and storing the checksum leave bytes 0..13 and 15 as the header has them. */
  lemma KeptHeaderBytes(header: seq<byte>, base: nat, cats: seq<Category>)
    requires AllWellFormed(cats)
    requires 16 <= base
    requires base + |EncodeCategories(cats)| + 2 <= |header|
    ensures var placed := Splice(header, base, EncodeCategories(cats) + END_TYPE);
            var img := placed[CHECKSUM_OFFSET := ChecksumFor(placed)];
            forall i :: 0 <= i < 16 && i != CHECKSUM_OFFSET ==> img[i] == header[i]
  {
    var placed := Splice(header, base, EncodeCategories(cats) + END_TYPE);
    var img := placed[CHECKSUM_OFFSET := ChecksumFor(placed)];
    forall i | 0 <= i < 16 && i != CHECKSUM_OFFSET
      ensures img[i] == header[i]
    {
      assert placed[i] == header[i];
    }
  }

  /**
   * Three categories and the End type word written one after the other from
   * `base` amount to one write of the encoded categories and the End type.
   */
  lemma PlaceThree(header: seq<byte>, base: nat, a: Category, b: Category, c: Category)
    requires WellFormed(a) && WellFormed(b) && WellFormed(c)
    requires base + 14 + |a.payload| + |b.payload| + |c.payload| <= |header|
    ensures var sa := CategoryBytes(a.kind, a.payload);
            var sb := CategoryBytes(b.kind, b.payload);
            var sc := CategoryBytes(c.kind, c.payload);
            && AllWellFormed([a, b, c])
            && EncodeCategories([a, b, c]) == sa + sb + sc
            && Splice(Splice(Splice(Splice(header, base, sa), base + |sa|, sb), base + |sa| + |sb|, sc), base + |sa| + |sb| + |sc|, END_TYPE)
            == Splice(header, base, EncodeCategories([a, b, c]) + END_TYPE)
  {
    EncodeThree(a, b, c);
    SpliceFour(header, base, CategoryBytes(a.kind, a.payload), CategoryBytes(b.kind, b.payload),
               CategoryBytes(c.kind, c.payload), END_TYPE);
  }
}
