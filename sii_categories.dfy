/**
 * The category records of the EEPROM image (Slave Information Interface):
 * a little-endian u16 type, a little-endian u16 length counted in 16-bit
 * words, then the payload. The encoders are what every generator script
 * writes; the decoders are the reading side (what a master walking the
 * category list recovers) and serve as the reference the encoders are proved
 * against.
 */
module SiiCategories {
  import opened Wrappers
  import opened Bytes
  import opened SiiChecksum

  const STRINGS: u16 := 10
  const GENERAL: u16 := 30
  const SYNC_MANAGER: u16 := 40
  const END: u16 := 0xFFFF

  /** The End marker as the 256-byte variants write it: only the type word `FF FF`. */
  const END_TYPE: seq<byte> := [0xFF, 0xFF]
  /** The End marker as the append-style variants write it: `struct.pack('<H H', 0xFFFF, 0)`. */
  const END_RECORD: seq<byte> := [0xFF, 0xFF, 0x00, 0x00]

  datatype Category = Category(kind: u16, payload: seq<byte>)

  datatype SiiError = MissingEndMarker | MalformedCategory | ChecksumMismatch

  // ---------------------------------------------------------------------------
  // Category framing

  /**
   * Category header and payload: type, `len(payload) // 2`, payload.
   * The length field counts words, so it is half the payload's byte count.
   */
  function CategoryBytes(kind: u16, payload: seq<byte>): (r: seq<byte>)
    requires |payload| / 2 < 0x1_0000
    ensures |r| == 4 + |payload|
    ensures U16At(r, 0) == kind && U16At(r, 2) * 2 == |payload| - |payload| % 2
    ensures r[4..] == payload
  {
    U16Le(kind) + U16Le(|payload| / 2) + payload
  }

  /** A category the reading side can delimit: not the End type, whole words, a length that fits a u16. */
  predicate WellFormed(c: Category)
  {
    c.kind != END && |c.payload| % 2 == 0 && |c.payload| / 2 < 0x1_0000
  }

  predicate AllWellFormed(cats: seq<Category>)
  {
    forall i :: 0 <= i < |cats| ==> WellFormed(cats[i])
  }

  /** The categories written one after the other. */
  function EncodeCategories(cats: seq<Category>): (r: seq<byte>)
    requires AllWellFormed(cats)
  {
    if cats == [] then []
    else CategoryBytes(cats[0].kind, cats[0].payload) + EncodeCategories(cats[1..])
  }

  /**
   * Walks the category list from `off`: stops at a type word 0xFFFF, otherwise
   * reads the type and word length, takes `2 * length` payload bytes and
   * continues after them.
   */
  function ReadCategories(img: seq<byte>, off: nat): Result<seq<Category>, SiiError>
    decreases |img| - off
  {
    if off + 2 > |img| then Failure(MissingEndMarker)
    else if U16At(img, off) == END then Success([])
    else if off + 4 > |img| then Failure(MalformedCategory)
    else
      var next := off + 4 + 2 * U16At(img, off + 2);
      if next > |img| then Failure(MalformedCategory)
      else
        match ReadCategories(img, next)
        case Failure(e) => Failure(e)
        case Success(rest) => Success([Category(U16At(img, off), img[off + 4..next])] + rest)
  }

  /** Reading an image: the header checksum must hold, then the category list from `base` is walked. */
  function ReadImage(img: seq<byte>, base: nat): Result<seq<Category>, SiiError>
  {
    if |img| <= CHECKSUM_OFFSET then Failure(MissingEndMarker)
    else if !ChecksumValid(img) then Failure(ChecksumMismatch)
    else ReadCategories(img, base)
  }

  /**
   * Round trip of the category layer: when the image holds the encoded
   * categories followed by the End type word at `off`, the reader recovers
   * exactly those categories, in order.
   */
  lemma {:induction false} ReadEncodedCategories(img: seq<byte>, off: nat, cats: seq<Category>)
    requires AllWellFormed(cats)
    requires off + |EncodeCategories(cats)| + 2 <= |img|
    requires img[off..off + |EncodeCategories(cats)| + 2] == EncodeCategories(cats) + END_TYPE
    ensures ReadCategories(img, off) == Success(cats)
    decreases |cats|
  {
    if cats == [] {
      SplitWindow(img, off, END_TYPE, []);
      U16AtSlice(img, END_TYPE, off, 0);
    } else {
      var c := cats[0];
      var head := CategoryBytes(c.kind, c.payload);
      var rest := EncodeCategories(cats[1..]);
      assert EncodeCategories(cats) + END_TYPE == head + (rest + END_TYPE);
      SplitWindow(img, off, head, rest + END_TYPE);
      ReadFramedCategory(img, off, c);
      assert AllWellFormed(cats[1..]) by {
        forall i | 0 <= i < |cats[1..]| ensures WellFormed(cats[1..][i]) {
          assert cats[1..][i] == cats[i + 1];
        }
      }
      ReadEncodedCategories(img, off + |head|, cats[1..]);
      assert [Category(c.kind, c.payload)] + cats[1..] == cats;
    }
  }

  /** Two adjacent pieces of a window are windows of their own. */
  lemma SplitWindow(img: seq<byte>, off: nat, a: seq<byte>, b: seq<byte>)
    requires off + |a| + |b| <= |img|
    requires img[off..off + |a| + |b|] == a + b
    ensures img[off..off + |a|] == a
    ensures img[off + |a|..off + |a| + |b|] == b
  {
    forall i | 0 <= i < |a|
      ensures img[off + i] == a[i]
    {
      assert img[off + i] == img[off..off + |a| + |b|][i];
    }
    forall i | 0 <= i < |b|
      ensures img[off + |a| + i] == b[i]
    {
      assert img[off + |a| + i] == img[off..off + |a| + |b|][|a| + i];
    }
  }

  /** A framed category at `off` reads back as its type, its word length and its payload. */
  lemma ReadFramedCategory(img: seq<byte>, off: nat, c: Category)
    requires WellFormed(c)
    requires off + 4 + |c.payload| <= |img|
    requires img[off..off + 4 + |c.payload|] == CategoryBytes(c.kind, c.payload)
    ensures U16At(img, off) == c.kind
    ensures 2 * U16At(img, off + 2) == |c.payload|
    ensures img[off + 4..off + 4 + |c.payload|] == c.payload
  {
    var k := U16Le(c.kind);
    var l := U16Le(|c.payload| / 2);
    assert CategoryBytes(c.kind, c.payload) == (k + l) + c.payload;
    SplitWindow(img, off, k + l, c.payload);
    SplitWindow(img, off, k, l);
    U16AtSlice(img, k, off, 0);
    U16AtSlice(img, l, off + 2, 0);
  }

  /** Three categories encode to their three framed records, in order. */
  lemma EncodeThree(a: Category, b: Category, c: Category)
    requires WellFormed(a) && WellFormed(b) && WellFormed(c)
    ensures AllWellFormed([a, b, c])
    ensures EncodeCategories([a, b, c])
         == CategoryBytes(a.kind, a.payload) + CategoryBytes(b.kind, b.payload) + CategoryBytes(c.kind, c.payload)
  {
    assert [a, b, c][1..] == [b, c];
    assert [b, c][1..] == [c];
    assert [c][1..] == [];
    assert EncodeCategories([c]) == CategoryBytes(c.kind, c.payload);
    assert EncodeCategories([b, c]) == CategoryBytes(b.kind, b.payload) + CategoryBytes(c.kind, c.payload);
  }

  // ---------------------------------------------------------------------------
  // Strings category (type 10)

  /** Every string and the number of strings fit the one-byte count and length fields. */
  predicate StringsFit(strings: seq<seq<byte>>)
  {
    |strings| < 0x100 && forall i :: 0 <= i < |strings| ==> |strings[i]| < 0x100
  }

  /** For each string: its length byte, then its bytes. */
  function StringEntries(strings: seq<seq<byte>>): seq<byte>
    requires forall i :: 0 <= i < |strings| ==> |strings[i]| < 0x100
  {
    if strings == [] then []
    else [|strings[0]| as byte] + strings[0] + StringEntries(strings[1..])
  }

  /** The Strings payload: count byte, entries, one zero byte if the total is odd. */
  function StringsPayload(strings: seq<seq<byte>>): seq<byte>
    requires StringsFit(strings)
  {
    var data := [|strings| as byte] + StringEntries(strings);
    if |data| % 2 != 0 then data + [0] else data
  }

  /** Appending a string appends its entry. */
  lemma {:induction false} StringEntriesSnoc(strings: seq<seq<byte>>, s: seq<byte>)
    requires forall i :: 0 <= i < |strings| ==> |strings[i]| < 0x100
    requires |s| < 0x100
    ensures StringEntries(strings + [s]) == StringEntries(strings) + [|s| as byte] + s
  {
    if strings == [] {
      assert strings + [s] == [s];
      assert [s][1..] == [];
    } else {
      assert (strings + [s])[1..] == strings[1..] + [s];
      StringEntriesSnoc(strings[1..], s);
    }
  }

  /**
   * The loop that builds `str_data`: count byte, then for each string its
   * length and bytes, then the padding byte. A string longer than 255 bytes,
   * or more than 255 strings, make `bytearray([...])` raise ValueError: None.
   */
  method BuildStringsPayload(strings: seq<seq<byte>>) returns (strData: Option<seq<byte>>)
    ensures strData.Some? <==> StringsFit(strings)
    ensures strData.Some? ==> strData.value == StringsPayload(strings)
    ensures strData.Some? ==> |strData.value| % 2 == 0
  {
    if |strings| >= 0x100 {
      return None;
    }
    var data: seq<byte> := [|strings| as byte];
    for i := 0 to |strings|
      invariant forall k :: 0 <= k < i ==> |strings[k]| < 0x100
      invariant data == [|strings| as byte] + StringEntries(strings[..i])
    {
      var s := strings[i];
      if |s| >= 0x100 {
        return None;
      }
      StringEntriesSnoc(strings[..i], s);
      assert strings[..i + 1] == strings[..i] + [s];
      data := data + [|s| as byte] + s;
    }
    assert strings[..|strings|] == strings;
    if |data| % 2 != 0 {
      data := data + [0];
    }
    strData := Some(data);
  }

  /** Reads `count` length-prefixed strings; returns them and the bytes after them. */
  function DecodeEntries(p: seq<byte>, count: nat): Option<(seq<seq<byte>>, seq<byte>)>
    decreases count
  {
    if count == 0 then Some(([], p))
    else if |p| == 0 || 1 + p[0] > |p| then None
    else
      match DecodeEntries(p[1 + p[0]..], count - 1)
      case None => None
      case Some((more, rest)) => Some(([p[1..1 + p[0]]] + more, rest))
  }

  /** Reads a Strings payload: the count byte, then that many strings; padding is ignored. */
  function DecodeStrings(p: seq<byte>): Option<seq<seq<byte>>>
  {
    if |p| == 0 then None
    else
      match DecodeEntries(p[1..], p[0])
      case None => None
      case Some((strings, _)) => Some(strings)
  }

  lemma {:induction false} DecodeEntriesOfEncoded(strings: seq<seq<byte>>, tail: seq<byte>)
    requires forall i :: 0 <= i < |strings| ==> |strings[i]| < 0x100
    ensures DecodeEntries(StringEntries(strings) + tail, |strings|) == Some((strings, tail))
  {
    if strings != [] {
      var s := strings[0];
      var p := StringEntries(strings) + tail;
      var more := StringEntries(strings[1..]) + tail;
      assert StringEntries(strings) == [|s| as byte] + s + StringEntries(strings[1..]);
      assert p == [|s| as byte] + s + more;
      assert p[0] as int == |s|;
      assert p[1..1 + |s|] == s;
      assert p[1 + |s|..] == more;
      DecodeEntriesOfEncoded(strings[1..], tail);
      assert DecodeEntries(more, |strings| - 1) == Some((strings[1..], tail));
      assert [s] + strings[1..] == strings;
      assert |p| > 0 && 1 + p[0] as int <= |p|;
      assert p[1 + p[0]..] == more;
      assert p[1..1 + p[0]] == s;
      assert DecodeEntries(p[1 + p[0]..], |strings| - 1) == Some((strings[1..], tail));
      assert DecodeEntries(p, |strings|) == Some(([s] + strings[1..], tail));
    } else {
      assert StringEntries(strings) + tail == tail;
    }
  }

  /** Round trip of the Strings category: decoding the payload gives back the strings, in order. */
  lemma StringsRoundTrip(strings: seq<seq<byte>>)
    requires StringsFit(strings)
    ensures DecodeStrings(StringsPayload(strings)) == Some(strings)
    ensures |StringsPayload(strings)| % 2 == 0
  {
    var entries := StringEntries(strings);
    var data := [|strings| as byte] + entries;
    if |data| % 2 != 0 {
      assert StringsPayload(strings) == [|strings| as byte] + (entries + [0]);
      DecodeEntriesOfEncoded(strings, [0]);
    } else {
      assert StringsPayload(strings) == [|strings| as byte] + (entries + []);
      DecodeEntriesOfEncoded(strings, []);
    }
  }

  /**
   * What the Strings payload holds beyond the strings themselves: the count
   * byte first, and after the entries exactly one zero byte when count and
   * entries make an odd length, nothing otherwise.
   */
  lemma StringsPayloadPadding(strings: seq<seq<byte>>)
    requires StringsFit(strings)
    ensures StringsPayload(strings)[0] == |strings|
    ensures DecodeEntries(StringsPayload(strings)[1..], |strings|)
         == Some((strings, if (1 + |StringEntries(strings)|) % 2 != 0 then [0] else []))
  {
    var entries := StringEntries(strings);
    var data := [|strings| as byte] + entries;
    assert |data| == 1 + |entries|;
    if |data| % 2 != 0 {
      assert StringsPayload(strings) == [|strings| as byte] + (entries + [0]);
      DecodeEntriesOfEncoded(strings, [0]);
    } else {
      assert StringsPayload(strings) == [|strings| as byte] + (entries + []);
      DecodeEntriesOfEncoded(strings, []);
    }
  }

  // ---------------------------------------------------------------------------
  // General category (type 30)

  datatype Identity = Identity(vendor: u32, product: u32, revision: u32, serial: u32)

  /** `struct.pack('<I I I I', VENDOR_ID, PRODUCT_CODE, REVISION, SERIAL)`. */
  function GeneralPayload(id: Identity): (r: seq<byte>)
    ensures |r| == 16
  {
    U32Le(id.vendor) + U32Le(id.product) + U32Le(id.revision) + U32Le(id.serial)
  }

  /** The protocol-flag tail one variant appends: CoE details = 1, then FoE, EoE, SoE, DS402, SysMan = 0. */
  const COE_FLAG_TAIL: seq<byte> := [0x01, 0x00, 0x00, 0x00, 0x00, 0x00]

  datatype GeneralInfo = GeneralInfo(id: Identity, coe: bool)

  /** Reads the four identity words; a flag byte past the payload's end means "not supported". */
  function DecodeGeneral(p: seq<byte>): Option<GeneralInfo>
  {
    if |p| < 16 then None
    else Some(GeneralInfo(Identity(U32At(p, 0), U32At(p, 4), U32At(p, 8), U32At(p, 12)),
                          |p| > 16 && p[16] % 2 == 1))
  }

  /** Round trip of the General category, without and with the CoE flag tail. */
  lemma GeneralRoundTrip(id: Identity)
    ensures DecodeGeneral(GeneralPayload(id)) == Some(GeneralInfo(id, false))
    ensures DecodeGeneral(GeneralPayload(id) + COE_FLAG_TAIL) == Some(GeneralInfo(id, true))
  {
    var p := GeneralPayload(id);
    var q := p + COE_FLAG_TAIL;
    assert p[0..4] == q[0..4] == U32Le(id.vendor);
    assert p[4..8] == q[4..8] == U32Le(id.product);
    assert p[8..12] == q[8..12] == U32Le(id.revision);
    assert p[12..16] == q[12..16] == U32Le(id.serial);
    U32AtSlice(p, U32Le(id.vendor), 0, 0);
    U32AtSlice(p, U32Le(id.product), 4, 0);
    U32AtSlice(p, U32Le(id.revision), 8, 0);
    U32AtSlice(p, U32Le(id.serial), 12, 0);
    U32AtSlice(q, U32Le(id.vendor), 0, 0);
    U32AtSlice(q, U32Le(id.product), 4, 0);
    U32AtSlice(q, U32Le(id.revision), 8, 0);
    U32AtSlice(q, U32Le(id.serial), 12, 0);
    assert q[16] == 1;
  }

  // ---------------------------------------------------------------------------
  // SyncManager category (type 40)

  datatype SyncManager = SyncManager(start: u16, length: u16, control: byte)

  /** Status 0, enable 1, PDI control 0: the last three bytes of every record the scripts write. */
  const SM_FIXED_TAIL: seq<byte> := [0, 1, 0]

  /** `struct.pack('<H H B B B B', start, length, control, 0, 1, 0)`. */
  function SyncManagerRecord(sm: SyncManager): (r: seq<byte>)
    ensures |r| == 8
    ensures U16At(r, 0) == sm.start && U16At(r, 2) == sm.length && r[4] == sm.control
    ensures r[5..] == SM_FIXED_TAIL
  {
    U16Le(sm.start) + U16Le(sm.length) + [sm.control, 0, 1, 0]
  }

  function SyncManagerPayload(sms: seq<SyncManager>): (r: seq<byte>)
    ensures |r| == 8 * |sms|
  {
    if sms == [] then [] else SyncManagerRecord(sms[0]) + SyncManagerPayload(sms[1..])
  }

  /**
   * One SyncManager per 8-byte record; a payload that is not whole records,
   * or a record whose status, enable and PDI control bytes are not `00 01 00`,
   * is rejected.
   */
  function DecodeSyncManagers(p: seq<byte>): Option<seq<SyncManager>>
    decreases |p|
  {
    if |p| % 8 != 0 then None
    else if p == [] then Some([])
    else if p[5..8] != SM_FIXED_TAIL then None
    else
      match DecodeSyncManagers(p[8..])
      case None => None
      case Some(more) => Some([SyncManager(U16At(p, 0), U16At(p, 2), p[4])] + more)
  }

  /** Round trip of the SyncManager category: every record comes back, in order. */
  lemma {:induction false} SyncManagersRoundTrip(sms: seq<SyncManager>)
    ensures DecodeSyncManagers(SyncManagerPayload(sms)) == Some(sms)
  {
    if sms != [] {
      var sm := sms[0];
      var p := SyncManagerPayload(sms);
      var r := SyncManagerRecord(sm);
      assert p == r + SyncManagerPayload(sms[1..]);
      assert p[8..] == SyncManagerPayload(sms[1..]);
      assert p[0..2] == U16Le(sm.start);
      assert p[2..4] == r[2..4] == U16Le(sm.length);
      U16AtSlice(p, U16Le(sm.start), 0, 0);
      U16AtSlice(p, U16Le(sm.length), 2, 0);
      assert p[4] == sm.control;
      assert p[5..8] == r[5..] == SM_FIXED_TAIL;
      SyncManagersRoundTrip(sms[1..]);
      assert [sm] + sms[1..] == sms;
    }
  }

  /** The converse: a payload the reader accepts is exactly the encoding of what it returns. */
  lemma {:induction false} SyncManagersDecodeExact(p: seq<byte>)
    ensures DecodeSyncManagers(p).Some? ==> p == SyncManagerPayload(DecodeSyncManagers(p).value)
    decreases |p|
  {
    if DecodeSyncManagers(p).Some? && p != [] {
      var more := DecodeSyncManagers(p[8..]).value;
      var sm := SyncManager(U16At(p, 0), U16At(p, 2), p[4]);
      SyncManagersDecodeExact(p[8..]);
      U16LeOfAt(p, 0);
      U16LeOfAt(p, 2);
      assert p[..8] == p[0..2] + p[2..4] + [p[4]] + p[5..8];
      assert p[..8] == SyncManagerRecord(sm);
      assert [sm] + more == DecodeSyncManagers(p).value;
      assert ([sm] + more)[1..] == more;
      assert p == p[..8] + p[8..];
    }
  }
}
