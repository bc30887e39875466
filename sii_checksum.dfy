/**
 * The additive header checksum of the EEPROM generators: byte 14 is chosen so
 * that the sum of bytes 0..13 plus byte 14 is 0xFF modulo 256.
 * (This is what the scripts compute; it is not the CRC-8 of the SII standard.)
 */
module SiiChecksum {
  import opened Bytes

  /** Bytes 0..13 are covered; the checksum byte itself is byte 14. */
  const CHECKSUM_OFFSET: nat := 14

  /** The sum of the first n bytes of s. */
  function HeaderSum(s: seq<byte>, n: nat): nat
    requires n <= |s|
  {
    if n == 0 then 0 else HeaderSum(s, n - 1) + s[n - 1]
  }

  /** The relation the checksum byte establishes. */
  predicate ChecksumValid(img: seq<byte>)
    requires |img| > CHECKSUM_OFFSET
  {
    (HeaderSum(img, CHECKSUM_OFFSET) + img[CHECKSUM_OFFSET]) % 0x100 == 0xFF
  }

  /**
   * `(0xFF - (current_sum & 0xFF)) & 0xFF`: the one byte that completes the
   * sum of bytes 0..13 to 0xFF modulo 256.
   */
  function ChecksumFor(img: seq<byte>): (c: byte)
    requires |img| >= CHECKSUM_OFFSET
    ensures (HeaderSum(img, CHECKSUM_OFFSET) + c) % 0x100 == 0xFF
  {
    (0xFF - HeaderSum(img, CHECKSUM_OFFSET) % 0x100) % 0x100
  }

  /** No other byte value completes the header sum: the stored checksum is determined by bytes 0..13. */
  lemma ChecksumUnique(img: seq<byte>, d: byte)
    requires |img| >= CHECKSUM_OFFSET
    requires (HeaderSum(img, CHECKSUM_OFFSET) + d) % 0x100 == 0xFF
    ensures d == ChecksumFor(img)
  {
  }

  /**
   * `calculate_checksum`: the loop that sums bytes 0..13 and derives byte 14.
   * The result completes the header sum to 0xFF.
   */
  method CalculateChecksum(eeprom: seq<byte>) returns (checksum: byte)
    requires |eeprom| >= CHECKSUM_OFFSET
    ensures checksum == ChecksumFor(eeprom)
    ensures (HeaderSum(eeprom, CHECKSUM_OFFSET) + checksum) % 0x100 == 0xFF
  {
    var currentSum: nat := 0;
    for i := 0 to CHECKSUM_OFFSET
      invariant currentSum == HeaderSum(eeprom, i)
    {
      currentSum := currentSum + eeprom[i] as nat;
    }
    checksum := (0xFF - currentSum % 0x100) % 0x100;
  }

  /** The sum of the first n bytes reads those bytes only. */
  lemma {:induction false} HeaderSumPrefix(s: seq<byte>, t: seq<byte>, n: nat)
    requires n <= |s| && n <= |t|
    requires s[..n] == t[..n]
    ensures HeaderSum(s, n) == HeaderSum(t, n)
  {
    if n > 0 {
      assert s[n - 1] == s[..n][n - 1] == t[..n][n - 1] == t[n - 1];
      assert s[..n - 1] == s[..n][..n - 1];
      assert t[..n - 1] == t[..n][..n - 1];
      HeaderSumPrefix(s, t, n - 1);
    }
  }

  /** Zero bytes add nothing: when bytes k..n-1 are zero, the first n bytes sum to the first k. */
  lemma {:induction false} HeaderSumZeros(s: seq<byte>, k: nat, n: nat)
    requires k <= n <= |s|
    requires forall i :: k <= i < n ==> s[i] == 0
    ensures HeaderSum(s, n) == HeaderSum(s, k)
  {
    if k < n {
      HeaderSumZeros(s, k, n - 1);
    }
  }

  /**
   * The checksum depends only on bytes 0..13: two images that agree there get
   * the same checksum, whatever their categories hold.
   */
  lemma ChecksumReadsHeaderOnly(s: seq<byte>, t: seq<byte>)
    requires |s| >= CHECKSUM_OFFSET && |t| >= CHECKSUM_OFFSET
    requires s[..CHECKSUM_OFFSET] == t[..CHECKSUM_OFFSET]
    ensures ChecksumFor(s) == ChecksumFor(t)
  {
    HeaderSumPrefix(s, t, CHECKSUM_OFFSET);
  }

  /** `eeprom[14] = calculate_checksum(eeprom)` leaves a valid header. */
  lemma StoreChecksumValid(img: seq<byte>)
    requires |img| > CHECKSUM_OFFSET
    ensures ChecksumValid(img[CHECKSUM_OFFSET := ChecksumFor(img)])
  {
    var stored := img[CHECKSUM_OFFSET := ChecksumFor(img)];
    assert stored[..CHECKSUM_OFFSET] == img[..CHECKSUM_OFFSET];
    HeaderSumPrefix(stored, img, CHECKSUM_OFFSET);
  }

  /** Changing a single header byte (0..13) while keeping byte 14 breaks a valid checksum. */
  lemma {:induction false} SingleByteChangeDetected(img: seq<byte>, j: nat, v: byte)
    requires |img| > CHECKSUM_OFFSET && j < CHECKSUM_OFFSET
    requires v != img[j]
    requires ChecksumValid(img)
    ensures !ChecksumValid(img[j := v])
  {
    HeaderSumChange(img, j, v, CHECKSUM_OFFSET);
  }

  /** Replacing byte j < n by v shifts the sum of the first n bytes by v - s[j]. */
  lemma {:induction false} HeaderSumChange(s: seq<byte>, j: nat, v: byte, n: nat)
    requires j < n <= |s|
    ensures HeaderSum(s[j := v], n) == HeaderSum(s, n) - s[j] + v
  {
    if n - 1 == j {
      assert s[j := v][..j] == s[..j];
      HeaderSumPrefix(s[j := v], s, j);
    } else {
      HeaderSumChange(s, j, v, n - 1);
    }
  }
}
