/**
 * Unsigned byte, 16-bit and 32-bit values and their little-endian
 * serialisation, as done by Python's `struct.pack('<H')` / `struct.pack('<I')`
 * in the EEPROM generators.
 */
module Bytes {

  type byte = x: int | 0 <= x < 0x100
  type u16 = x: int | 0 <= x < 0x1_0000
  type u32 = x: int | 0 <= x < 0x1_0000_0000

  /** `bytearray(n)`: n zero bytes. */
  function Zeros(n: nat): (r: seq<byte>)
    ensures |r| == n
    ensures forall i :: 0 <= i < n ==> r[i] == 0
  {
    seq(n, _ => 0)
  }

  /** The little-endian 16-bit word stored at s[i], s[i+1]. */
  function U16At(s: seq<byte>, i: nat): (x: u16)
    requires i + 2 <= |s|
  {
    s[i] as int + 0x100 * s[i + 1] as int
  }

  /** The little-endian 32-bit word stored at s[i..i+4]. */
  function U32At(s: seq<byte>, i: nat): (x: u32)
    requires i + 4 <= |s|
  {
    s[i] as int + 0x100 * s[i + 1] as int + 0x1_0000 * s[i + 2] as int + 0x100_0000 * s[i + 3] as int
  }

  /** `struct.pack('<H', x)`: low byte first; reading it back gives x. */
  function U16Le(x: u16): (r: seq<byte>)
    ensures |r| == 2 && U16At(r, 0) == x
  {
    [x % 0x100, x / 0x100]
  }

  /** `struct.pack('<I', x)`: least significant byte first; reading it back gives x. */
  function U32Le(x: u32): (r: seq<byte>)
    ensures |r| == 4 && U32At(r, 0) == x
  {
    var y1 := x / 0x100;
    var y2 := y1 / 0x100;
    assert x == x % 0x100 + 0x100 * y1;
    assert y1 == y1 % 0x100 + 0x100 * y2;
    assert y2 == y2 % 0x100 + 0x100 * (y2 / 0x100);
    [x % 0x100, y1 % 0x100, y2 % 0x100, y2 / 0x100]
  }

  /** Only the stored bytes determine a decoded word: U16At reads two bytes and no others. */
  lemma U16AtSlice(s: seq<byte>, t: seq<byte>, i: nat, j: nat)
    requires i + 2 <= |s| && j + 2 <= |t|
    requires s[i..i + 2] == t[j..j + 2]
    ensures U16At(s, i) == U16At(t, j)
  {
    assert s[i] == s[i..i + 2][0] == t[j..j + 2][0] == t[j];
    assert s[i + 1] == s[i..i + 2][1] == t[j..j + 2][1] == t[j + 1];
  }

  /** Writing back a word read from s gives the two bytes it was read from. */
  lemma U16LeOfAt(s: seq<byte>, i: nat)
    requires i + 2 <= |s|
    ensures U16Le(U16At(s, i)) == s[i..i + 2]
  {
    var x := U16At(s, i);
    assert x % 0x100 == s[i] && x / 0x100 == s[i + 1];
  }

  /** Only the stored bytes determine a decoded word: U32At reads four bytes and no others. */
  lemma U32AtSlice(s: seq<byte>, t: seq<byte>, i: nat, j: nat)
    requires i + 4 <= |s| && j + 4 <= |t|
    requires s[i..i + 4] == t[j..j + 4]
    ensures U32At(s, i) == U32At(t, j)
  {
    assert s[i] == s[i..i + 4][0] == t[j..j + 4][0] == t[j];
    assert s[i + 1] == s[i..i + 4][1] == t[j..j + 4][1] == t[j + 1];
    assert s[i + 2] == s[i..i + 4][2] == t[j..j + 4][2] == t[j + 2];
    assert s[i + 3] == s[i..i + 4][3] == t[j..j + 4][3] == t[j + 3];
  }

  /**
   * Python's equal-length slice assignment `s[off:off+len(b)] = b`:
   * b replaces the bytes at off and every other byte keeps its value.
   */
  function Splice(s: seq<byte>, off: nat, b: seq<byte>): (r: seq<byte>)
    requires off + |b| <= |s|
    ensures |r| == |s|
    ensures r[off..off + |b|] == b
    ensures forall i :: 0 <= i < |s| && !(off <= i < off + |b|) ==> r[i] == s[i]
  {
    s[..off] + b + s[off + |b|..]
  }

  /** Two adjacent slice writes equal one write of the concatenated bytes. */
  lemma SpliceAdjacent(s: seq<byte>, off: nat, a: seq<byte>, b: seq<byte>)
    requires off + |a| + |b| <= |s|
    ensures Splice(Splice(s, off, a), off + |a|, b) == Splice(s, off, a + b)
  {
    var l := Splice(Splice(s, off, a), off + |a|, b);
    var r := Splice(s, off, a + b);
    forall i | 0 <= i < |s|
      ensures l[i] == r[i]
    {
      if off <= i < off + |a| {
        assert l[i] == Splice(s, off, a)[off..off + |a|][i - off];
        assert r[i] == r[off..off + |a| + |b|][i - off];
      } else if off + |a| <= i < off + |a| + |b| {
        assert l[i] == l[off + |a|..off + |a| + |b|][i - off - |a|];
        assert r[i] == r[off..off + |a| + |b|][i - off];
      }
    }
  }

  /** Four adjacent slice writes equal one write of the concatenated bytes. */
  lemma SpliceFour(s: seq<byte>, off: nat, a: seq<byte>, b: seq<byte>, c: seq<byte>, d: seq<byte>)
    requires off + |a| + |b| + |c| + |d| <= |s|
    ensures Splice(Splice(Splice(Splice(s, off, a), off + |a|, b), off + |a| + |b|, c), off + |a| + |b| + |c|, d)
         == Splice(s, off, a + b + c + d)
  {
    SpliceAdjacent(s, off, a, b);
    SpliceAdjacent(s, off, a + b, c);
    SpliceAdjacent(s, off, a + b + c, d);
  }

  /** The first sixteen bytes of a sequence, one by one. */
  lemma SixteenBytes(s: seq<byte>)
    requires |s| >= 16
    ensures s[..16] == [s[0], s[1], s[2], s[3], s[4], s[5], s[6], s[7],
                        s[8], s[9], s[10], s[11], s[12], s[13], s[14], s[15]]
  {
  }
}
