/**
 * The SPI bring-up test of the LAN9252 EtherCAT slave controller
 * (`lan9252_test.c` on the F446 slave board): the 3-byte read command and
 * 7-byte write command frames, the least-significant-byte-first assembly of a
 * 32-bit register value, the chip-select discipline around each transfer, the
 * BYTE_TEST retry loop and the INT_EN write/readback test.
 *
 * The SPI transfers themselves belong to the HAL: each one is given to the
 * model as its outcome (a status and, for a receive, the four bytes clocked
 * in). What the MCU drives on the bus is recorded as a trace of events.
 */
module Lan9252 {

  /** `HAL_StatusTypeDef` */
  datatype HalStatus = HalOk | HalError | HalBusy | HalTimeout

  /** What the MCU does on the SPI bus and its control pins, in order. */
  datatype SpiEvent = CsLow | CsHigh | RstLow | RstHigh | Transmit(bytes: seq<bv8>) | Receive(count: nat)

  /** SPI instruction bytes: serial read and serial write. */
  const READ_CMD: bv8 := 0x03
  const WRITE_CMD: bv8 := 0x02

  /** The BYTE_TEST register and the pattern it reads when the SPI link is right. */
  const BYTE_TEST_ADDR: bv16 := 0x0064
  const BYTE_TEST_VALUE: bv32 := 0x8765_4321
  /** `LAN9252_SPI_ProofOfLife` reads BYTE_TEST at most this often. */
  const PROOF_OF_LIFE_TRIES: nat := 20
  /** The interrupt-enable register used for the write/readback test. */
  const INT_EN_ADDR: bv16 := 0x005C

  /** The 16-bit address a high and a low byte stand for. */
  function AddrOf(hi: bv8, lo: bv8): bv16
  {
    (hi as bv16 << 8) | lo as bv16
  }

  /** `hdr[]` of `lan9252_read32`: the read instruction, then the address most significant byte first. */
  function ReadHeader(addr: bv16): (h: seq<bv8>)
    ensures |h| == 3 && h[0] == READ_CMD
    ensures AddrOf(h[1], h[2]) == addr
  {
    [READ_CMD, (addr >> 8) as bv8, (addr & 0xFF) as bv8]
  }

  /** `*out` of `lan9252_read32`: the four received bytes, least significant first. */
  function AssembleLe(rx: seq<bv8>): (v: bv32)
    requires |rx| == 4
    ensures (v & 0xFF) as bv8 == rx[0] && ((v >> 8) & 0xFF) as bv8 == rx[1]
    ensures ((v >> 16) & 0xFF) as bv8 == rx[2] && ((v >> 24) & 0xFF) as bv8 == rx[3]
  {
    ByteLanes(rx[0], rx[1], rx[2], rx[3]);
    (rx[0] as bv32) | (rx[1] as bv32 << 8) | (rx[2] as bv32 << 16) | (rx[3] as bv32 << 24)
  }

  /**
   * `tx[]` of `lan9252_write32`: the write instruction, the address most
   * significant byte first, then the value least significant byte first.
   */
  function WriteFrame(addr: bv16, val: bv32): (f: seq<bv8>)
    ensures |f| == 7 && f[0] == WRITE_CMD
    ensures f[1..3] == ReadHeader(addr)[1..]
  {
    [WRITE_CMD, (addr >> 8) as bv8, (addr & 0xFF) as bv8,
     (val & 0xFF) as bv8, ((val >> 8) & 0xFF) as bv8, ((val >> 16) & 0xFF) as bv8, ((val >> 24) & 0xFF) as bv8]
  }

  /** Reading back the data bytes of a write frame with the read formula gives the written value. */
  lemma WriteDataRoundTrip(addr: bv16, val: bv32)
    ensures AssembleLe(WriteFrame(addr, val)[3..]) == val
  {
    var d := WriteFrame(addr, val)[3..];
    assert d == [(val & 0xFF) as bv8, ((val >> 8) & 0xFF) as bv8, ((val >> 16) & 0xFF) as bv8, ((val >> 24) & 0xFF) as bv8];
  }

  /** And the other way: the data bytes of a write frame for an assembled value are the received bytes. */
  lemma ReceivedBytesRoundTrip(addr: bv16, rx: seq<bv8>)
    requires |rx| == 4
    ensures WriteFrame(addr, AssembleLe(rx))[3..] == rx
  {
    ByteLanes(rx[0], rx[1], rx[2], rx[3]);
  }

  /** Each byte lane of an assembled word is the byte put there. */
  lemma ByteLanes(b0: bv8, b1: bv8, b2: bv8, b3: bv8)
    ensures var v := (b0 as bv32) | (b1 as bv32 << 8) | (b2 as bv32 << 16) | (b3 as bv32 << 24);
            && (v & 0xFF) as bv8 == b0 && ((v >> 8) & 0xFF) as bv8 == b1
            && ((v >> 16) & 0xFF) as bv8 == b2 && ((v >> 24) & 0xFF) as bv8 == b3
  {
  }

  /**
   * The outcome of the two HAL calls of one `lan9252_read32`: the status of
   * the header transmit, the status of the receive and the four bytes it
   * clocked in.
   */
  datatype ReadOutcome = ReadOutcome(txStatus: HalStatus, rxStatus: HalStatus, received: seq<bv8>)

  /** The status `lan9252_read32` returns: the first failure, or HAL_OK. */
  function ReadStatus(a: ReadOutcome): (st: HalStatus)
    ensures st == HalOk <==> a.txStatus == HalOk && a.rxStatus == HalOk
    ensures a.txStatus != HalOk ==> st == a.txStatus
  {
    if a.txStatus != HalOk then a.txStatus else a.rxStatus
  }

  /** `*out` after `lan9252_read32`: the assembled value on success, untouched otherwise. */
  function ReadValue(out: bv32, a: ReadOutcome): (v: bv32)
    requires |a.received| == 4
    ensures ReadStatus(a) == HalOk ==> v == AssembleLe(a.received)
    ensures ReadStatus(a) != HalOk ==> v == out
  {
    if ReadStatus(a) == HalOk then AssembleLe(a.received) else out
  }

  /** The bus traffic of one read: CS low, header, the receive only if the header went out, CS high. */
  function ReadWire(addr: bv16, a: ReadOutcome): (w: seq<SpiEvent>)
    ensures |w| >= 3 && w[0] == CsLow && w[|w| - 1] == CsHigh
    ensures w[1] == Transmit(ReadHeader(addr))
  {
    [CsLow, Transmit(ReadHeader(addr))] + (if a.txStatus == HalOk then [Receive(4)] else []) + [CsHigh]
  }

  /** The bus traffic of one write: one 7-byte transfer between CS low and CS high. */
  function WriteWire(addr: bv16, val: bv32): seq<SpiEvent>
  {
    [CsLow, Transmit(WriteFrame(addr, val)), CsHigh]
  }

  /** The bus traffic of successive reads of one register. */
  function ReadsWire(addr: bv16, attempts: seq<ReadOutcome>): seq<SpiEvent>
  {
    if attempts == [] then []
    else ReadsWire(addr, attempts[..|attempts| - 1]) + ReadWire(addr, attempts[|attempts| - 1])
  }

  /** One more read appends its traffic. */
  lemma ReadsWireStep(addr: bv16, attempts: seq<ReadOutcome>, i: nat)
    requires i < |attempts|
    ensures ReadsWire(addr, attempts[..i + 1]) == ReadsWire(addr, attempts[..i]) + ReadWire(addr, attempts[i])
  {
    assert attempts[..i + 1][..i] == attempts[..i];
  }

  /** `lan9252_reset_pulse`: CS inactive, then RST low and high again. */
  const RESET_WIRE: seq<SpiEvent> := [CsHigh, RstLow, RstHigh]

  /** A BYTE_TEST read that proves the link: it succeeded and read 0x87654321. */
  predicate Passes(a: ReadOutcome)
  {
    ReadStatus(a) == HalOk && |a.received| == 4 && AssembleLe(a.received) == BYTE_TEST_VALUE
  }

  /** The index of the first passing read, or the number of reads when none passes. */
  function FirstPass(attempts: seq<ReadOutcome>): (k: nat)
    ensures k <= |attempts|
    ensures forall j :: 0 <= j < k ==> !Passes(attempts[j])
    ensures k < |attempts| ==> Passes(attempts[k])
  {
    if attempts == [] then 0
    else if Passes(attempts[0]) then 0
    else 1 + FirstPass(attempts[1..])
  }

  /** The SPI side of the slave board: the CS pin level and the bus traffic so far. */
  class Lan9252Port {
    /** The CS pin is high, i.e. the LAN9252 is deselected. */
    var csHigh: bool
    var wire: seq<SpiEvent>

    constructor ()
      ensures csHigh && wire == []
    {
      csHigh := true;
      wire := [];
    }

    /** `lan_cs_low` */
    method SelectChip()
      modifies this
      ensures !csHigh && wire == old(wire) + [CsLow]
    {
      csHigh := false;
      wire := wire + [CsLow];
    }

    /** `lan_cs_high` */
    method DeselectChip()
      modifies this
      ensures csHigh && wire == old(wire) + [CsHigh]
    {
      csHigh := true;
      wire := wire + [CsHigh];
    }

    /** `lan9252_reset_pulse`, without its delays. */
    method ResetPulse()
      modifies this
      ensures csHigh && wire == old(wire) + RESET_WIRE
    {
      DeselectChip();
      wire := wire + [RstLow];
      wire := wire + [RstHigh];
    }

    /**
     * `lan9252_read32(addr, out)`: the status of the first failing transfer
     * with `*out` untouched, or HAL_OK with the assembled value. CS is high
     * again on every exit.
     */
    method Read32(addr: bv16, out: bv32, outcome: ReadOutcome) returns (st: HalStatus, value: bv32)
      requires |outcome.received| == 4
      modifies this
      ensures st == ReadStatus(outcome) && value == ReadValue(out, outcome)
      ensures csHigh && wire == old(wire) + ReadWire(addr, outcome)
    {
      var hdr := ReadHeader(addr);
      SelectChip();
      wire := wire + [Transmit(hdr)];
      st := outcome.txStatus;
      if st != HalOk {
        DeselectChip();
        return st, out;
      }
      wire := wire + [Receive(4)];
      st := outcome.rxStatus;
      DeselectChip();
      if st != HalOk {
        return st, out;
      }
      value := AssembleLe(outcome.received);
      return HalOk, value;
    }

    /** `lan9252_write32(addr, val)`: one 7-byte transfer between CS low and CS high; its status. */
    method Write32(addr: bv16, val: bv32, txStatus: HalStatus) returns (st: HalStatus)
      modifies this
      ensures st == txStatus
      ensures csHigh && wire == old(wire) + WriteWire(addr, val)
    {
      var tx := WriteFrame(addr, val);
      SelectChip();
      wire := wire + [Transmit(tx)];
      st := txStatus;
      DeselectChip();
    }

    /**
     * `LAN9252_SPI_ProofOfLife`: after the reset pulse, read BYTE_TEST until
     * it reads 0x87654321, at most 20 times. It passes exactly when one of the
     * first 20 reads passes, stops right after the first that does, and
     * otherwise makes all 20 reads. `attempts` lists the outcomes of the
     * successive reads.
     */
    method ProofOfLife(attempts: seq<ReadOutcome>) returns (passed: bool, readCount: nat)
      requires |attempts| >= PROOF_OF_LIFE_TRIES
      requires forall k :: 0 <= k < |attempts| ==> |attempts[k].received| == 4
      modifies this
      ensures readCount <= PROOF_OF_LIFE_TRIES
      ensures passed <==> FirstPass(attempts[..PROOF_OF_LIFE_TRIES]) < PROOF_OF_LIFE_TRIES
      ensures passed ==> readCount == FirstPass(attempts[..PROOF_OF_LIFE_TRIES]) + 1
      ensures !passed ==> readCount == PROOF_OF_LIFE_TRIES
      ensures csHigh && wire == old(wire) + RESET_WIRE + ReadsWire(BYTE_TEST_ADDR, attempts[..readCount])
    {
      ResetPulse();
      var i := 0;
      while i < PROOF_OF_LIFE_TRIES
        invariant 0 <= i <= PROOF_OF_LIFE_TRIES
        invariant forall j :: 0 <= j < i ==> !Passes(attempts[j])
        invariant csHigh && wire == old(wire) + RESET_WIRE + ReadsWire(BYTE_TEST_ADDR, attempts[..i])
      {
        ghost var before := wire;
        var st, v := Read32(BYTE_TEST_ADDR, 0, attempts[i]);
        ReadsWireStep(BYTE_TEST_ADDR, attempts, i);
        assert wire == old(wire) + RESET_WIRE + ReadsWire(BYTE_TEST_ADDR, attempts[..i + 1]) by {
          assert wire == before + ReadWire(BYTE_TEST_ADDR, attempts[i]);
        }
        if st == HalOk && v == BYTE_TEST_VALUE {
          FirstPassAt(attempts[..PROOF_OF_LIFE_TRIES], i);
          return true, i + 1;
        }
        i := i + 1;
      }
      FirstPassAt(attempts[..PROOF_OF_LIFE_TRIES], PROOF_OF_LIFE_TRIES);
      return false, PROOF_OF_LIFE_TRIES;
    }

    /**
     * `LAN9252_WriteReadback_Test` as written: read INT_EN into `orig` (0
     * if the read fails), write `orig ^ 1`, read it back into `rd`, write
     * `orig`, read into `rd` again, and pass when `rd` equals `orig`. No
     * status is checked, and the value read after the first write is only
     * printed.
     */
    method WriteReadbackTest(first: ReadOutcome, w1: HalStatus, second: ReadOutcome, w2: HalStatus, third: ReadOutcome)
      returns (passed: bool)
      requires |first.received| == 4 && |second.received| == 4 && |third.received| == 4
      modifies this
      ensures passed == UncheckedVerdict(first, second, third)
      ensures var orig := ReadValue(0, first);
              wire == old(wire) + ReadWire(INT_EN_ADDR, first) + WriteWire(INT_EN_ADDR, FlipBit0(orig))
                      + ReadWire(INT_EN_ADDR, second) + WriteWire(INT_EN_ADDR, orig) + ReadWire(INT_EN_ADDR, third)
      ensures csHigh
    {
      var _, orig := Read32(INT_EN_ADDR, 0, first);
      var test := orig ^ 1;
      var _ := Write32(INT_EN_ADDR, test, w1);
      var _, rd := Read32(INT_EN_ADDR, 0, second);
      var _ := Write32(INT_EN_ADDR, orig, w2);
      var _, rd2 := Read32(INT_EN_ADDR, rd, third);
      passed := rd2 == orig;
    }

    /**
     * The write/readback test with every status checked and the readback
     * after the first write compared with the value written: it passes only
     * when all five transfers succeed, the register reads `orig ^ 1` after
     * the first write and `orig` after the restore.
     */
    method CheckedWriteReadbackTest(first: ReadOutcome, w1: HalStatus, second: ReadOutcome, w2: HalStatus, third: ReadOutcome)
      returns (passed: bool)
      requires |first.received| == 4 && |second.received| == 4 && |third.received| == 4
      modifies this
      ensures passed == CheckedVerdict(first, w1, second, w2, third)
      ensures var orig := ReadValue(0, first);
              wire == old(wire) + ReadWire(INT_EN_ADDR, first) + WriteWire(INT_EN_ADDR, FlipBit0(orig))
                      + ReadWire(INT_EN_ADDR, second) + WriteWire(INT_EN_ADDR, orig) + ReadWire(INT_EN_ADDR, third)
      ensures csHigh
    {
      var st1, orig := Read32(INT_EN_ADDR, 0, first);
      var test := FlipBit0(orig);
      var st2 := Write32(INT_EN_ADDR, test, w1);
      var st3, rd := Read32(INT_EN_ADDR, 0, second);
      var st4 := Write32(INT_EN_ADDR, orig, w2);
      var st5, rd2 := Read32(INT_EN_ADDR, rd, third);
      passed := st1 == HalOk && st2 == HalOk && st3 == HalOk && st4 == HalOk && st5 == HalOk
                && rd == test && rd2 == orig;
      assert passed == CheckedVerdict(first, w1, second, w2, third) by {
        if st1 == HalOk && st3 == HalOk && st5 == HalOk {
          assert orig == AssembleLe(first.received) && rd == AssembleLe(second.received)
              && rd2 == AssembleLe(third.received);
        }
      }
    }
  }

  /** The verdict of the test as written: the value left in `rd` equals the value left in `orig`. */
  predicate UncheckedVerdict(first: ReadOutcome, second: ReadOutcome, third: ReadOutcome)
    requires |first.received| == 4 && |second.received| == 4 && |third.received| == 4
  {
    ReadValue(ReadValue(0, second), third) == ReadValue(0, first)
  }

  /** The verdict of the checked test: all transfers succeed, the flipped value and then the original read back. */
  predicate CheckedVerdict(first: ReadOutcome, w1: HalStatus, second: ReadOutcome, w2: HalStatus, third: ReadOutcome)
    requires |first.received| == 4 && |second.received| == 4 && |third.received| == 4
  {
    && ReadStatus(first) == HalOk && w1 == HalOk && ReadStatus(second) == HalOk
    && w2 == HalOk && ReadStatus(third) == HalOk
    && AssembleLe(second.received) == FlipBit0(AssembleLe(first.received))
    && AssembleLe(third.received) == AssembleLe(first.received)
  }

  /** The checked test is stricter than the one as written. */
  lemma CheckedTestIsStricter(first: ReadOutcome, w1: HalStatus, second: ReadOutcome, w2: HalStatus, third: ReadOutcome)
    requires |first.received| == 4 && |second.received| == 4 && |third.received| == 4
    requires CheckedVerdict(first, w1, second, w2, third)
    ensures UncheckedVerdict(first, second, third)
  {
    assert ReadValue(ReadValue(0, second), third) == AssembleLe(third.received);
  }

  /**
   * When the checked test passes the register really changed: the value
   * read after the first write differs from the original in bit 0 and only
   * there.
   */
  lemma CheckedTestSeesWrite(first: ReadOutcome, w1: HalStatus, second: ReadOutcome, w2: HalStatus, third: ReadOutcome)
    requires |first.received| == 4 && |second.received| == 4 && |third.received| == 4
    requires CheckedVerdict(first, w1, second, w2, third)
    ensures AssembleLe(second.received) != AssembleLe(first.received)
    ensures AssembleLe(second.received) & 0xFFFF_FFFE == AssembleLe(first.received) & 0xFFFF_FFFE
  {
    FlippedDiffersInBit0Only(AssembleLe(first.received), AssembleLe(second.received));
  }

  /** A value equal to `v ^ 1` is not `v`, and agrees with it in bits 1..31. */
  lemma FlippedDiffersInBit0Only(v: bv32, w: bv32)
    requires w == FlipBit0(v)
    ensures w != v && w & 0xFFFF_FFFE == v & 0xFFFF_FFFE
  {
    FlipBit0KeepsOtherBits(v);
  }

  /** `orig ^ 0x00000001`: bit 0 flipped. */
  function FlipBit0(v: bv32): (r: bv32)
    ensures r & 1 != v & 1
  {
    v ^ 1
  }

  /** The test value differs from `orig` in bit 0 only: bits 1..31 are kept. */
  lemma FlipBit0KeepsOtherBits(v: bv32)
    ensures FlipBit0(v) & 0xFFFF_FFFE == v & 0xFFFF_FFFE
  {
  }

  /** k is the first passing index of `attempts` when the reads before it fail and it passes (or is the end). */
  lemma FirstPassAt(attempts: seq<ReadOutcome>, k: nat)
    requires k <= |attempts|
    requires forall j :: 0 <= j < k ==> !Passes(attempts[j])
    requires k < |attempts| ==> Passes(attempts[k])
    ensures FirstPass(attempts) == k
  {
  }

  /**
   * With the link dead (every read fails), the test as written still
   * passes, since `orig` and `rd` both stay 0; the checked test fails.
   */
  lemma DeadLinkPassesUncheckedTest(first: ReadOutcome, w1: HalStatus, second: ReadOutcome, w2: HalStatus, third: ReadOutcome)
    requires |first.received| == 4 && |second.received| == 4 && |third.received| == 4
    requires ReadStatus(first) != HalOk && ReadStatus(second) != HalOk && ReadStatus(third) != HalOk
    ensures UncheckedVerdict(first, second, third)
    ensures !CheckedVerdict(first, w1, second, w2, third)
  {
  }

  /**
   * A register that ignores the write (every read succeeds with the same
   * bytes) also passes the test as written; the checked test fails, since
   * the value read after the first write is not the flipped one.
   */
  lemma IgnoredWritePassesUncheckedTest(rx: seq<bv8>, w1: HalStatus, w2: HalStatus)
    requires |rx| == 4
    ensures var read := ReadOutcome(HalOk, HalOk, rx);
            && UncheckedVerdict(read, read, read)
            && !CheckedVerdict(read, w1, read, w2, read)
  {
    var v := AssembleLe(rx);
    assert FlipBit0(v) != v by {
      assert FlipBit0(v) & 1 != v & 1;
    }
  }
}
