/**
 * What both boards' `HAL_FDCAN_RxFifo0Callback` do with one frame read from
 * RX FIFO 0, and with a FIFO drained until it is empty or a read fails.
 * The motherboard routes TxPDO frames (standard IDs 0x200..0x20E, 40-byte
 * `Motor_TxPDO_t`) into `g_robot_input.motor[]`; the satellite board routes
 * RxPDO frames (0x300..0x30E, 24-byte `Motor_RxPDO_t`) into
 * `g_robot_output.motor[]`. Every other frame is kept as the last received
 * frame for the main loop. The two boards differ only in the identifier base
 * and the PDO size, which are parameters here.
 */
module CanfdRouting {
  import opened Bytes

  const NUM_MOTORS: nat := 15
  /** Satellite-to-motherboard TxPDO frames start at this standard ID. */
  const TXPDO_BASE_STDID: nat := 0x200
  /** Motherboard-to-satellite RxPDO frames start at this standard ID. */
  const RXPDO_BASE_STDID: nat := 0x300
  /** `sizeof(Motor_TxPDO_t)`: motor_id and nine 32-bit floats. */
  const TXPDO_SIZE: nat := 40
  /** `sizeof(Motor_RxPDO_t)`: motor_id, torque_enable and four 32-bit floats. */
  const RXPDO_SIZE: nat := 24
  /** The `rx_data` buffer, and `CanfdRxFrame_t.data`. */
  const RX_DATA_SIZE: nat := 64
  /** `FDCAN_IT_RX_FIFO0_NEW_MESSAGE`, bit 0 of the FIFO 0 interrupt flags. */
  const RX_FIFO0_NEW_MESSAGE: nat := 0x1
  const U32_MODULUS: nat := 0x1_0000_0000

  /** `x++` on a `uint32_t`. */
  function Inc32(x: u32): (r: u32)
    ensures x < U32_MODULUS - 1 ==> r == x + 1
    ensures x == U32_MODULUS - 1 ==> r == 0
  {
    (x + 1) % U32_MODULUS
  }

  /** `(its & FDCAN_IT_RX_FIFO0_NEW_MESSAGE) != 0`: the mask is bit 0, so this is the parity of `its`. */
  predicate NewMessage(its: u32)
    ensures NewMessage(its) <==> (its as bv32) & 1 != 0
  {
    var b := its as bv32;
    assert b & 1 == b % 2;
    assert (b % 2) as int == its % 2;
    its % 2 == RX_FIFO0_NEW_MESSAGE
  }

  /** `Identifier & 0x7FF`: the low eleven bits, a standard identifier. */
  function StdId(identifier: u32): (sid: nat)
    ensures sid < 0x800
    ensures identifier < 0x800 ==> sid == identifier
  {
    identifier % 0x800
  }

  /** A PDO frame: 0x200 <= sid < 0x200 + NUM_MOTORS on the motherboard, 0x300.. on the satellite. */
  predicate IsPdoId(sid: nat, base: nat)
  {
    base <= sid < base + NUM_MOTORS
  }

  /** The `motor_id` field: the first four bytes of either PDO, little-endian on the Cortex-M7. */
  function MotorId(pdo: seq<byte>): u32
    requires |pdo| >= 4
  {
    U32At(pdo, 0)
  }

  /**
   * The slot a PDO frame is stored in: the payload's `motor_id` when it names
   * a motor, otherwise the offset of the identifier from the base. Either way
   * it is a valid index into the 15-slot motor array.
   */
  function SlotIndex(sid: nat, base: nat, pdo: seq<byte>): (idx: nat)
    requires IsPdoId(sid, base) && |pdo| >= 4
    ensures idx < NUM_MOTORS
    ensures MotorId(pdo) < NUM_MOTORS ==> idx == MotorId(pdo)
    ensures MotorId(pdo) >= NUM_MOTORS ==> base + idx == sid
  {
    if MotorId(pdo) < NUM_MOTORS then MotorId(pdo) else sid - base
  }

  /**
   * `rx_data` after `memset(rx_data, 0, 64)` and `HAL_FDCAN_GetRxMessage`:
   * the received bytes (at most 64) followed by zeros.
   */
  function RxBuffer(data: seq<byte>): (r: seq<byte>)
    ensures |r| == RX_DATA_SIZE
    ensures |data| <= RX_DATA_SIZE ==> r[..|data|] == data && r[|data|..] == Zeros(RX_DATA_SIZE - |data|)
    ensures |data| >= RX_DATA_SIZE ==> r == data[..RX_DATA_SIZE]
  {
    if |data| >= RX_DATA_SIZE then data[..RX_DATA_SIZE]
    else data + Zeros(RX_DATA_SIZE - |data|)
  }

  /** The fields of `FDCAN_RxHeaderTypeDef` the callback reads. */
  datatype RxHeader = RxHeader(identifier: u32, dataLength: u32, brsOn: bool, fdFormat: bool)

  /** One `HAL_FDCAN_GetRxMessage`: HAL_OK with a header and the received bytes, or an error. */
  datatype RxRead = RxOk(header: RxHeader, data: seq<byte>) | RxError

  /** `CanfdRxFrame_t`: the last non-PDO frame, for debugging in the main loop. */
  datatype RxFrame = RxFrame(stdId: u32, dlcRaw: u32, brs: byte, fd: byte, data: seq<byte>)

  /** A zero-initialised `CanfdRxFrame_t`. */
  const EMPTY_FRAME: RxFrame := RxFrame(0, 0, 0, 0, Zeros(RX_DATA_SIZE))

  /** The receive-side state of one board: counters, motor slots, last frame, pending flag. */
  datatype RxState = RxState(total: u32, pdoFrames: u32, otherFrames: u32,
                             slots: seq<seq<byte>>, lastRx: RxFrame, pending: bool)

  /** The `CanfdRxFrame_t` an other frame leaves in `s_last_rx`. */
  function LastRxOf(hdr: RxHeader, data: seq<byte>): (f: RxFrame)
    ensures f.stdId == StdId(hdr.identifier) && f.dlcRaw == hdr.dataLength
    ensures (f.brs == 1) == hdr.brsOn && (f.brs == 0) == !hdr.brsOn
    ensures (f.fd == 1) == hdr.fdFormat && (f.fd == 0) == !hdr.fdFormat
    ensures f.data == RxBuffer(data)
  {
    RxFrame(StdId(hdr.identifier), hdr.dataLength, if hdr.brsOn then 1 else 0,
            if hdr.fdFormat then 1 else 0, RxBuffer(data))
  }

  /**
   * One iteration of the drain loop after a successful read. The total goes
   * up by one; a PDO frame bumps the PDO counter and replaces exactly one
   * motor slot with the first `pdoSize` bytes of the buffer; any other frame
   * bumps the other counter and becomes the pending last frame.
   */
  function Receive(s: RxState, base: nat, pdoSize: nat, hdr: RxHeader, data: seq<byte>): (t: RxState)
    requires |s.slots| == NUM_MOTORS && 4 <= pdoSize <= RX_DATA_SIZE
    ensures |t.slots| == NUM_MOTORS
    ensures t.total == Inc32(s.total)
    ensures IsPdoId(StdId(hdr.identifier), base) <==> t.pdoFrames == Inc32(s.pdoFrames) && t.otherFrames == s.otherFrames
    ensures !IsPdoId(StdId(hdr.identifier), base) <==> t.otherFrames == Inc32(s.otherFrames) && t.pdoFrames == s.pdoFrames
    ensures IsPdoId(StdId(hdr.identifier), base) ==>
              var pdo := RxBuffer(data)[..pdoSize];
              var idx := SlotIndex(StdId(hdr.identifier), base, pdo);
              && t.slots[idx] == pdo
              && (forall j :: 0 <= j < NUM_MOTORS && j != idx ==> t.slots[j] == s.slots[j])
              && t.lastRx == s.lastRx && t.pending == s.pending
    ensures !IsPdoId(StdId(hdr.identifier), base) ==>
              t.slots == s.slots && t.lastRx == LastRxOf(hdr, data) && t.pending
  {
    var rx := RxBuffer(data);
    var sid := StdId(hdr.identifier);
    if IsPdoId(sid, base) then
      var pdo := rx[..pdoSize];
      s.(total := Inc32(s.total), pdoFrames := Inc32(s.pdoFrames),
         slots := s.slots[SlotIndex(sid, base, pdo) := pdo])
    else
      s.(total := Inc32(s.total), otherFrames := Inc32(s.otherFrames),
         lastRx := LastRxOf(hdr, data), pending := true)
  }

  /** The `while` loop of the callback: read until the FIFO is empty, stop at the first failed read. */
  function Drain(s: RxState, base: nat, pdoSize: nat, fifo: seq<RxRead>): (t: RxState)
    requires |s.slots| == NUM_MOTORS && 4 <= pdoSize <= RX_DATA_SIZE
    ensures |t.slots| == NUM_MOTORS
    decreases |fifo|
  {
    if fifo == [] then s
    else match fifo[0]
      case RxError => s
      case RxOk(hdr, data) => Drain(Receive(s, base, pdoSize, hdr, data), base, pdoSize, fifo[1..])
  }

  /** How many reads succeed before the first failure: the frames the callback takes from the FIFO. */
  function ReadsTaken(fifo: seq<RxRead>): (n: nat)
    ensures n <= |fifo|
    ensures forall i :: 0 <= i < n ==> fifo[i].RxOk?
    ensures n < |fifo| ==> fifo[n].RxError?
    decreases |fifo|
  {
    if fifo == [] || fifo[0].RxError? then 0 else 1 + ReadsTaken(fifo[1..])
  }

  /** The counter invariant: every frame counted is either a PDO frame or an other frame. */
  predicate CountersAgree(s: RxState)
  {
    s.total == (s.pdoFrames + s.otherFrames) % U32_MODULUS
  }

  /** `k` successive `x++` on a `uint32_t`. */
  function Inc32Times(x: u32, k: nat): u32
    decreases k
  {
    if k == 0 then x else Inc32Times(Inc32(x), k - 1)
  }

  /** A `uint32_t` incremented k times has advanced by k modulo 2^32: no increment is lost. */
  lemma {:induction false} Inc32TimesWraps(x: u32, k: nat)
    ensures Inc32Times(x, k) == (x + k) % U32_MODULUS
    decreases k
  {
    if k > 0 {
      Inc32TimesWraps(Inc32(x), k - 1);
      Inc32Then(x, k - 1, k);
    }
  }

  /** Adding n after a wrapping increment is adding n + 1, modulo 2^32. */
  lemma Inc32Then(x: u32, n: nat, m: nat)
    requires m == n + 1
    ensures (Inc32(x) + n) % U32_MODULUS == (x + m) % U32_MODULUS
  {
    if x + 1 == U32_MODULUS {
      assert x + m == n + U32_MODULUS;
    }
  }

  /** Draining bumps the total once per frame taken. */
  lemma {:induction false} DrainCountsFrames(s: RxState, base: nat, pdoSize: nat, fifo: seq<RxRead>)
    requires |s.slots| == NUM_MOTORS && 4 <= pdoSize <= RX_DATA_SIZE
    ensures Drain(s, base, pdoSize, fifo).total == Inc32Times(s.total, ReadsTaken(fifo))
    decreases |fifo|
  {
    if fifo != [] && fifo[0].RxOk? {
      var t := Receive(s, base, pdoSize, fifo[0].header, fifo[0].data);
      DrainCountsFrames(t, base, pdoSize, fifo[1..]);
    }
  }

  /** So the total advances by the number of frames taken, modulo 2^32. */
  lemma DrainAdvancesTotal(s: RxState, base: nat, pdoSize: nat, fifo: seq<RxRead>)
    requires |s.slots| == NUM_MOTORS && 4 <= pdoSize <= RX_DATA_SIZE
    ensures Drain(s, base, pdoSize, fifo).total == (s.total + ReadsTaken(fifo)) % U32_MODULUS
  {
    DrainCountsFrames(s, base, pdoSize, fifo);
    Inc32TimesWraps(s.total, ReadsTaken(fifo));
  }

  /** Incrementing one summand increments the wrapped sum. */
  lemma Inc32Sum(p: u32, o: u32)
    ensures (Inc32(p) + o) % U32_MODULUS == Inc32((p + o) % U32_MODULUS)
  {
    if p + o >= U32_MODULUS {
      assert (p + o) % U32_MODULUS == p + o - U32_MODULUS;
    } else {
      assert (p + o) % U32_MODULUS == p + o;
    }
  }

  /** Draining keeps the total equal to the PDO count plus the other count. */
  lemma {:induction false} DrainKeepsCountersAgree(s: RxState, base: nat, pdoSize: nat, fifo: seq<RxRead>)
    requires |s.slots| == NUM_MOTORS && 4 <= pdoSize <= RX_DATA_SIZE
    requires CountersAgree(s)
    ensures CountersAgree(Drain(s, base, pdoSize, fifo))
    decreases |fifo|
  {
    if fifo != [] && fifo[0].RxOk? {
      var t := Receive(s, base, pdoSize, fifo[0].header, fifo[0].data);
      if IsPdoId(StdId(fifo[0].header.identifier), base) {
        Inc32Sum(s.pdoFrames, s.otherFrames);
      } else {
        Inc32Sum(s.otherFrames, s.pdoFrames);
        assert s.pdoFrames + s.otherFrames == s.otherFrames + s.pdoFrames;
      }
      DrainKeepsCountersAgree(t, base, pdoSize, fifo[1..]);
    }
  }

  /** Frames behind a failed read stay in the FIFO: they have no effect on this callback. */
  lemma {:induction false} DrainStopsAtError(s: RxState, base: nat, pdoSize: nat, taken: seq<RxRead>, rest: seq<RxRead>)
    requires |s.slots| == NUM_MOTORS && 4 <= pdoSize <= RX_DATA_SIZE
    ensures Drain(s, base, pdoSize, taken + [RxError] + rest) == Drain(s, base, pdoSize, taken)
    decreases |taken|
  {
    if taken == [] {
      assert taken + [RxError] + rest == [RxError] + rest;
    } else {
      assert (taken + [RxError] + rest)[1..] == taken[1..] + [RxError] + rest;
      match taken[0]
      case RxError =>
      case RxOk(hdr, data) =>
        DrainStopsAtError(Receive(s, base, pdoSize, hdr, data), base, pdoSize, taken[1..], rest);
    }
  }

  /**
   * The drain depends only on the frames read before the first failed read
   * (or the whole FIFO when no read fails); nothing at all changes when the
   * first read fails.
   */
  lemma {:induction false} DrainTakesReads(s: RxState, base: nat, pdoSize: nat, fifo: seq<RxRead>)
    requires |s.slots| == NUM_MOTORS && 4 <= pdoSize <= RX_DATA_SIZE
    ensures Drain(s, base, pdoSize, fifo) == Drain(s, base, pdoSize, fifo[..ReadsTaken(fifo)])
    ensures ReadsTaken(fifo) == 0 ==> Drain(s, base, pdoSize, fifo) == s
    decreases |fifo|
  {
    if fifo != [] && fifo[0].RxOk? {
      var t := Receive(s, base, pdoSize, fifo[0].header, fifo[0].data);
      DrainTakesReads(t, base, pdoSize, fifo[1..]);
      var taken := fifo[..ReadsTaken(fifo)];
      assert taken[0] == fifo[0] && taken[1..] == fifo[1..][..ReadsTaken(fifo[1..])];
    }
  }

  /**
   * A slot changes only when a PDO frame is routed to it: if no frame taken
   * names slot j, slot j keeps its value.
   */
  lemma {:induction false} DrainKeepsUntouchedSlot(s: RxState, base: nat, pdoSize: nat, fifo: seq<RxRead>, j: nat)
    requires |s.slots| == NUM_MOTORS && 4 <= pdoSize <= RX_DATA_SIZE && j < NUM_MOTORS
    requires forall i :: 0 <= i < |fifo| && fifo[i].RxOk? && IsPdoId(StdId(fifo[i].header.identifier), base) ==>
               SlotIndex(StdId(fifo[i].header.identifier), base, RxBuffer(fifo[i].data)[..pdoSize]) != j
    ensures Drain(s, base, pdoSize, fifo).slots[j] == s.slots[j]
    decreases |fifo|
  {
    if fifo != [] && fifo[0].RxOk? {
      var t := Receive(s, base, pdoSize, fifo[0].header, fifo[0].data);
      forall i | 0 <= i < |fifo[1..]| && fifo[1..][i].RxOk? && IsPdoId(StdId(fifo[1..][i].header.identifier), base)
        ensures SlotIndex(StdId(fifo[1..][i].header.identifier), base, RxBuffer(fifo[1..][i].data)[..pdoSize]) != j
      {
        assert fifo[1..][i] == fifo[i + 1];
      }
      DrainKeepsUntouchedSlot(t, base, pdoSize, fifo[1..], j);
    }
  }

  /**
   * A frame handed to `HAL_FDCAN_AddMessageToTxFifoQ`. Every frame the boards
   * send is a standard-ID FD data frame with bit-rate switching, so only the
   * identifier and the payload vary; the DLC code names `|payload|` bytes.
   */
  datatype TxFrame = TxFrame(identifier: u32, payload: seq<byte>)

  /** The caller's `CanfdRxFrame_t` that `GetLastRx` copies into. */
  class FrameBox {
    var frame: RxFrame

    constructor ()
      ensures frame == EMPTY_FRAME
    {
      frame := EMPTY_FRAME;
    }
  }
}
