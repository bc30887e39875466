/**
 * The motherboard's `canfd_utils.c`: the 1 kHz tick counter handed from the
 * timer ISR to the main loop, the RX FIFO 0 callback that fills
 * `g_robot_input.motor[]` from the satellites' TxPDO frames, the last other
 * frame and its pending flag, and the frames it sends (an all-zero 32-byte
 * frame, and a 24-byte RxPDO command to one motor).
 */
module CanfdMotherboard {
  import opened Bytes
  import opened Wrappers
  import opened CanfdRouting

  /** `CANFD_Utils_SendEmpty32`: 32 zero bytes under the low eleven bits of `std_id`. */
  function SendEmpty32(stdId: u32): (f: TxFrame)
    ensures f.identifier < 0x800 && f.identifier == stdId % 0x800
    ensures |f.payload| == 32 && forall i :: 0 <= i < 32 ==> f.payload[i] == 0
  {
    TxFrame(StdId(stdId), Zeros(32))
  }

  /**
   * The 24-byte payload of `CANFD_Utils_SendMotorRxPDO`: the caller's PDO, or
   * zeros when it passes NULL, with `motor_id` replaced by the argument.
   */
  function RxPdoPayload(motorId: u32, pdo: Option<seq<byte>>): (p: seq<byte>)
    requires pdo.Some? ==> |pdo.value| == RXPDO_SIZE
    ensures |p| == RXPDO_SIZE && MotorId(p) == motorId
    ensures pdo.Some? ==> p[4..] == pdo.value[4..]
    ensures pdo.None? ==> p[4..] == Zeros(RXPDO_SIZE - 4)
  {
    var msg := if pdo.Some? then pdo.value else Zeros(RXPDO_SIZE);
    U32Le(motorId) + msg[4..]
  }

  /**
   * `CANFD_Utils_SendMotorRxPDO`: the identifier `(0x300 + (motor_id & 0xF)) & 0x7FF`
   * always lies in 0x300..0x30F and carries the low four bits of the motor id.
   */
  function SendMotorRxPdo(motorId: u32, pdo: Option<seq<byte>>): (f: TxFrame)
    requires pdo.Some? ==> |pdo.value| == RXPDO_SIZE
    ensures RXPDO_BASE_STDID <= f.identifier < RXPDO_BASE_STDID + 0x10
    ensures f.identifier - RXPDO_BASE_STDID == motorId % 0x10
    ensures f.payload == RxPdoPayload(motorId, pdo)
  {
    TxFrame(StdId(RXPDO_BASE_STDID + motorId % 0x10), RxPdoPayload(motorId, pdo))
  }

  /** The module state of the motherboard's `canfd_utils.c`. */
  class Motherboard {
    /** `s_tick_1khz_count` */
    var tickCount: u32
    /** `s_rx_pending` */
    var rxPending: bool
    /** `s_last_rx` */
    var lastRx: RxFrame
    /** `g_rx_frames_total`, `g_rx_frames_txpdo`, `g_rx_frames_other` */
    var framesTotal: u32
    var framesTxPdo: u32
    var framesOther: u32
    /** `g_robot_input.motor[]`: one 40-byte TxPDO per motor. */
    const robotInput: array<seq<byte>>

    predicate Valid()
    {
      robotInput.Length == NUM_MOTORS
    }

    /** The receive-side state the callback changes. */
    function State(): RxState
      reads this, robotInput
    {
      RxState(framesTotal, framesTxPdo, framesOther, robotInput[..], lastRx, rxPending)
    }

    /** Static storage starts zeroed. */
    constructor ()
      ensures Valid() && fresh(robotInput) && tickCount == 0
      ensures State() == RxState(0, 0, 0, seq(NUM_MOTORS, _ => Zeros(TXPDO_SIZE)), EMPTY_FRAME, false)
    {
      tickCount := 0;
      rxPending := false;
      lastRx := EMPTY_FRAME;
      framesTotal := 0;
      framesTxPdo := 0;
      framesOther := 0;
      robotInput := new seq<byte>[NUM_MOTORS](_ => Zeros(TXPDO_SIZE));
    }

    /** `CANFD_Utils_On1kHzTickISR`: one more tick, wrapping at 2^32. */
    method On1kHzTickISR()
      modifies this`tickCount
      ensures tickCount == Inc32(old(tickCount))
    {
      tickCount := Inc32(tickCount);
    }

    /** `CANFD_Utils_Consume1kHzTicks`: the ticks since the last call; the counter is left at 0. */
    method Consume1kHzTicks() returns (n: u32)
      modifies this`tickCount
      ensures n == old(tickCount) && tickCount == 0
    {
      n := tickCount;
      if n != 0 {
        tickCount := 0;
      }
    }

    /** `CANFD_Utils_RxPending` */
    method RxPending() returns (pending: bool)
      ensures pending == rxPending
    {
      pending := rxPending;
    }

    /**
     * `CANFD_Utils_GetLastRx`: succeeds exactly when the caller passes a frame
     * and one is pending, copying it out; with a NULL argument the pending
     * frame is dropped, and when nothing is pending the caller's frame is
     * left as it was. No frame is pending afterwards.
     */
    method GetLastRx(out: FrameBox?) returns (ok: bool)
      modifies this`rxPending, out
      ensures ok <==> out != null && old(rxPending)
      ensures !rxPending
      ensures ok ==> out.frame == lastRx
      ensures out != null && !ok ==> out.frame == old(out.frame)
    {
      if out == null {
        rxPending := false;
        return false;
      }
      if !rxPending {
        return false;
      }
      out.frame := lastRx;
      rxPending := false;
      return true;
    }

    /**
     * `HAL_FDCAN_RxFifo0Callback`: without the new-message flag nothing
     * happens; otherwise the FIFO is drained frame by frame (`fifo` lists the
     * outcomes of the successive `HAL_FDCAN_GetRxMessage` calls) and the state
     * becomes `Drain` of the old state over it.
     */
    method RxFifo0Callback(its: u32, fifo: seq<RxRead>)
      requires Valid()
      modifies this`framesTotal, this`framesTxPdo, this`framesOther, this`lastRx, this`rxPending, robotInput
      ensures !NewMessage(its) ==> State() == old(State())
      ensures NewMessage(its) ==> State() == Drain(old(State()), TXPDO_BASE_STDID, TXPDO_SIZE, fifo)
    {
      if its % 2 != RX_FIFO0_NEW_MESSAGE {
        return;
      }
      var i := 0;
      while i < |fifo|
        invariant 0 <= i <= |fifo|
        invariant Drain(old(State()), TXPDO_BASE_STDID, TXPDO_SIZE, fifo)
               == Drain(State(), TXPDO_BASE_STDID, TXPDO_SIZE, fifo[i..])
      {
        assert fifo[i..][0] == fifo[i] && fifo[i..][1..] == fifo[i + 1..];
        if fifo[i].RxError? {
          return;
        }
        ghost var before := State();
        var hdr := fifo[i].header;
        var rxData := RxBuffer(fifo[i].data);
        framesTotal := Inc32(framesTotal);
        var sid := StdId(hdr.identifier);
        if TXPDO_BASE_STDID <= sid < TXPDO_BASE_STDID + NUM_MOTORS {
          framesTxPdo := Inc32(framesTxPdo);
          var pdo := rxData[..TXPDO_SIZE];
          var idx := sid - TXPDO_BASE_STDID;
          if MotorId(pdo) < NUM_MOTORS {
            idx := MotorId(pdo);
          }
          robotInput[idx] := pdo;
          assert State() == Receive(before, TXPDO_BASE_STDID, TXPDO_SIZE, hdr, fifo[i].data);
          i := i + 1;
          continue;
        }
        framesOther := Inc32(framesOther);
        lastRx := LastRxOf(hdr, fifo[i].data);
        rxPending := true;
        assert State() == Receive(before, TXPDO_BASE_STDID, TXPDO_SIZE, hdr, fifo[i].data);
        i := i + 1;
      }
    }
  }
}
