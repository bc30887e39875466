/**
 * The satellite board's `canfd_utils.c`: the 1 kHz tick flag handed from the
 * timer ISR to the main loop, the RX FIFO 0 callback that fills
 * `g_robot_output.motor[]` from the motherboard's RxPDO commands, the last
 * other frame and its pending flag, and the 48-byte TxPDO frame it sends.
 */
module CanfdSatellite {
  import opened Bytes
  import opened CanfdRouting

  /**
   * `CANFD_Utils_SendMotorTxPDO`: the 40-byte PDO padded with zeros to 48
   * bytes, under the low eleven bits of `std_id`.
   */
  function SendMotorTxPdo(stdId: u32, pdo: seq<byte>): (f: TxFrame)
    requires |pdo| == TXPDO_SIZE
    ensures f.identifier < 0x800 && f.identifier == stdId % 0x800
    ensures |f.payload| == 48 && f.payload[..TXPDO_SIZE] == pdo
    ensures forall i :: TXPDO_SIZE <= i < 48 ==> f.payload[i] == 0
  {
    TxFrame(StdId(stdId), pdo + Zeros(48 - TXPDO_SIZE))
  }

  /** The module state of the satellite board's `canfd_utils.c`. */
  class Satellite {
    /** `s_tick_1khz_pending` */
    var tickPending: bool
    /** `s_rx_pending` */
    var rxPending: bool
    /** `s_last_rx` */
    var lastRx: RxFrame
    /** `g_rx_frames_total`, `g_rx_frames_rxpdo`, `g_rx_frames_other` */
    var framesTotal: u32
    var framesRxPdo: u32
    var framesOther: u32
    /** `g_robot_output.motor[]`: one 24-byte RxPDO command per motor. */
    const robotOutput: array<seq<byte>>

    predicate Valid()
    {
      robotOutput.Length == NUM_MOTORS
    }

    /** The receive-side state the callback changes. */
    function State(): RxState
      reads this, robotOutput
    {
      RxState(framesTotal, framesRxPdo, framesOther, robotOutput[..], lastRx, rxPending)
    }

    /** Static storage starts zeroed. */
    constructor ()
      ensures Valid() && fresh(robotOutput) && !tickPending
      ensures State() == RxState(0, 0, 0, seq(NUM_MOTORS, _ => Zeros(RXPDO_SIZE)), EMPTY_FRAME, false)
    {
      tickPending := false;
      rxPending := false;
      lastRx := EMPTY_FRAME;
      framesTotal := 0;
      framesRxPdo := 0;
      framesOther := 0;
      robotOutput := new seq<byte>[NUM_MOTORS](_ => Zeros(RXPDO_SIZE));
    }

    /** `CANFD_Utils_On1kHzTickISR`: raise the tick flag. */
    method On1kHzTickISR()
      modifies this`tickPending
      ensures tickPending
    {
      tickPending := true;
    }

    /** `CANFD_Utils_Consume1kHzTick`: whether a tick was raised since the last call; the flag is left clear. */
    method Consume1kHzTick() returns (ticked: bool)
      modifies this`tickPending
      ensures ticked == old(tickPending) && !tickPending
    {
      if tickPending {
        tickPending := false;
        return true;
      }
      return false;
    }

    /** `CANFD_Utils_RxPending` */
    method RxPending() returns (pending: bool)
      ensures pending == rxPending
    {
      pending := rxPending;
    }

    /**
     * `CANFD_Utils_GetLastRx`: succeeds exactly when the caller passes a frame
     * and one is pending, copying it out; with a NULL argument the pending
     * frame is dropped, and when nothing is pending the caller's frame is
     * left as it was. No frame is pending afterwards.
     */
    method GetLastRx(out: FrameBox?) returns (ok: bool)
      modifies this`rxPending, out
      ensures ok <==> out != null && old(rxPending)
      ensures !rxPending
      ensures ok ==> out.frame == lastRx
      ensures out != null && !ok ==> out.frame == old(out.frame)
    {
      if out == null {
        rxPending := false;
        return false;
      }
      if !rxPending {
        return false;
      }
      out.frame := lastRx;
      rxPending := false;
      return true;
    }

    /**
     * `HAL_FDCAN_RxFifo0Callback`: without the new-message flag nothing
     * happens; otherwise the FIFO is drained frame by frame (`fifo` lists the
     * outcomes of the successive `HAL_FDCAN_GetRxMessage` calls) and the state
     * becomes `Drain` of the old state over it.
     */
    method RxFifo0Callback(its: u32, fifo: seq<RxRead>)
      requires Valid()
      modifies this`framesTotal, this`framesRxPdo, this`framesOther, this`lastRx, this`rxPending, robotOutput
      ensures !NewMessage(its) ==> State() == old(State())
      ensures NewMessage(its) ==> State() == Drain(old(State()), RXPDO_BASE_STDID, RXPDO_SIZE, fifo)
    {
      if its % 2 != RX_FIFO0_NEW_MESSAGE {
        return;
      }
      var i := 0;
      while i < |fifo|
        invariant 0 <= i <= |fifo|
        invariant Drain(old(State()), RXPDO_BASE_STDID, RXPDO_SIZE, fifo)
               == Drain(State(), RXPDO_BASE_STDID, RXPDO_SIZE, fifo[i..])
      {
        assert fifo[i..][0] == fifo[i] && fifo[i..][1..] == fifo[i + 1..];
        if fifo[i].RxError? {
          return;
        }
        ghost var before := State();
        var hdr := fifo[i].header;
        var rxData := RxBuffer(fifo[i].data);
        framesTotal := Inc32(framesTotal);
        var sid := StdId(hdr.identifier);
        if RXPDO_BASE_STDID <= sid < RXPDO_BASE_STDID + NUM_MOTORS {
          framesRxPdo := Inc32(framesRxPdo);
          var pdo := rxData[..RXPDO_SIZE];
          var idx := sid - RXPDO_BASE_STDID;
          if MotorId(pdo) < NUM_MOTORS {
            idx := MotorId(pdo);
          }
          robotOutput[idx] := pdo;
          assert State() == Receive(before, RXPDO_BASE_STDID, RXPDO_SIZE, hdr, fifo[i].data);
          i := i + 1;
          continue;
        }
        framesOther := Inc32(framesOther);
        lastRx := LastRxOf(hdr, fifo[i].data);
        rxPending := true;
        assert State() == Receive(before, RXPDO_BASE_STDID, RXPDO_SIZE, hdr, fifo[i].data);
        i := i + 1;
      }
    }
  }
}
