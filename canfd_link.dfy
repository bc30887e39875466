/**
 * The two boards on one bus: what the receiving board's callback does with
 * each frame the other board's send functions build. The receiving HAL
 * reports the sender's identifier, some DLC code, bit-rate switching and FD
 * format, and hands over the sent payload.
 */
module CanfdLink {
  import opened Bytes
  import opened Wrappers
  import opened CanfdRouting
  import CanfdMotherboard
  import CanfdSatellite

  /** The receive header for a sent frame; the raw DLC code is left free. */
  function Delivered(f: TxFrame, dlcRaw: u32): (h: RxHeader)
    ensures h.identifier == f.identifier && h.brsOn && h.fdFormat
  {
    RxHeader(f.identifier, dlcRaw, true, true)
  }

  /** A payload of at most 64 bytes fills the start of `rx_data` unchanged. */
  lemma RxBufferPrefix(data: seq<byte>, n: nat)
    requires n <= |data| <= RX_DATA_SIZE
    ensures RxBuffer(data)[..n] == data[..n]
  {
    assert RxBuffer(data)[..n] == RxBuffer(data)[..|data|][..n];
  }

  /**
   * An RxPDO command from the motherboard for motor m reaches the
   * satellite's slot m mod 16 with its motor id intact, and for m < 15
   * that is slot m. Ids whose low four bits are 15 travel as 0x30F, which
   * the satellite does not treat as a command: they end up as its pending
   * last frame and no motor slot changes.
   */
  lemma RxPdoReachesSatellite(s: RxState, motorId: u32, pdo: Option<seq<byte>>, dlcRaw: u32)
    requires |s.slots| == NUM_MOTORS
    requires pdo.Some? ==> |pdo.value| == RXPDO_SIZE
    ensures var f := CanfdMotherboard.SendMotorRxPdo(motorId, pdo);
            var t := Receive(s, RXPDO_BASE_STDID, RXPDO_SIZE, Delivered(f, dlcRaw), f.payload);
            && (IsPdoId(StdId(f.identifier), RXPDO_BASE_STDID) <==> motorId % 0x10 < NUM_MOTORS)
            && (motorId % 0x10 < NUM_MOTORS ==>
                  t.slots[motorId % 0x10] == f.payload && MotorId(t.slots[motorId % 0x10]) == motorId
                  && t.pending == s.pending)
            && (motorId < NUM_MOTORS ==> t.slots[motorId] == f.payload)
            && (motorId % 0x10 == NUM_MOTORS ==>
                  t.slots == s.slots && t.pending && t.lastRx.stdId == RXPDO_BASE_STDID + NUM_MOTORS)
  {
    var f := CanfdMotherboard.SendMotorRxPdo(motorId, pdo);
    assert StdId(f.identifier) == f.identifier;
    RxBufferPrefix(f.payload, RXPDO_SIZE);
    assert RxBuffer(f.payload)[..RXPDO_SIZE] == f.payload;
  }

  /**
   * A TxPDO from a satellite sent under a TxPDO identifier reaches the
   * motherboard slot its motor id names (or, for an out-of-range motor id,
   * the slot its identifier names) with all 40 bytes intact.
   */
  lemma TxPdoReachesMotherboard(s: RxState, stdId: u32, pdo: seq<byte>, dlcRaw: u32)
    requires |s.slots| == NUM_MOTORS && |pdo| == TXPDO_SIZE
    ensures var f := CanfdSatellite.SendMotorTxPdo(stdId, pdo);
            var t := Receive(s, TXPDO_BASE_STDID, TXPDO_SIZE, Delivered(f, dlcRaw), f.payload);
            var sid := stdId % 0x800;
            && (IsPdoId(sid, TXPDO_BASE_STDID) ==> t.slots[SlotIndex(sid, TXPDO_BASE_STDID, pdo)] == pdo)
            && (IsPdoId(sid, TXPDO_BASE_STDID) && MotorId(pdo) < NUM_MOTORS ==> t.slots[MotorId(pdo)] == pdo)
            && (IsPdoId(sid, TXPDO_BASE_STDID) && MotorId(pdo) >= NUM_MOTORS ==> t.slots[sid - TXPDO_BASE_STDID] == pdo)
            && (!IsPdoId(sid, TXPDO_BASE_STDID) ==> t.slots == s.slots && t.pending && t.lastRx.data[..TXPDO_SIZE] == pdo)
  {
    var f := CanfdSatellite.SendMotorTxPdo(stdId, pdo);
    assert StdId(f.identifier) == stdId % 0x800;
    RxBufferPrefix(f.payload, TXPDO_SIZE);
    assert RxBuffer(f.payload)[..TXPDO_SIZE] == f.payload[..TXPDO_SIZE] == pdo;
  }

  /**
   * `SendEmpty32` aimed at any RxPDO identifier 0x300..0x30E clears the
   * satellite's slot 0, not the slot the identifier names: the all-zero
   * payload carries motor id 0, which takes precedence. No other slot changes.
   */
  lemma Empty32ClearsSlotZero(s: RxState, stdId: u32, dlcRaw: u32)
    requires |s.slots| == NUM_MOTORS
    requires IsPdoId(stdId % 0x800, RXPDO_BASE_STDID)
    ensures var f := CanfdMotherboard.SendEmpty32(stdId);
            var t := Receive(s, RXPDO_BASE_STDID, RXPDO_SIZE, Delivered(f, dlcRaw), f.payload);
            && t.slots[0] == Zeros(RXPDO_SIZE)
            && forall j :: 0 < j < NUM_MOTORS ==> t.slots[j] == s.slots[j]
  {
    var f := CanfdMotherboard.SendEmpty32(stdId);
    assert f.payload == Zeros(32);
    RxBufferPrefix(f.payload, RXPDO_SIZE);
    assert RxBuffer(f.payload)[..RXPDO_SIZE] == Zeros(RXPDO_SIZE);
    assert MotorId(Zeros(RXPDO_SIZE)) == 0;
  }
}
