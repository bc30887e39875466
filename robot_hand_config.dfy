/**
 * The configuration every generator script starts from: the identity of the
 * robot-hand slave, its two names and its four SyncManager windows
 * (mailbox out, mailbox in, 300 output bytes, 540 input bytes).
 */
module RobotHandConfig {
  import opened Bytes
  import opened SiiCategories

  const VENDOR_ID: u32 := 0x0000_04d8
  const PRODUCT_CODE: u32 := 0x0000_0001
  const REVISION: u32 := 0x0000_0001
  const SERIAL: u32 := 0x0000_0001

  /** Process-data sizes: 15 motors x 20 bytes out, 15 motors x 36 bytes in. */
  const SM2_SIZE: u16 := 300
  const SM3_SIZE: u16 := 540

  /** b"RobotHand" and b"Main". */
  const ROBOT_HAND: seq<byte> := [0x52, 0x6F, 0x62, 0x6F, 0x74, 0x48, 0x61, 0x6E, 0x64]
  const MAIN: seq<byte> := [0x4D, 0x61, 0x69, 0x6E]
  const ROBOT_STRINGS: seq<seq<byte>> := [ROBOT_HAND, MAIN]

  const ROBOT_IDENTITY: Identity := Identity(VENDOR_ID, PRODUCT_CODE, REVISION, SERIAL)

  const SM0_MAILBOX_OUT: SyncManager := SyncManager(0x1000, 128, 0x26)
  const SM1_MAILBOX_IN: SyncManager := SyncManager(0x1080, 128, 0x22)
  const SM2_OUTPUTS: SyncManager := SyncManager(0x1100, SM2_SIZE, 0x64)
  const SM3_INPUTS: SyncManager := SyncManager(0x1400, SM3_SIZE, 0x20)
  const ROBOT_SYNC_MANAGERS: seq<SyncManager> := [SM0_MAILBOX_OUT, SM1_MAILBOX_IN, SM2_OUTPUTS, SM3_INPUTS]

  /**
   * The concrete payloads: 16 bytes of strings (no padding needed), 16 bytes
   * of identity, 32 bytes of SyncManager records; the General payload begins
   * `D8 04 00 00 01 00 00 00`.
   */
  lemma RobotPayloads()
    ensures StringsFit(ROBOT_STRINGS)
    ensures StringsPayload(ROBOT_STRINGS)
         == [0x02, 0x09, 0x52, 0x6F, 0x62, 0x6F, 0x74, 0x48, 0x61, 0x6E, 0x64, 0x04, 0x4D, 0x61, 0x69, 0x6E]
    ensures GeneralPayload(ROBOT_IDENTITY)
         == [0xD8, 0x04, 0x00, 0x00, 0x01, 0x00, 0x00, 0x00, 0x01, 0x00, 0x00, 0x00, 0x01, 0x00, 0x00, 0x00]
    ensures |SyncManagerPayload(ROBOT_SYNC_MANAGERS)| == 32
  {
    assert ROBOT_STRINGS[1..] == [MAIN];
    assert [MAIN][1..] == [];
    assert StringEntries([MAIN]) == [4] + MAIN;
    assert StringEntries(ROBOT_STRINGS) == [9] + ROBOT_HAND + [4] + MAIN;
  }

  /** The payload sizes alone, for the writers that only need the offsets. */
  lemma RobotPayloadSizes()
    ensures StringsFit(ROBOT_STRINGS) && |StringsPayload(ROBOT_STRINGS)| == 16
    ensures |GeneralPayload(ROBOT_IDENTITY)| == 16
    ensures |SyncManagerPayload(ROBOT_SYNC_MANAGERS)| == 32
  {
    RobotPayloads();
  }

  const STRINGS_CATEGORY: Category := Category(STRINGS, StringsPayload(ROBOT_STRINGS))
  const GENERAL_CATEGORY: Category := Category(GENERAL, GeneralPayload(ROBOT_IDENTITY))
  /** The General category with the CoE flag tail: 22 payload bytes, 11 words. */
  const GENERAL_COE_CATEGORY: Category := Category(GENERAL, GeneralPayload(ROBOT_IDENTITY) + COE_FLAG_TAIL)
  const SYNC_MANAGER_CATEGORY: Category := Category(SYNC_MANAGER, SyncManagerPayload(ROBOT_SYNC_MANAGERS))

  /** The category orders the scripts use. */
  const STRINGS_GENERAL_SM: seq<Category> := [STRINGS_CATEGORY, GENERAL_CATEGORY, SYNC_MANAGER_CATEGORY]
  const GENERAL_SM_STRINGS: seq<Category> := [GENERAL_CATEGORY, SYNC_MANAGER_CATEGORY, STRINGS_CATEGORY]
  const GENERAL_STRINGS_SM: seq<Category> := [GENERAL_CATEGORY, STRINGS_CATEGORY, SYNC_MANAGER_CATEGORY]
  const STRINGS_GENERAL_COE_SM: seq<Category> := [STRINGS_CATEGORY, GENERAL_COE_CATEGORY, SYNC_MANAGER_CATEGORY]

  /** Each order encodes to 76 bytes (20 + 20 + 36), or 82 with the 26-byte CoE General category. */
  lemma RobotCategoryOrders()
    ensures AllWellFormed(STRINGS_GENERAL_SM) && |EncodeCategories(STRINGS_GENERAL_SM)| == 76
    ensures AllWellFormed(GENERAL_SM_STRINGS) && |EncodeCategories(GENERAL_SM_STRINGS)| == 76
    ensures AllWellFormed(GENERAL_STRINGS_SM) && |EncodeCategories(GENERAL_STRINGS_SM)| == 76
    ensures AllWellFormed(STRINGS_GENERAL_COE_SM) && |EncodeCategories(STRINGS_GENERAL_COE_SM)| == 82
  {
    RobotPayloads();
    EncodedLength3(STRINGS_GENERAL_SM);
    EncodedLength3(GENERAL_SM_STRINGS);
    EncodedLength3(GENERAL_STRINGS_SM);
    EncodedLength3(STRINGS_GENERAL_COE_SM);
  }

  lemma EncodedLength3(cats: seq<Category>)
    requires |cats| == 3 && AllWellFormed(cats)
    ensures |EncodeCategories(cats)| == 12 + |cats[0].payload| + |cats[1].payload| + |cats[2].payload|
  {
    assert cats[1..][1..][1..] == [];
    assert |EncodeCategories(cats[1..][1..])| == 4 + |cats[2].payload|;
    assert |EncodeCategories(cats[1..])| == 8 + |cats[1].payload| + |cats[2].payload|;
  }
}
