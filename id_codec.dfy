/**
 * The CAN identifier layout and the command-code table of the IAP protocol
 * (com_proto.h). An extended identifier carries the destination node in
 * bits 24..31, the source node in bits 16..23 and a 16-bit command field
 * (code plus the RSP and DATA flag bits) in bits 0..15. All arithmetic is
 * 32-bit unsigned, hence bv32.
 */
module IdCodec {

  const CMD_RSP_FLAG: bv32 := 0x1000
  const CMD_DATA_FLAG: bv32 := 0x2000
  const CMD_MODE_MASK: bv32 := 0xffff

  const CMD_MODE_CHANGE_RQ: bv32 := 0x0001
  const CMD_MODE_CHANGE_RSP: bv32 := 0x0001 | CMD_RSP_FLAG
  const CMD_MODE_VERIFY_RQ: bv32 := 0x0003
  const CMD_MODE_VERIFY_RSP: bv32 := 0x0003 | CMD_RSP_FLAG
  const CMD_MODE_REBOOT_RQ: bv32 := 0x0004
  const CMD_MODE_REBOOT_RSP: bv32 := 0x0004 | CMD_RSP_FLAG
  const CMD_MODE_UPDATE_START_RQ: bv32 := 0x0005
  const CMD_MODE_UPDATE_START_RSP: bv32 := 0x0005 | CMD_RSP_FLAG
  const CMD_MODE_ROLLBACK: bv32 := 0x0010
  const CMD_MODE_ROLLBACK_RSP: bv32 := 0x0010 | CMD_RSP_FLAG
  const CMD_DATA_START_RQ: bv32 := 0x0006
  const CMD_DATA_START_READY: bv32 := 0x0007
  const CMD_DATA_BLK_CHUNK: bv32 := 0x0008 | CMD_DATA_FLAG
  const CMD_DATA_LEN: bv32 := 0x0009 | CMD_DATA_FLAG
  const CMD_DATA_CRC: bv32 := 0x000a
  const CMD_DATA_CRC_OK: bv32 := 0x000b
  const CMD_DATA_CRC_ERR: bv32 := 0x000c
  const CMD_DATA_BLK_ACK_RQ: bv32 := 0x000d
  const CMD_DATA_BLK_ACK_RSP: bv32 := 0x000d | CMD_RSP_FLAG
  const CMD_DATA_FINISH_RQ: bv32 := 0x000e
  const CMD_DATA_FINISH_RSP: bv32 := 0x000e | CMD_RSP_FLAG
  const CMD_DATA_FLASH_READ: bv32 := 0x000f | CMD_DATA_FLAG
  const CMD_DATA_FLASH_READ_RSP: bv32 := 0x000f | CMD_DATA_FLAG | CMD_RSP_FLAG
  const CMD_REQUEST_DATA_SIZE_AND_ADDR: bv32 := 0x0011
  const CMD_REQUEST_DATA_SIZE_AND_ADDR_RSP: bv32 := 0x0011 | CMD_DATA_FLAG | CMD_RSP_FLAG

  const ID_SRC_MASK: bv32 := 0x007e0000
  const ID_DST_MASK: bv32 := 0x1f800000
  const ID_SLAVE1: bv32 := 0x01000000
  const ID_SLAVE2: bv32 := 0x02000000

  /** Bytes per CAN packet, packets per transfer block, dispatch-table capacity. */
  const COM_PROTO_PKT_SIZE: nat := 8
  const COM_PROTO_BLK_SIZE: nat := 16
  const COM_PROTO_CALLBACKS_MAX_NUM: nat := 64

  /** Every command code the header defines, requests and responses alike. */
  const COMMAND_CODES: seq<bv32> := [
    CMD_MODE_CHANGE_RQ, CMD_MODE_CHANGE_RSP, CMD_MODE_VERIFY_RQ, CMD_MODE_VERIFY_RSP,
    CMD_MODE_REBOOT_RQ, CMD_MODE_REBOOT_RSP, CMD_MODE_UPDATE_START_RQ, CMD_MODE_UPDATE_START_RSP,
    CMD_MODE_ROLLBACK, CMD_MODE_ROLLBACK_RSP, CMD_DATA_START_RQ, CMD_DATA_START_READY,
    CMD_DATA_BLK_CHUNK, CMD_DATA_LEN, CMD_DATA_CRC, CMD_DATA_CRC_OK, CMD_DATA_CRC_ERR,
    CMD_DATA_BLK_ACK_RQ, CMD_DATA_BLK_ACK_RSP, CMD_DATA_FINISH_RQ, CMD_DATA_FINISH_RSP,
    CMD_DATA_FLASH_READ, CMD_DATA_FLASH_READ_RSP,
    CMD_REQUEST_DATA_SIZE_AND_ADDR, CMD_REQUEST_DATA_SIZE_AND_ADDR_RSP
  ]

  /** com_proto_src_from_id: bits 16..23, truncated to uint8_t. */
  function SrcFromId(id: bv32): bv8
  {
    ((id >> 16) & 0xff) as bv8
  }

  /** com_proto_dst_from_id: bits 24..31, truncated to uint8_t. */
  function DstFromId(id: bv32): bv8
  {
    ((id >> 24) & 0xff) as bv8
  }

  /** com_proto_flags_from_id: the 16-bit command field. */
  function FlagsFromId(id: bv32): bv32
  {
    id & CMD_MODE_MASK
  }

  /** True when the command field announces an 8-byte payload. */
  predicate HasDataFlag(id: bv32)
  {
    id & CMD_DATA_FLAG != 0
  }

  /**
   * com_proto_generate_id. Only the flags argument is masked: the command
   * field always decodes to the masked flags and the source byte always
   * decodes to the low byte of `src`, but the destination decodes to `dst`
   * only when `src` fits in a byte (higher source bits spill into it).
   */
  function GenerateId(dst: bv32, src: bv32, flags: bv32): (id: bv32)
    ensures FlagsFromId(id) == flags & CMD_MODE_MASK
    ensures SrcFromId(id) == (src & 0xff) as bv8
    ensures DstFromId(id) == ((dst | (src >> 8)) & 0xff) as bv8
    ensures src < 0x100 ==> DstFromId(id) == (dst & 0xff) as bv8
  {
    (dst << 24) | (src << 16) | (flags & CMD_MODE_MASK)
  }

  /** Decoding an identifier built from byte-sized addresses gives them back. */
  lemma DecodeGenerated(dst: bv8, src: bv8, flags: bv32)
    ensures DstFromId(GenerateId(dst as bv32, src as bv32, flags)) == dst
    ensures SrcFromId(GenerateId(dst as bv32, src as bv32, flags)) == src
    ensures FlagsFromId(GenerateId(dst as bv32, src as bv32, flags)) == flags & CMD_MODE_MASK
  {
  }

  /** The three fields cover all 32 bits: re-encoding a decoded identifier reproduces it. */
  lemma GenerateDecoded(id: bv32)
    ensures GenerateId(DstFromId(id) as bv32, SrcFromId(id) as bv32, FlagsFromId(id)) == id
  {
  }

  /** A source address of 0x100 lands in the destination byte. */
  lemma SourceSpillsIntoDestination()
    ensures DstFromId(GenerateId(0, 0x100, 0)) == 1
    ensures DstFromId(GenerateId(0, 0x100, 0)) != 0
  {
  }

  /** The request codes that have a response code. */
  const REQUEST_CODES: seq<bv32> :=
    [CMD_MODE_CHANGE_RQ, CMD_MODE_VERIFY_RQ, CMD_MODE_REBOOT_RQ, CMD_MODE_UPDATE_START_RQ, CMD_MODE_ROLLBACK,
     CMD_DATA_BLK_ACK_RQ, CMD_DATA_FINISH_RQ, CMD_DATA_FLASH_READ, CMD_REQUEST_DATA_SIZE_AND_ADDR]

  /** Each response code is its request code with the RSP flag set. */
  lemma ResponseCodesCarryRspFlag()
    ensures CMD_MODE_CHANGE_RSP == CMD_MODE_CHANGE_RQ | CMD_RSP_FLAG
    ensures CMD_MODE_VERIFY_RSP == CMD_MODE_VERIFY_RQ | CMD_RSP_FLAG
    ensures CMD_MODE_REBOOT_RSP == CMD_MODE_REBOOT_RQ | CMD_RSP_FLAG
    ensures CMD_MODE_UPDATE_START_RSP == CMD_MODE_UPDATE_START_RQ | CMD_RSP_FLAG
    ensures CMD_MODE_ROLLBACK_RSP == CMD_MODE_ROLLBACK | CMD_RSP_FLAG
    ensures CMD_DATA_BLK_ACK_RSP == CMD_DATA_BLK_ACK_RQ | CMD_RSP_FLAG
    ensures CMD_DATA_FINISH_RSP == CMD_DATA_FINISH_RQ | CMD_RSP_FLAG
    ensures CMD_DATA_FLASH_READ_RSP == CMD_DATA_FLASH_READ | CMD_RSP_FLAG
    ensures CMD_REQUEST_DATA_SIZE_AND_ADDR_RSP == CMD_REQUEST_DATA_SIZE_AND_ADDR | CMD_DATA_FLAG | CMD_RSP_FLAG
    ensures forall rq :: rq in REQUEST_CODES ==> rq & CMD_RSP_FLAG == 0
  {
  }

  /** The payload-carrying commands have the DATA flag; pure requests do not. */
  lemma DataFlagMarksPayloadCommands()
    ensures HasDataFlag(CMD_DATA_BLK_CHUNK) && HasDataFlag(CMD_DATA_LEN) && HasDataFlag(CMD_DATA_FLASH_READ)
    ensures HasDataFlag(CMD_DATA_FLASH_READ_RSP) && HasDataFlag(CMD_REQUEST_DATA_SIZE_AND_ADDR_RSP)
    ensures !HasDataFlag(CMD_MODE_CHANGE_RQ) && !HasDataFlag(CMD_MODE_VERIFY_RQ)
    ensures !HasDataFlag(CMD_MODE_REBOOT_RQ) && !HasDataFlag(CMD_MODE_UPDATE_START_RQ)
    ensures !HasDataFlag(CMD_MODE_ROLLBACK) && !HasDataFlag(CMD_DATA_START_RQ)
    ensures !HasDataFlag(CMD_DATA_BLK_ACK_RQ) && !HasDataFlag(CMD_DATA_FINISH_RQ)
    ensures !HasDataFlag(CMD_REQUEST_DATA_SIZE_AND_ADDR)
  {
  }

  /** Every command code fits the 16-bit command field, so decoding returns it unchanged. */
  lemma CommandCodesFitField()
    ensures forall i :: 0 <= i < |COMMAND_CODES| ==> FlagsFromId(COMMAND_CODES[i]) == COMMAND_CODES[i]
  {
  }
}
