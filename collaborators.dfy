/**
 * The collaborators the protocol core and the update handlers call but do
 * not implement: the CAN peripheral (CAN_Transmit / can_tx_status), the
 * flash driver, the partition table, the persisted cookie flags, the reset
 * primitive and the memory that flash-read copies from. They are gathered
 * in one Board object whose effects are recorded, in call order, in a
 * ghost event log; what they return comes from constant oracles.
 */
module Collaborators {

  /** A data byte (uint8_t). */
  newtype uint8 = x: int | 0 <= x < 0x100

  /** Result of a transmit-status poll; only TxOk counts as delivered. */
  datatype TxStatus = TxFailed | TxOk | TxPending | TxNoMailbox

  /** An outbound extended data frame: identifier, data length code and the 8 data bytes. */
  datatype Frame = Frame(extId: bv32, dlc: nat, data: seq<uint8>)

  datatype Partition = FwPartition | FwBackupPartition

  datatype CookieFlag = CookieUpdFlag

  /** One call into a collaborator, as it appears in the log. */
  datatype Event =
    | Sent(frame: Frame)
    | FlashWritten(address: nat, bytes: seq<uint8>)
    | FlashUnlocked
    | FlashLocked
    | Erased(partition: Partition)
    | Copied(dst: Partition, src: Partition)
    | CookieCleared(flag: CookieFlag)
    | ResetIssued

  const U32: nat := 0x1_0000_0000

  class Board {
    /** Status reported by the t-th transmission at its p-th poll. */
    const txStatus: (nat, nat) -> TxStatus
    /** partition_get_origin / partition_get_size of the firmware partition. */
    const fwOrigin: nat
    const fwSize: nat
    /** The byte at each address, as flash-read copies it. */
    const memory: int -> uint8
    /** The persisted update-permission cookie. */
    var updFlag: bool
    /** Number of frames handed to the peripheral so far. */
    var txCount: nat
    ghost var log: seq<Event>

    constructor (txStatus: (nat, nat) -> TxStatus, fwOrigin: nat, fwSize: nat, memory: int -> uint8, updFlag: bool)
      requires fwOrigin < U32 && fwSize < U32
      ensures this.txStatus == txStatus && this.fwOrigin == fwOrigin && this.fwSize == fwSize
      ensures this.memory == memory && this.updFlag == updFlag
      ensures txCount == 0 && log == []
    {
      this.txStatus := txStatus;
      this.fwOrigin := fwOrigin;
      this.fwSize := fwSize;
      this.memory := memory;
      this.updFlag := updFlag;
      txCount := 0;
      log := [];
    }

    /** CAN_Transmit: hands a frame to the peripheral; returns the transmission number. */
    method CanTransmit(f: Frame) returns (t: nat)
      modifies this`log, this`txCount
      ensures t == old(txCount) && txCount == old(txCount) + 1
      ensures log == old(log) + [Sent(f)]
    {
      t := txCount;
      txCount := txCount + 1;
      log := log + [Sent(f)];
    }

    method FlashWriteBlock(address: nat, bytes: seq<uint8>)
      modifies this`log
      ensures log == old(log) + [FlashWritten(address, bytes)]
    {
      log := log + [FlashWritten(address, bytes)];
    }

    method FlashUnlock()
      modifies this`log
      ensures log == old(log) + [FlashUnlocked]
    {
      log := log + [FlashUnlocked];
    }

    method FlashLock()
      modifies this`log
      ensures log == old(log) + [FlashLocked]
    {
      log := log + [FlashLocked];
    }

    method PartitionErase(p: Partition)
      modifies this`log
      ensures log == old(log) + [Erased(p)]
    {
      log := log + [Erased(p)];
    }

    method PartitionCopy(dst: Partition, src: Partition)
      modifies this`log
      ensures log == old(log) + [Copied(dst, src)]
    {
      log := log + [Copied(dst, src)];
    }

    /** cookie_flag_set, read as the query "is the flag set". */
    method CookieFlagSet(flag: CookieFlag) returns (b: bool)
      ensures b == updFlag
    {
      b := updFlag;
    }

    method CookieFlagClear(flag: CookieFlag)
      modifies this`log, this`updFlag
      ensures log == old(log) + [CookieCleared(flag)]
      ensures !updFlag
    {
      log := log + [CookieCleared(flag)];
      updFlag := false;
    }

    /** reset: the device restarts; the model records the request. */
    method Reset()
      modifies this`log
      ensures log == old(log) + [ResetIssued]
    {
      log := log + [ResetIssued];
    }
  }
}
