# CAN-bus IAP slave: protocol core and update session

This project models the slave side of a CAN-bus in-application-programming
(IAP) protocol. A master sends commands to a node. The node receives them in
an interrupt and queues them. A dispatcher task then looks each one up in a
handler table. The handlers erase and program the firmware partition, stream
memory back, and reply.

Three parts are modelled:

- `id_codec.dfy` (module `IdCodec`): the 32-bit extended identifier layout and the
  command codes of `com_proto.h`. The destination node sits in bits 24..31, the
  source node in bits 16..23, and the 16-bit command field (code, RSP flag
  0x1000, DATA flag 0x2000) in bits 0..15. Everything is `bv32`.
- `com_proto.dfy` (module `ComProto`): the protocol core of `com_proto.c`.
  - The 64-slot handler table, its registration, and the first-match lookup.
  - Receive-interrupt ingestion into a 128-entry id FIFO and a 128-entry payload
    FIFO, with an error flag and a counting semaphore.
  - The consumers `get_rx_id`, `expect_id` and `get_rx_data`.
  - `tx_packet` with its bounded status poll, and `tx_block`.
  - Pure functions on the receive state (`Ingest`, `TakeId`, `TakePayload`) say what
    one step does. The class `Proto` holds the module statics, and its methods are
    proved to step exactly as those functions do.
- `slave_callbacks.dfy` (module `SlaveCallbacks`): the handlers and tables of
  `can_callbacks_slave.c`.
  - The 512-byte accumulator (`data_block`, `data_block_ptr`, `data_flash_offset`,
    `last_data_processed`) is a pure state machine (`AcceptChunk`, `Feed`,
    `Replay`). The class `Session` holds the statics, and its handlers are proved
    to step as that machine does.
- `collaborators.dfy` (module `Collaborators`): the code this core calls but does
  not contain, gathered in one `Board` object:
  - the CAN peripheral (`CAN_Transmit`, `can_tx_status`);
  - flash write, unlock and lock;
  - partition erase, copy, origin and size;
  - the cookie flag;
  - `reset`;
  - the memory that flash-read copies from.

  Each call that has an effect (transmit, flash, partition, cookie clear,
  reset) is appended to a ghost event log, so the handlers' contracts state
  the exact ordered sequence of those calls. The cookie query
  (`cookie_flag_set`) only reads `updFlag` and is not logged.
  What the collaborators return comes from constant oracles:
  - `txStatus(t, p)`: the status of the t-th transmission at its p-th poll;
  - `fwOrigin` and `fwSize`;
  - `memory`;
  - `updFlag`.

Where the code and the protocol's prose description disagree, the model follows the code:
- A failed payload push (error code 2) still gives the semaphore for the id already queued. Only a failed id push skips it.
- `com_proto_err_flag` is declared `bool`, so the codes 1 and 2 both store `true`. The model's flag is a `bool`.
- The verify and data-start replies use the bare response code as the identifier. The mode-change and reboot replies use `com_proto_generate_id(0, 2, …)`.

## Model

| member | source | states |
|---|---|---|
| IdCodec.GenerateId | com_proto.h:52-55 | the command field decodes to `flags & 0xffff`, the source byte to the low byte of `src`, the destination byte to `dst` OR the spilled high bits of `src` (to `dst` when `src < 256`) |
| IdCodec.DecodeGenerated | com_proto.h:52-55 | for byte-sized addresses, decoding a generated id returns `dst`, `src` and `flags & 0xffff` |
| IdCodec.GenerateDecoded | com_proto.h:52-55 | the three fields cover all 32 bits: re-encoding a decoded id reproduces it |
| IdCodec.SourceSpillsIntoDestination | com_proto.h:52-54 | a source address 0x100 changes the decoded destination (to 1), so the round trip needs `src < 256` |
| IdCodec.ResponseCodesCarryRspFlag | com_proto.h:10-38 | each `*_RSP` code is its request code OR 0x1000, except `CMD_REQUEST_DATA_SIZE_AND_ADDR_RSP`, which is its request code OR 0x3000 (RSP and DATA); none of the nine request codes that have a response carries 0x1000 |
| IdCodec.DataFlagMarksPayloadCommands | com_proto.h:23-38 | the payload-carrying codes have bit 0x2000 set, the plain requests do not |
| IdCodec.CommandCodesFitField | com_proto.h:10-38 | every command code fits the 16-bit field, so `flags_from_id` returns it unchanged |
| ComProto.RegisteredCount | com_proto.c:173-182 | registration copies a prefix of Some-handler entries of length at most 64, ending at a NULL entry when it stops early |
| ComProto.RegisteredCountAtSentinel | com_proto.c:176-180 | with the first NULL handler at index n < 64, exactly n entries are registered |
| ComProto.RegisteredSlots | com_proto.c:30 | the static table after registration: copied entries first, zero slots (id 0, NULL) after them |
| ComProto.FirstSlot | com_proto.c:186-187 | the result is the lowest index at or after `from` whose slot matches, and no earlier slot matches |
| ComProto.DispatchAsWritten | com_proto.c:184-192 | the lowest slot whose id equals the received id is selected, NULL handler or not; no match iff no slot carries the id |
| ComProto.DispatchLive | com_proto.c:184-192 | the guarded lookup: the lowest slot with the id and a non-NULL handler; never selects a NULL handler |
| ComProto.DispatchFindsRegistered | com_proto.c:173-192 | a registered entry whose code no earlier entry uses is found by both lookups at its own index |
| ComProto.ZeroIdReachesNullSlot | com_proto.c:30 | when no registered entry has id 0 and the table is not full, id 0 reaches the first zero slot (NULL) as written and nothing in the guarded lookup |
| ComProto.Ingest | com_proto.c:194-208 | one ingestion keeps both queues within 128, keeps the semaphore equal to the id-queue length, and never clears the error flag |
| ComProto.IngestIgnoresOtherNodes | com_proto.c:196 | a frame for another node leaves both queues, the flag and the semaphore unchanged |
| ComProto.IngestAddressed | com_proto.c:196-205 | a full id queue only sets the flag, and the semaphore is not given; otherwise `id & 0xffff` is queued and the semaphore given once; the payload is queued iff DATA is set and there is room; a full payload queue sets the flag |
| ComProto.IngestAll | com_proto.c:194-208 | ingesting any sequence of frames preserves the queue bounds and the semaphore/queue agreement |
| ComProto.IngestAllKeepsArrivalOrder | com_proto.c:197-204 | addressed frames with no consumer are queued in arrival order, truncated at 128; the error flag is set when any is dropped |
| ComProto.TakeId | com_proto.c:153-160 | a take preserves the queue bounds and the semaphore/queue agreement |
| ComProto.TakeIdPopsHead | com_proto.c:153-160 | `get_rx_id` succeeds iff an id is queued, and then returns the head and pops it; on failure nothing changes |
| ComProto.TakeIdsInOrder | com_proto.c:153-160 | n successive takes deliver the first n queued ids in order |
| ComProto.TakePayload | com_proto.c:141-146 | `get_rx_data` succeeds iff a payload is queued, returns the head and pops it; on failure nothing changes |
| ComProto.Proto.constructor | com_proto.c:46-57 | empty queues, clear flag, semaphore 0, and the table either all zero slots or registered from the given table |
| ComProto.Proto.RegisterCallbacks | com_proto.c:173-182 | the first `RegisteredCount` slots receive the table's entries, and all later slots keep their contents |
| ComProto.Proto.CallbackById | com_proto.c:184-192 | the loop returns exactly `DispatchAsWritten` of the static table |
| ComProto.Proto.CallbackByIdGuarded | com_proto.c:184-192 | the loop returns exactly `DispatchLive` of the static table |
| ComProto.Proto.ProcessRxIrq | com_proto.c:194-208 | the statics step exactly as `Ingest` |
| ComProto.Proto.GetRxId | com_proto.c:153-160 | the result and the new statics are exactly `TakeId` of the old ones |
| ComProto.Proto.ExpectId | com_proto.c:163-171 | true iff the take succeeded and the popped id equals `id_exp`; the id is consumed either way |
| ComProto.Proto.GetRxData | com_proto.c:141-146 | the result and the new statics are exactly `TakePayload` of the old ones |
| ComProto.MakeFrame | com_proto.c:64-71 | the frame carries the id, DLC = len, the first len data bytes, and zeros in the remaining bytes up to 8 |
| ComProto.PollTxStatus | com_proto.c:63-81 | between 1 and 4096 polls, stopping at the first Ok; succeeds iff the last status polled is Ok, iff some status among the first 4096 is Ok |
| ComProto.TxPacket | com_proto.c:60-82 | exactly one frame is handed to the peripheral, and the result is 1 iff that transmission reports Ok within 4096 polls |
| ComProto.LastBlockPackets | com_proto.c:102-113 | the corrected last-block count (see Findings): exactly ceil((len mod 128) / 8) packets; the source counts one more when len >= 128 and len is a multiple of 8 |
| ComProto.LastBlockPacketsAsWritten | com_proto.c:106-112 | the last-block count as the source computes it: at least enough packets for len mod 128 bytes and at most one more than (len mod 128) / 8 |
| ComProto.LastBlockAgreesBelowOneBlock | com_proto.c:102-113 | for len < 128 the source's count and the corrected count agree, both equal to ceil(len / 8) |
| ComProto.LastBlockAsWrittenOvercounts | com_proto.c:106-112 | for every len, the source's last-block count equals the corrected one plus 1 when len >= 128 and len is a multiple of 8, and equals it otherwise |
| ComProto.LastBlockOvercountAt128 | com_proto.c:106-112 | len = 128: the source counts 1 last-block packet where 0 are left |
| ComProto.PacketsCoverLength | com_proto.c:97-119 | the full blocks plus the corrected last block count exactly ceil(len / 8) packets |
| ComProto.RunBlocksOutcome | com_proto.c:93-133 | `tx_block` returns 1 iff every frame it transmitted was delivered; it then sent two frames per block and counted 8 bytes per packet of all len/128 + 1 blocks |
| ComProto.RunBlocks | com_proto.c:98-132 | the remaining iterations of the block loop: a length frame per block, and the packet count and the CRC frame only while the result is 1; a run ends with result 1 only if it started with 1 |
| ComProto.TxBlockBytesAgainstSource | com_proto.c:92-132 | a successful run counts 8 * ceil(len / 8) bytes; the counter with the source's last-block count is 8 higher when len >= 128 and len is a multiple of 8, and equal otherwise |
| ComProto.CountPackets | com_proto.c:126-129 | the packet loop adds 8 bytes to the counter per packet: the counter ends at its start value plus 8·pkts |
| ComProto.SendBlock | com_proto.c:121-131 | one block: the length frame is always sent; if the result so far is 1 and that frame is delivered, the packets are counted and the CRC frame sent, and the new result is whether the CRC frame was delivered; otherwise only the length frame is sent and the result is 0 |
| ComProto.TxBlock | com_proto.c:85-134 | the frames sent, the result and the byte count are exactly those of `RunBlocks` over len/128 + 1 blocks |
| SlaveCallbacks.IapTableRegistersTwelve | can_callbacks_slave.c:152-166 | the IAP table is NULL-terminated, registers 12 handlers, and its codes are pairwise distinct and non-zero |
| SlaveCallbacks.IapCodesDispatch | can_callbacks_slave.c:152-166 | each IAP code dispatches, in both lookups, to its own handler |
| SlaveCallbacks.IapZeroIdReachesNullSlot | can_callbacks_slave.c:152-166 | with the IAP table registered, id 0 reaches NULL slot 12 as written, and nothing in the guarded lookup |
| SlaveCallbacks.NormalTableRegistersTwo | can_callbacks_slave.c:168-172 | the normal-mode table registers mode change and reboot only, and a data chunk finds no handler |
| SlaveCallbacks.AcceptChunk | can_callbacks_slave.c:77-90 | a chunk lands in block[ptr..ptr+8) and nothing else in the block changes; the pointer stays a multiple of 8 below 512; at 512 exactly one write of the whole block at origin + offset, then pointer 0, offset + 512 mod 2^32, flag set |
| SlaveCallbacks.FeedFromZero | can_callbacks_slave.c:77-90 | from the zero state, after n chunks: n/64 writes, the k-th at origin + 512k holding chunks 64k..64k+63; offset 512(n/64) mod 2^32; pointer 8(n mod 64); flag iff n >= 64; the block holds the chunks since the last write |
| SlaveCallbacks.AckStep | can_callbacks_slave.c:105-110 | the ack responds iff the flag is set, and leaves it cleared |
| SlaveCallbacks.AcksNeverExceedWrites | can_callbacks_slave.c:82-110 | over any run of chunks and acks, the ack responses never exceed the flash writes (plus a flag pending at the start) |
| SlaveCallbacks.LE32 | can_callbacks_slave.c:118-119 | a little-endian 32-bit read from 4 bytes is below 2^32 |
| SlaveCallbacks.LE32RoundTrip | can_callbacks_slave.c:147-148 | decoding the 4 bytes copied out of a uint32_t returns it |
| SlaveCallbacks.LE32BytesRoundTrip | can_callbacks_slave.c:118-119 | encoding a decoded 4-byte word reproduces the bytes |
| SlaveCallbacks.ToInt32 | can_callbacks_slave.c:114-119 | a uint32_t assigned to an int32_t is in int32 range and congruent mod 2^32 |
| SlaveCallbacks.ReadPackets | can_callbacks_slave.c:120-124 | the loop runs 0 times for length <= 0 and otherwise ceil(length / 8) times |
| SlaveCallbacks.ReadPacket | can_callbacks_slave.c:121 | byte k of the packet at offset is memory at address + offset + k (32-bit addresses) |
| SlaveCallbacks.FlashReadFramesAt | can_callbacks_slave.c:120-124 | the k-th streamed frame is the read-response frame for address + 8k, and there are exactly as many frames as iterations |
| SlaveCallbacks.ReadFrameCarriesMemory | can_callbacks_slave.c:121-122 | each streamed frame has id FLASH_READ_RSP, DLC 8, and the 8 memory bytes at address + offset |
| SlaveCallbacks.NextReadOffsetAsWritten | can_callbacks_slave.c:123 | the wrapping int32 step stays in int32 range and equals offset + 8 or offset + 8 - 2^32 |
| SlaveCallbacks.FlashReadOffsetNeverReachesLength | can_callbacks_slave.c:120-123 | for length 0x7fffffff every int32 multiple of 8 is below the length, and so is its wrapping successor: the loop as written never ends |
| SlaveCallbacks.FlashReadOffsetWrapsAt | can_callbacks_slave.c:123 | 0x7ffffff8 + 8 wraps to INT32_MIN |
| SlaveCallbacks.SizeAndAddrDecodes | can_callbacks_slave.c:143-150 | the reply's first 4 bytes decode to the partition size and the last 4 to its origin |
| SlaveCallbacks.ReplyIdsAddressMaster | can_callbacks_slave.c:36-44 | the mode-change and reboot replies are addressed to node 0 from node 2 and carry their response codes |
| SlaveCallbacks.Session.constructor | can_callbacks_slave.c:21-33 | the statics start as the zero accumulator |
| SlaveCallbacks.Session.CmdModeChange | can_callbacks_slave.c:35-41 | sends the mode-change response iff the update cookie is set, and nothing else |
| SlaveCallbacks.Session.CmdReboot | can_callbacks_slave.c:43-49 | sends the reboot response, then resets |
| SlaveCallbacks.Session.CmdRebootVerify | can_callbacks_slave.c:51-54 | sends exactly the verify response |
| SlaveCallbacks.Session.CmdDataStart | can_callbacks_slave.c:56-59 | sends exactly the data-start-ready frame |
| SlaveCallbacks.Session.UpdatePreroutine | can_callbacks_slave.c:61-65 | erases the firmware partition, then sends the update-start response |
| SlaveCallbacks.Session.UpdatePostroutine | can_callbacks_slave.c:67-74 | sends the finish response, then locks flash, clears the cookie and resets, in that order |
| SlaveCallbacks.Session.CmdRollback | can_callbacks_slave.c:128-141 | copies the backup over the firmware, sends the rollback response, clears the cookie and resets, in that order |
| SlaveCallbacks.Session.CmdResponseDataSizeAndAddr | can_callbacks_slave.c:143-150 | sends one 8-byte frame holding the partition size and origin, little-endian |
| SlaveCallbacks.Session.CmdProcessData | can_callbacks_slave.c:77-90 | pops one payload; if there was one, the statics and the flash writes are exactly `AcceptChunk`'s; otherwise nothing changes |
| SlaveCallbacks.Session.CmdProcessLen | can_callbacks_slave.c:95-103 | pops one payload and unlocks flash iff there was one; the accumulator is unchanged |
| SlaveCallbacks.Session.CmdProcessBlockAck | can_callbacks_slave.c:105-110 | sends the ack response iff the flag was set, and clears it; nothing else changes |
| SlaveCallbacks.Session.CmdProcessFlashRead | can_callbacks_slave.c:112-126 | pops one payload; if there was one, sends exactly `ReadPackets(length)` read frames from the decoded address; otherwise sends nothing; the accumulator is unchanged |
| SlaveCallbacks.Session.Run | com_proto.c:188 | calling the selected handler keeps the session invariant (a 64-slot table, both queues within 128, the semaphore equal to the id-queue length, a 512-byte block whose pointer is a multiple of 8 below 512, and a 32-bit flash offset); each handler's own row states its effect |
| SlaveCallbacks.Session.HandleId | com_proto.c:184-192 | the entry selected is the guarded lookup's choice over the table as it was before the call, and the session invariant is kept; when no live slot matches, the accumulator, the log and the receive state are unchanged |

## Left out

- The dispatcher task `com_proto_id_task` and its creation in `com_proto_init` (com_proto.c:36-57) are not modelled, because they are scheduler plumbing. `Session.HandleId` models one iteration of the dispatcher loop.
- Concurrency between the receive interrupt and the dispatcher is not modelled. The calls are sequential, and a semaphore timeout is a take at count 0.
- The ring-buffer implementation is not part of this model. Each FIFO is a bounded sequence whose put fails when full.
- The CRC, which is commented out in the source, is not modelled. The debug LED and `printf` are omitted, and so are the empty `cmd_process_chunk` and `com_proto_process_tx_IRQ`.
- ComProto.TxBlock: the returned byte count follows the corrected last-block count `LastBlockPackets`, not the source's `bytes_sent`. For len >= 128 that is a multiple of 8 it is 8 lower than the source's counter, for example 128 where the source reaches 136 at len = 128. `TxBlockBytesAgainstSource` states the source's value beside it. The source only returns `res`, and `bytes_sent` is a local that nothing reads.
- ComProto.TxBlock: `len` and the byte counter are `uint32_t` in the source, but the model's `nat` counter does not wrap at 2^32. The counter would only reach 2^32 for len > 0xfffffff8.
- ComProto.TxBlock: the `data` argument is not modelled, because the per-packet transmissions that would read it are commented out. The CRC frame always carries 4 zero bytes.
- ComProto.PollTxStatus: `tx_timeout` is unbounded, because its final wrap to 0xffff is never read again.
- ComProto.Proto.ProcessRxIrq: the semaphore saturates at 256 (`Give`). That limit is never reached, because the id queue holds at most 128.
- SlaveCallbacks.Session.CmdModeChange: `cookie_flag_set` is read as a query ("is the flag set"). Its implementation is not part of this model.
- SlaveCallbacks.Session.CmdReboot: `reset` does not return on the device. The model records the reset in the log and returns; the same holds for `UpdatePostroutine` and `CmdRollback`.
- SlaveCallbacks.Session.CmdProcessFlashRead: the memory that is read is a constant map. It does not reflect the flash writes the session issues.
- SlaveCallbacks.Session.CmdProcessFlashRead: the offset counter is unbounded. The source's int32 counter overflows for lengths above 0x7ffffff8 (see Findings).
- SlaveCallbacks.Session.CmdProcessFlashRead: `address + offset` is taken modulo 2^32, as a 32-bit pointer. In C, an int32 overflow of that sum is undefined.
- SlaveCallbacks.Session.CmdProcessLen: the decoded length is not used by the source beyond a debug print, so the model does not decode it.
- SlaveCallbacks.Session.HandleId: it uses the guarded lookup (see Findings), and beyond the selected entry it states only the invariant when a handler runs.
- SlaveCallbacks.Session.Run: it is stated only to preserve `Valid`, because repeating all twelve handlers' postconditions in one contract adds nothing that their own contracts do not state.
- The collaborators' effects are not modelled beyond the call log: the flash contents, partition contents and LED state.

## Findings

| source | as written | input that shows it | evidently intended | confidence | as-written member | corrected member |
|---|---|---|---|---|---|---|
| com_proto.c:184-192 | the first slot whose id equals the received id is called even when its handler is NULL; the unused static slots are (id 0, NULL) | register `slave_iap_callbacks`, then receive an addressed frame whose command field is 0: slot 12 is selected and a NULL function pointer is called | skip slots without a handler, so an unknown id runs nothing | not executed | ComProto.DispatchAsWritten, SlaveCallbacks.IapZeroIdReachesNullSlot | ComProto.DispatchLive, ComProto.Proto.CallbackByIdGuarded |
| com_proto.c:111 | the last block's leftover test subtracts from the whole length (`bytes_to_send`), not from the last block's bytes | len = 128: the last block counts 1 packet where 0 bytes are left, so `bytes_sent` ends 8 too high | test `len % 128 - pkts * 8` | not executed | ComProto.LastBlockPacketsAsWritten, ComProto.LastBlockOvercountAt128 | ComProto.LastBlockPackets, ComProto.PacketsCoverLength |
| can_callbacks_slave.c:120-123 | the int32_t `offset += 8` overflows once offset reaches 0x7ffffff8 while the length is larger | a flash-read request with length 0x7fffffff: the offset wraps to INT32_MIN (overflow is undefined in C), so the loop test stays true and streaming never stops | stop after ceil(length / 8) packets | not executed; assumes wrap-around | SlaveCallbacks.NextReadOffsetAsWritten, SlaveCallbacks.FlashReadOffsetNeverReachesLength | SlaveCallbacks.ReadPackets, SlaveCallbacks.Session.CmdProcessFlashRead |
