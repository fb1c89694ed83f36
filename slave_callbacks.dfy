/**
 * The update session of the IAP slave (can_callbacks_slave.c): the command
 * handlers, their two registration tables, and the 512-byte accumulator
 * that collects 8-byte data chunks into flash-sized blocks.
 *
 * The accumulator is described twice: as the pure state machine
 * AcceptChunk / Feed / Replay, about which the lemmas are proved, and as
 * the Session class holding the module's statics, whose handlers are
 * proved to step exactly as the pure machine does.
 */
module SlaveCallbacks {
  import opened IdCodec
  import opened Collaborators
  import opened ComProto

  /** Bytes per flash write (CHUNK_SIZE) and data chunks per flash write. */
  const CHUNK_SIZE: nat := 512
  const CHUNKS_PER_WRITE: nat := 64

  // ---------------------------------------------------------------------
  // Handler tables
  // ---------------------------------------------------------------------

  /** The handler functions of can_callbacks_slave.c, as table entries name them. */
  datatype Handler =
    | ModeChange
    | Reboot
    | RebootVerify
    | UpdatePreroutine
    | DataStart
    | ProcessLen
    | ProcessData
    | ProcessBlockAck
    | ProcessFlashRead
    | UpdatePostroutine
    | Rollback
    | ResponseDataSizeAndAddr

  /** slave_iap_callbacks: twelve handlers and the NULL sentinel. */
  const SLAVE_IAP_CALLBACKS: seq<Callback<Handler>> := [
    Callback(Some(ModeChange), CMD_MODE_CHANGE_RQ),
    Callback(Some(Reboot), CMD_MODE_REBOOT_RQ),
    Callback(Some(RebootVerify), CMD_MODE_VERIFY_RQ),
    Callback(Some(UpdatePreroutine), CMD_MODE_UPDATE_START_RQ),
    Callback(Some(DataStart), CMD_DATA_START_RQ),
    Callback(Some(ProcessLen), CMD_DATA_LEN),
    Callback(Some(ProcessData), CMD_DATA_BLK_CHUNK),
    Callback(Some(ProcessBlockAck), CMD_DATA_BLK_ACK_RQ),
    Callback(Some(ProcessFlashRead), CMD_DATA_FLASH_READ),
    Callback(Some(UpdatePostroutine), CMD_DATA_FINISH_RQ),
    Callback(Some(Rollback), CMD_MODE_ROLLBACK),
    Callback(Some(ResponseDataSizeAndAddr), CMD_REQUEST_DATA_SIZE_AND_ADDR),
    Callback(None, 0)
  ]

  /** slave_normal_mode_callbacks: mode change and reboot only. */
  const SLAVE_NORMAL_MODE_CALLBACKS: seq<Callback<Handler>> := [
    Callback(Some(ModeChange), CMD_MODE_CHANGE_RQ),
    Callback(Some(Reboot), CMD_MODE_REBOOT_RQ),
    Callback(None, 0)
  ]

  /**
   * The IAP table is NULL-terminated, registers all twelve handlers, and
   * its codes are pairwise distinct and non-zero.
   */
  lemma IapTableRegistersTwelve()
    ensures Terminated(SLAVE_IAP_CALLBACKS)
    ensures RegisteredCount(SLAVE_IAP_CALLBACKS, COM_PROTO_CALLBACKS_MAX_NUM) == 12
    ensures forall i, j :: 0 <= i < j < 12 ==> SLAVE_IAP_CALLBACKS[i].id != SLAVE_IAP_CALLBACKS[j].id
    ensures forall i :: 0 <= i < 12 ==> SLAVE_IAP_CALLBACKS[i].id != 0
  {
    RegisteredCountAtSentinel(SLAVE_IAP_CALLBACKS, COM_PROTO_CALLBACKS_MAX_NUM, 12);
  }

  /** Every code of the IAP table dispatches, in both lookups, to its own handler. */
  lemma IapCodesDispatch(i: nat)
    requires i < 12
    ensures DispatchAsWritten(RegisteredSlots(SLAVE_IAP_CALLBACKS), SLAVE_IAP_CALLBACKS[i].id)
      == Invoke(SLAVE_IAP_CALLBACKS[i].fn.value, i)
    ensures DispatchLive(RegisteredSlots(SLAVE_IAP_CALLBACKS), SLAVE_IAP_CALLBACKS[i].id)
      == Invoke(SLAVE_IAP_CALLBACKS[i].fn.value, i)
  {
    IapTableRegistersTwelve();
    DispatchFindsRegistered(SLAVE_IAP_CALLBACKS, i);
  }

  /** With the IAP table registered, id 0 reaches the NULL slot 12 as written. */
  lemma IapZeroIdReachesNullSlot()
    ensures DispatchAsWritten(RegisteredSlots(SLAVE_IAP_CALLBACKS), 0) == NullCallback(12)
    ensures DispatchLive(RegisteredSlots(SLAVE_IAP_CALLBACKS), 0) == NoMatch
  {
    IapTableRegistersTwelve();
    ZeroIdReachesNullSlot(SLAVE_IAP_CALLBACKS);
  }

  /** The normal-mode table registers two handlers, each found under its code. */
  lemma NormalTableRegistersTwo()
    ensures RegisteredCount(SLAVE_NORMAL_MODE_CALLBACKS, COM_PROTO_CALLBACKS_MAX_NUM) == 2
    ensures DispatchLive(RegisteredSlots(SLAVE_NORMAL_MODE_CALLBACKS), CMD_MODE_CHANGE_RQ) == Invoke(ModeChange, 0)
    ensures DispatchLive(RegisteredSlots(SLAVE_NORMAL_MODE_CALLBACKS), CMD_MODE_REBOOT_RQ) == Invoke(Reboot, 1)
    ensures DispatchLive(RegisteredSlots(SLAVE_NORMAL_MODE_CALLBACKS), CMD_DATA_BLK_CHUNK) == NoMatch
  {
    var t := SLAVE_NORMAL_MODE_CALLBACKS;
    RegisteredCountAtSentinel(t, COM_PROTO_CALLBACKS_MAX_NUM, 2);
    DispatchFindsRegistered(t, 0);
    DispatchFindsRegistered(t, 1);
    var slots := RegisteredSlots(t);
    assert forall k :: 0 <= k < |slots| ==> !(slots[k].id == CMD_DATA_BLK_CHUNK && slots[k].fn.Some?) by {
      forall k | 0 <= k < |slots| ensures !(slots[k].id == CMD_DATA_BLK_CHUNK && slots[k].fn.Some?) {
        if k >= 2 {
          assert slots[k] == Callback(None, 0);
        }
      }
    }
  }

  // ---------------------------------------------------------------------
  // The data-block accumulator
  // ---------------------------------------------------------------------

  /** data_block, data_block_ptr, data_flash_offset and last_data_processed. */
  datatype Accumulator = Accumulator(block: seq<uint8>, ptr: nat, offset: nat, last: bool)

  /** Between calls the pointer is a multiple of 8 below 512 and the offset a uint32_t value. */
  predicate AccValid(a: Accumulator)
  {
    |a.block| == CHUNK_SIZE && a.ptr % COM_PROTO_PKT_SIZE == 0 && a.ptr < CHUNK_SIZE && a.offset < U32
  }

  /** The zero-initialised statics at start-up. */
  const ZERO_ACC: Accumulator := Accumulator(seq(CHUNK_SIZE, _ => 0), 0, 0, false)

  /** One accumulator step and the flash writes it issues. */
  datatype ChunkStep = ChunkStep(acc: Accumulator, writes: seq<Event>)

  /**
   * cmd_process_data once a payload is available: the 8 bytes are copied
   * to block[ptr..ptr+8) and the pointer advances; when it reaches 512 the
   * whole block is written at origin + offset (uint32_t arithmetic), the
   * pointer returns to 0, the offset grows by 512 and the flag is set.
   */
  function AcceptChunk(a: Accumulator, origin: nat, chunk: Payload): (r: ChunkStep)
    requires AccValid(a)
    ensures AccValid(r.acc)
    ensures r.acc.block[a.ptr..a.ptr + 8] == chunk
    ensures r.acc.block[..a.ptr] == a.block[..a.ptr] && r.acc.block[a.ptr + 8..] == a.block[a.ptr + 8..]
    ensures a.ptr + 8 < CHUNK_SIZE ==>
      r.acc.ptr == a.ptr + 8 && r.acc.offset == a.offset && r.acc.last == a.last && r.writes == []
    ensures a.ptr + 8 == CHUNK_SIZE ==>
      && r.acc.ptr == 0 && r.acc.offset == (a.offset + CHUNK_SIZE) % U32 && r.acc.last
      && r.writes == [FlashWritten((origin + a.offset) % U32, r.acc.block)]
  {
    var block := a.block[..a.ptr] + chunk + a.block[a.ptr + 8..];
    if a.ptr + 8 == CHUNK_SIZE then
      ChunkStep(Accumulator(block, 0, (a.offset + CHUNK_SIZE) % U32, true),
                [FlashWritten((origin + a.offset) % U32, block)])
    else
      ChunkStep(a.(block := block, ptr := a.ptr + 8), [])
  }

  /** A sequence of chunks accepted in order, with every flash write issued. */
  function Feed(a: Accumulator, origin: nat, chunks: seq<Payload>): (r: ChunkStep)
    requires AccValid(a)
    ensures AccValid(r.acc)
    decreases |chunks|
  {
    if chunks == [] then ChunkStep(a, [])
    else Then(Feed(a, origin, chunks[..|chunks| - 1]), origin, chunks[|chunks| - 1])
  }

  /** The bytes of a sequence of chunks, in order. */
  function Flatten(chunks: seq<Payload>): (bytes: seq<uint8>)
    ensures |bytes| == COM_PROTO_PKT_SIZE * |chunks|
    decreases |chunks|
  {
    if chunks == [] then [] else Flatten(chunks[..|chunks| - 1]) + chunks[|chunks| - 1]
  }

  /** Adding a multiple of the modulus after reducing does not change the residue. */
  lemma AddAfterMod(x: nat, y: nat)
    ensures (x % U32 + y) % U32 == (x + y) % U32
  {
    var q := x / U32;
    assert x == U32 * q + x % U32;
    assert x + y == (x % U32 + y) + U32 * q;
  }

  /** Stepping n to n + 1 in a count of chunks: either a write boundary or not. */
  lemma ChunkCountStep(n: nat)
    ensures n % CHUNKS_PER_WRITE < CHUNKS_PER_WRITE - 1 ==>
      (n + 1) / CHUNKS_PER_WRITE == n / CHUNKS_PER_WRITE && (n + 1) % CHUNKS_PER_WRITE == n % CHUNKS_PER_WRITE + 1
    ensures n % CHUNKS_PER_WRITE == CHUNKS_PER_WRITE - 1 ==>
      (n + 1) / CHUNKS_PER_WRITE == n / CHUNKS_PER_WRITE + 1 && (n + 1) % CHUNKS_PER_WRITE == 0
  {
  }

  /** The k-th of the first q writes is at origin + 512k and carries chunks 64k .. 64k+63. */
  ghost predicate WritesCover(origin: nat, chunks: seq<Payload>, ws: seq<Event>, q: nat)
  {
    && CHUNKS_PER_WRITE * q <= |chunks|
    && |ws| == q
    && forall k :: 0 <= k < q ==>
         ws[k] == FlashWritten((origin + CHUNK_SIZE * k) % U32,
                               Flatten(chunks[CHUNKS_PER_WRITE * k..CHUNKS_PER_WRITE * k + CHUNKS_PER_WRITE]))
  }

  /** The facts FeedFromZero states about the first n chunks. */
  ghost predicate FedFromZero(origin: nat, chunks: seq<Payload>, r: ChunkStep)
  {
    var n := |chunks|;
    var q := n / CHUNKS_PER_WRITE;
    && r.acc.ptr == COM_PROTO_PKT_SIZE * (n % CHUNKS_PER_WRITE)
    && r.acc.offset == (CHUNK_SIZE * q) % U32
    && r.acc.last == (n >= CHUNKS_PER_WRITE)
    && |r.acc.block| == CHUNK_SIZE
    && r.acc.block[..r.acc.ptr] == Flatten(chunks[CHUNKS_PER_WRITE * q..])
    && WritesCover(origin, chunks, r.writes, q)
  }

  /** Receiving one more chunk does not change what the earlier writes cover. */
  lemma WritesCoverSnoc(origin: nat, chunks: seq<Payload>, c: Payload, ws: seq<Event>, q: nat)
    requires WritesCover(origin, chunks, ws, q)
    ensures WritesCover(origin, chunks + [c], ws, q)
  {
    var all := chunks + [c];
    forall k | 0 <= k < q
      ensures all[CHUNKS_PER_WRITE * k..CHUNKS_PER_WRITE * k + CHUNKS_PER_WRITE]
           == chunks[CHUNKS_PER_WRITE * k..CHUNKS_PER_WRITE * k + CHUNKS_PER_WRITE]
    {
    }
  }

  /** Appending the write of block q extends the coverage by one block. */
  lemma WritesCoverAppend(origin: nat, chunks: seq<Payload>, ws: seq<Event>, q: nat, block: seq<uint8>)
    requires WritesCover(origin, chunks, ws, q)
    requires CHUNKS_PER_WRITE * (q + 1) <= |chunks|
    requires block == Flatten(chunks[CHUNKS_PER_WRITE * q..CHUNKS_PER_WRITE * q + CHUNKS_PER_WRITE])
    ensures WritesCover(origin, chunks, ws + [FlashWritten((origin + CHUNK_SIZE * q) % U32, block)], q + 1)
  {
  }

  /** Flattening a sequence with one more chunk appends that chunk's bytes. */
  lemma FlattenSnoc(chunks: seq<Payload>, c: Payload)
    ensures Flatten(chunks + [c]) == Flatten(chunks) + c
  {
    assert (chunks + [c])[..|chunks|] == chunks;
  }

  /** The accumulator after one more chunk, with the writes issued so far. */
  function Then(prev: ChunkStep, origin: nat, c: Payload): (r: ChunkStep)
    requires AccValid(prev.acc)
    ensures AccValid(r.acc)
  {
    var step := AcceptChunk(prev.acc, origin, c);
    ChunkStep(step.acc, prev.writes + step.writes)
  }

  /** Feeding one more chunk is one more AcceptChunk after the earlier ones. */
  lemma FeedSnoc(origin: nat, chunks: seq<Payload>, c: Payload)
    ensures Feed(ZERO_ACC, origin, chunks + [c]) == Then(Feed(ZERO_ACC, origin, chunks), origin, c)
  {
    assert (chunks + [c])[..|chunks|] == chunks;
  }

  /** One more chunk within the current block. */
  lemma StepNoWrite(origin: nat, chunks: seq<Payload>, c: Payload, prev: ChunkStep)
    requires AccValid(prev.acc) && FedFromZero(origin, chunks, prev)
    requires |chunks| % CHUNKS_PER_WRITE < CHUNKS_PER_WRITE - 1
    ensures FedFromZero(origin, chunks + [c], Then(prev, origin, c))
  {
    var n := |chunks|;
    var q := n / CHUNKS_PER_WRITE;
    var all := chunks + [c];
    var r := Then(prev, origin, c);
    ChunkCountStep(n);
    assert r.acc.block[..prev.acc.ptr + 8] == prev.acc.block[..prev.acc.ptr] + c;
    assert all[CHUNKS_PER_WRITE * q..] == chunks[CHUNKS_PER_WRITE * q..] + [c];
    FlattenSnoc(chunks[CHUNKS_PER_WRITE * q..], c);
    WritesCoverSnoc(origin, chunks, c, prev.writes, q);
  }

  /** The offset and address arithmetic of a write, modulo 2^32. */
  lemma WriteOffsets(origin: nat, q: nat)
    ensures ((CHUNK_SIZE * q) % U32 + CHUNK_SIZE) % U32 == (CHUNK_SIZE * (q + 1)) % U32
    ensures (origin + (CHUNK_SIZE * q) % U32) % U32 == (origin + CHUNK_SIZE * q) % U32
  {
    AddAfterMod(CHUNK_SIZE * q, CHUNK_SIZE);
    AddAfterMod(CHUNK_SIZE * q, origin);
  }

  /** The 64th chunk of a block: the block is written and the pointer wraps. */
  lemma StepWrite(origin: nat, chunks: seq<Payload>, c: Payload, prev: ChunkStep)
    requires AccValid(prev.acc) && FedFromZero(origin, chunks, prev)
    requires |chunks| % CHUNKS_PER_WRITE == CHUNKS_PER_WRITE - 1
    ensures FedFromZero(origin, chunks + [c], Then(prev, origin, c))
  {
    var n := |chunks|;
    var q := n / CHUNKS_PER_WRITE;
    var all := chunks + [c];
    var step := AcceptChunk(prev.acc, origin, c);
    ChunkCountStep(n);
    assert step.acc.block == prev.acc.block[..prev.acc.ptr] + c;
    var base := CHUNKS_PER_WRITE * q;
    assert all[base..base + CHUNKS_PER_WRITE] == chunks[base..] + [c];
    FlattenSnoc(chunks[base..], c);
    WriteOffsets(origin, q);
    assert all[CHUNKS_PER_WRITE * (q + 1)..] == [];
    WritesCoverSnoc(origin, chunks, c, prev.writes, q);
    WritesCoverAppend(origin, all, prev.writes, q, step.acc.block);
  }

  /**
   * From the zero state, after n chunks: n / 64 flash writes have been
   * issued, the k-th at origin + 512k carrying chunks 64k .. 64k+63; the
   * offset is 512 * (n / 64) modulo 2^32, the pointer 8 * (n % 64), the
   * flag set once any block was written, and the block holds the chunks
   * received since the last write.
   */
  lemma {:induction false} FeedFromZero(origin: nat, chunks: seq<Payload>)
    ensures FedFromZero(origin, chunks, Feed(ZERO_ACC, origin, chunks))
    decreases |chunks|
  {
    if chunks == [] {
      assert Feed(ZERO_ACC, origin, chunks).acc == ZERO_ACC;
    } else {
      var init := chunks[..|chunks| - 1];
      var c := chunks[|chunks| - 1];
      assert chunks == init + [c];
      FeedFromZero(origin, init);
      FeedSnoc(origin, init, c);
      if |init| % CHUNKS_PER_WRITE == CHUNKS_PER_WRITE - 1 {
        StepWrite(origin, init, c, Feed(ZERO_ACC, origin, init));
      } else {
        StepNoWrite(origin, init, c, Feed(ZERO_ACC, origin, init));
      }
    }
  }

  /** A session event the accumulator sees: a data chunk with its payload, or a block ack. */
  datatype Op = ChunkOp(data: Payload) | AckOp

  /** Final accumulator, number of flash writes and number of ack responses of a run. */
  datatype Replayed = Replayed(acc: Accumulator, writes: nat, acks: nat)

  /**
   * cmd_process_block_ack on the accumulator: respond iff the flag is set,
   * and clear it either way.
   */
  function AckStep(a: Accumulator): (r: (Accumulator, bool))
    ensures r.1 <==> a.last
    ensures !r.0.last && r.0 == a.(last := false)
  {
    (a.(last := false), a.last)
  }

  /** A run of chunks and acks, in order. */
  function Replay(a: Accumulator, origin: nat, ops: seq<Op>): (r: Replayed)
    requires AccValid(a)
    ensures AccValid(r.acc)
    decreases |ops|
  {
    if ops == [] then Replayed(a, 0, 0)
    else match ops[0]
      case ChunkOp(d) =>
        var s := AcceptChunk(a, origin, d);
        var r := Replay(s.acc, origin, ops[1..]);
        Replayed(r.acc, |s.writes| + r.writes, r.acks)
      case AckOp =>
        var (a1, respond) := AckStep(a);
        var r := Replay(a1, origin, ops[1..]);
        Replayed(r.acc, r.writes, (if respond then 1 else 0) + r.acks)
  }

  /**
   * Acks are answered at most once per flash write: over any run, the ack
   * responses plus a flag still pending at the end never exceed the writes
   * plus a flag pending at the start. In particular two acks with no write
   * between them yield at most one response.
   */
  lemma {:induction false} AcksNeverExceedWrites(a: Accumulator, origin: nat, ops: seq<Op>)
    requires AccValid(a)
    ensures var r := Replay(a, origin, ops);
      r.acks + (if r.acc.last then 1 else 0) <= r.writes + (if a.last then 1 else 0)
    decreases |ops|
  {
    if ops != [] {
      match ops[0]
      case ChunkOp(d) =>
        var s := AcceptChunk(a, origin, d);
        AcksNeverExceedWrites(s.acc, origin, ops[1..]);
      case AckOp =>
        AcksNeverExceedWrites(AckStep(a).0, origin, ops[1..]);
    }
  }

  // ---------------------------------------------------------------------
  // Little-endian words in payloads
  // ---------------------------------------------------------------------

  /** A uint32_t read from 4 bytes in memory order on the little-endian target. */
  function LE32(b: seq<uint8>): (v: nat)
    requires |b| == 4
    ensures v < U32
  {
    b[0] as nat + 0x100 * b[1] as nat + 0x1_0000 * b[2] as nat + 0x100_0000 * b[3] as nat
  }

  /** The 4 bytes memcpy copies out of a uint32_t on the little-endian target. */
  function LE32Bytes(v: nat): (b: seq<uint8>)
    requires v < U32
    ensures |b| == 4
  {
    [(v % 0x100) as uint8, (v / 0x100 % 0x100) as uint8, (v / 0x1_0000 % 0x100) as uint8, (v / 0x100_0000) as uint8]
  }

  /** Encoding then decoding a uint32_t gives it back. */
  lemma LE32RoundTrip(v: nat)
    requires v < U32
    ensures LE32(LE32Bytes(v)) == v
  {
    var r1 := v / 0x100;
    var r2 := r1 / 0x100;
    var r3 := r2 / 0x100;
    assert v / 0x1_0000 == r2;
    assert v / 0x100_0000 == r3;
  }

  /** Decoding then encoding 4 bytes gives them back. */
  lemma LE32BytesRoundTrip(b: seq<uint8>)
    requires |b| == 4
    ensures LE32Bytes(LE32(b)) == b
  {
    var b0, b1, b2, b3 := b[0] as nat, b[1] as nat, b[2] as nat, b[3] as nat;
    var r2 := b2 + 0x100 * b3;
    var r1 := b1 + 0x100 * r2;
    var v := b0 + 0x100 * r1;
    assert v == LE32(b);
    DigitSplit(b0, r1);
    DigitSplit(b1, r2);
    DigitSplit(b2, b3);
    assert v / 0x1_0000 == (v / 0x100) / 0x100;
    assert v / 0x100_0000 == (v / 0x1_0000) / 0x100;
  }

  /** Splitting off the low base-256 digit. */
  lemma DigitSplit(lo: nat, hi: nat)
    requires lo < 0x100
    ensures (lo + 0x100 * hi) % 0x100 == lo && (lo + 0x100 * hi) / 0x100 == hi
  {
  }

  /** A uint32_t value assigned to an int32_t (two's complement). */
  function ToInt32(u: nat): (i: int)
    requires u < U32
    ensures -0x8000_0000 <= i < 0x8000_0000
    ensures i == u || i == u - U32
  {
    if u < 0x8000_0000 then u else u - U32
  }

  // ---------------------------------------------------------------------
  // Flash-read streaming
  // ---------------------------------------------------------------------

  /** How many times `while (offset < length)` runs with offset 0, 8, 16, ... */
  function ReadPackets(length: int): (n: nat)
    ensures length <= 0 ==> n == 0
    ensures length > 0 ==> COM_PROTO_PKT_SIZE * (n - 1) < length <= COM_PROTO_PKT_SIZE * n
  {
    if length <= 0 then 0 else (length + 7) / 8
  }

  /** The 8 bytes memcpy copies from address + offset, with 32-bit pointer arithmetic. */
  function ReadPacket(memory: int -> uint8, address: int, offset: int): (p: seq<uint8>)
    ensures |p| == COM_PROTO_PKT_SIZE
    ensures forall k :: 0 <= k < COM_PROTO_PKT_SIZE ==> p[k] == memory((address + offset + k) % U32)
  {
    seq(COM_PROTO_PKT_SIZE, k => memory((address + offset + k) % U32))
  }

  /** The frame sent for the packet at `offset`. */
  function ReadFrame(memory: int -> uint8, address: int, offset: int): Event
  {
    Sent(MakeFrame(CMD_DATA_FLASH_READ_RSP, ReadPacket(memory, address, offset), COM_PROTO_PKT_SIZE))
  }

  /** The frames of the first `count` loop iterations. */
  function FlashReadFrames(memory: int -> uint8, address: int, count: nat): seq<Event>
    decreases count
  {
    if count == 0 then []
    else FlashReadFrames(memory, address, count - 1) + [ReadFrame(memory, address, COM_PROTO_PKT_SIZE * (count - 1))]
  }

  /** The k-th frame streamed carries the 8 bytes at address + 8k, with DLC 8. */
  lemma {:induction false} FlashReadFramesAt(memory: int -> uint8, address: int, count: nat)
    ensures |FlashReadFrames(memory, address, count)| == count
    ensures forall k :: 0 <= k < count ==>
      FlashReadFrames(memory, address, count)[k] == ReadFrame(memory, address, COM_PROTO_PKT_SIZE * k)
    decreases count
  {
    if count > 0 {
      FlashReadFramesAt(memory, address, count - 1);
    }
  }

  /** A streamed frame holds the bytes at address + offset .. address + offset + 7. */
  lemma ReadFrameCarriesMemory(memory: int -> uint8, address: int, offset: int)
    ensures ReadFrame(memory, address, offset).frame.extId == CMD_DATA_FLASH_READ_RSP
    ensures ReadFrame(memory, address, offset).frame.dlc == COM_PROTO_PKT_SIZE
    ensures forall k :: 0 <= k < COM_PROTO_PKT_SIZE ==>
      ReadFrame(memory, address, offset).frame.data[k] == memory((address + offset + k) % U32)
  {
    var f := ReadFrame(memory, address, offset).frame;
    assert f.data[..COM_PROTO_PKT_SIZE] == ReadPacket(memory, address, offset);
  }

  /**
   * The loop step `offset += 8` on an int32_t as the processor executes it
   * (wrapping), which C leaves undefined.
   */
  function NextReadOffsetAsWritten(offset: int): (next: int)
    requires -0x8000_0000 <= offset < 0x8000_0000
    ensures -0x8000_0000 <= next < 0x8000_0000
    ensures next == offset + 8 || next == offset + 8 - U32
  {
    ToInt32((offset + 8) % U32)
  }

  /**
   * For length 0x7fffffff no int32_t multiple of 8 reaches the length: the
   * loop test holds at every offset the wrapping step produces, so the
   * loop as written never ends.
   */
  lemma FlashReadOffsetNeverReachesLength(offset: int)
    requires -0x8000_0000 <= offset < 0x8000_0000 && offset % 8 == 0
    ensures offset < 0x7fff_ffff
    ensures NextReadOffsetAsWritten(offset) % 8 == 0 && NextReadOffsetAsWritten(offset) < 0x7fff_ffff
  {
  }

  /** The concrete step that wraps: 0x7ffffff8 + 8 becomes INT32_MIN, still below the length. */
  lemma FlashReadOffsetWrapsAt()
    ensures NextReadOffsetAsWritten(0x7fff_fff8) == -0x8000_0000
  {
  }

  // ---------------------------------------------------------------------
  // The session: module statics and handlers
  // ---------------------------------------------------------------------

  /** The reply frame of a handler that sends only an identifier. */
  function Reply(id: bv32): Event
  {
    Sent(MakeFrame(id, [], 0))
  }

  /** The reply of cmd_responce_data_size_and_addr: size then origin, little-endian. */
  function SizeAndAddrPayload(size: nat, origin: nat): (p: seq<uint8>)
    requires size < U32 && origin < U32
    ensures |p| == COM_PROTO_PKT_SIZE
  {
    LE32Bytes(size) + LE32Bytes(origin)
  }

  /** The master decodes the partition size and origin back from the reply payload. */
  lemma SizeAndAddrDecodes(size: nat, origin: nat)
    requires size < U32 && origin < U32
    ensures LE32(SizeAndAddrPayload(size, origin)[..4]) == size
    ensures LE32(SizeAndAddrPayload(size, origin)[4..]) == origin
  {
    var p := SizeAndAddrPayload(size, origin);
    assert p[..4] == LE32Bytes(size);
    assert p[4..] == LE32Bytes(origin);
    LE32RoundTrip(size);
    LE32RoundTrip(origin);
  }

  /** The mode-change and reboot replies are addressed to node 0 from node 2. */
  lemma ReplyIdsAddressMaster()
    ensures DstFromId(GenerateId(0, 2, CMD_MODE_CHANGE_RSP)) == 0
    ensures SrcFromId(GenerateId(0, 2, CMD_MODE_CHANGE_RSP)) == 2
    ensures FlagsFromId(GenerateId(0, 2, CMD_MODE_CHANGE_RSP)) == CMD_MODE_CHANGE_RSP
    ensures DstFromId(GenerateId(0, 2, CMD_MODE_REBOOT_RSP)) == 0
    ensures SrcFromId(GenerateId(0, 2, CMD_MODE_REBOOT_RSP)) == 2
    ensures FlagsFromId(GenerateId(0, 2, CMD_MODE_REBOOT_RSP)) == CMD_MODE_REBOOT_RSP
  {
    DecodeGenerated(0, 2, CMD_MODE_CHANGE_RSP);
    DecodeGenerated(0, 2, CMD_MODE_REBOOT_RSP);
  }

  /**
   * The statics of can_callbacks_slave.c, with the protocol core it
   * receives from and the board it drives.
   */
  class Session {
    const proto: Proto<Handler>
    const board: Board
    const dataBlock: array<uint8>
    var dataBlockPtr: nat
    var dataFlashOffset: nat
    var lastDataProcessed: bool

    ghost predicate Valid()
      reads this, proto
    {
      && proto.Valid()
      && dataBlock.Length == CHUNK_SIZE
      && dataBlockPtr % COM_PROTO_PKT_SIZE == 0 && dataBlockPtr < CHUNK_SIZE
      && dataFlashOffset < U32
      && board.fwOrigin < U32 && board.fwSize < U32
    }

    /** The accumulator the statics hold. */
    function Acc(): Accumulator
      reads this, dataBlock
    {
      Accumulator(dataBlock[..], dataBlockPtr, dataFlashOffset, lastDataProcessed)
    }

    /** The statics start zeroed. */
    constructor (proto: Proto<Handler>, board: Board)
      requires proto.Valid() && board.fwOrigin < U32 && board.fwSize < U32
      ensures Valid() && fresh(dataBlock)
      ensures this.proto == proto && this.board == board
      ensures Acc() == ZERO_ACC
    {
      this.proto := proto;
      this.board := board;
      dataBlock := new uint8[CHUNK_SIZE](_ => 0);
      dataBlockPtr, dataFlashOffset, lastDataProcessed := 0, 0, false;
      new;
      assert dataBlock[..] == ZERO_ACC.block;
    }

    /** cmd_mode_change: replies only while the update cookie is set. */
    method CmdModeChange()
      requires Valid()
      modifies board`log, board`txCount
      ensures Valid()
      ensures board.log == old(board.log) + (if board.updFlag then [Reply(GenerateId(0, 2, CMD_MODE_CHANGE_RSP))] else [])
    {
      var id := GenerateId(0, 2, CMD_MODE_CHANGE_RSP);
      var permitted := board.CookieFlagSet(CookieUpdFlag);
      if permitted {
        var _ := TxPacket(board, id, [], 0);
      }
    }

    /** cmd_reboot: reply, then reset. */
    method CmdReboot()
      requires Valid()
      modifies board`log, board`txCount
      ensures Valid()
      ensures board.log == old(board.log) + [Reply(GenerateId(0, 2, CMD_MODE_REBOOT_RSP)), ResetIssued]
    {
      var id := GenerateId(0, 2, CMD_MODE_REBOOT_RSP);
      var _ := TxPacket(board, id, [], 0);
      board.Reset();
    }

    /** cmd_reboot_verify: replies with the bare response code (no addresses). */
    method CmdRebootVerify()
      requires Valid()
      modifies board`log, board`txCount
      ensures Valid()
      ensures board.log == old(board.log) + [Reply(CMD_MODE_VERIFY_RSP)]
    {
      var _ := TxPacket(board, CMD_MODE_VERIFY_RSP, [], 0);
    }

    /** cmd_data_start: replies with the bare ready code. */
    method CmdDataStart()
      requires Valid()
      modifies board`log, board`txCount
      ensures Valid()
      ensures board.log == old(board.log) + [Reply(CMD_DATA_START_READY)]
    {
      var _ := TxPacket(board, CMD_DATA_START_READY, [], 0);
    }

    /** update_preroutine: erase the firmware partition, then reply. */
    method UpdatePreroutine()
      requires Valid()
      modifies board`log, board`txCount
      ensures Valid()
      ensures board.log == old(board.log) + [Erased(FwPartition), Reply(CMD_MODE_UPDATE_START_RSP)]
    {
      board.PartitionErase(FwPartition);
      var _ := TxPacket(board, CMD_MODE_UPDATE_START_RSP, [], 0);
    }

    /** update_postroutine: reply, lock flash, clear the update cookie, reset. */
    method UpdatePostroutine()
      requires Valid()
      modifies board`log, board`txCount, board`updFlag
      ensures Valid() && !board.updFlag
      ensures board.log == old(board.log) +
        [Reply(CMD_DATA_FINISH_RSP), FlashLocked, CookieCleared(CookieUpdFlag), ResetIssued]
    {
      var _ := TxPacket(board, CMD_DATA_FINISH_RSP, [], 0);
      board.FlashLock();
      board.CookieFlagClear(CookieUpdFlag);
      board.Reset();
    }

    /** cmd_rollback: copy the backup over the firmware, reply, clear the cookie, reset. */
    method CmdRollback()
      requires Valid()
      modifies board`log, board`txCount, board`updFlag
      ensures Valid() && !board.updFlag
      ensures board.log == old(board.log) +
        [Copied(FwPartition, FwBackupPartition), Reply(CMD_MODE_ROLLBACK_RSP), CookieCleared(CookieUpdFlag), ResetIssued]
    {
      board.PartitionCopy(FwPartition, FwBackupPartition);
      var _ := TxPacket(board, CMD_MODE_ROLLBACK_RSP, [], 0);
      board.CookieFlagClear(CookieUpdFlag);
      board.Reset();
    }

    /** cmd_responce_data_size_and_addr: one 8-byte reply with size and origin. */
    method CmdResponseDataSizeAndAddr()
      requires Valid()
      modifies board`log, board`txCount
      ensures Valid()
      ensures board.log == old(board.log) +
        [Sent(MakeFrame(CMD_REQUEST_DATA_SIZE_AND_ADDR_RSP, SizeAndAddrPayload(board.fwSize, board.fwOrigin), 8))]
    {
      var data := LE32Bytes(board.fwSize) + LE32Bytes(board.fwOrigin);
      var _ := TxPacket(board, CMD_REQUEST_DATA_SIZE_AND_ADDR_RSP, data, 8);
    }

    /**
     * cmd_process_data: pops one payload; if there was one, the statics
     * step exactly as AcceptChunk says and its flash write (if any) is issued.
     */
    method CmdProcessData()
      requires Valid()
      modifies this, proto, dataBlock, board`log
      ensures Valid()
      ensures proto.Rx() == TakePayload(old(proto.Rx())).state
      ensures var t := TakePayload(old(proto.Rx()));
        if t.ok then
          var step := AcceptChunk(old(Acc()), board.fwOrigin, t.data);
          Acc() == step.acc && board.log == old(board.log) + step.writes
        else
          Acc() == old(Acc()) && board.log == old(board.log)
    {
      var ok, data := proto.GetRxData();
      if ok {
        ghost var before := Acc();
        var ptr := dataBlockPtr;
        forall k | 0 <= k < COM_PROTO_PKT_SIZE {
          dataBlock[ptr + k] := data[k];
        }
        assert dataBlock[..] == before.block[..ptr] + data + before.block[ptr + 8..];
        dataBlockPtr := dataBlockPtr + COM_PROTO_PKT_SIZE;
        if dataBlockPtr == CHUNK_SIZE {
          board.FlashWriteBlock((board.fwOrigin + dataFlashOffset) % U32, dataBlock[..]);
          dataBlockPtr := 0;
          dataFlashOffset := (dataFlashOffset + CHUNK_SIZE) % U32;
          lastDataProcessed := true;
        }
      }
    }

    /** cmd_process_len: pops one payload and, if there was one, unlocks flash; the statics keep their values. */
    method CmdProcessLen()
      requires Valid()
      modifies proto, board`log
      ensures Valid()
      ensures proto.Rx() == TakePayload(old(proto.Rx())).state
      ensures Acc() == old(Acc())
      ensures board.log == old(board.log) + (if TakePayload(old(proto.Rx())).ok then [FlashUnlocked] else [])
    {
      var ok, data := proto.GetRxData();
      if ok {
        board.FlashUnlock();
      }
    }

    /** cmd_process_block_ack: replies iff a block was written since the last ack, and clears the flag. */
    method CmdProcessBlockAck()
      requires Valid()
      modifies this, board`log, board`txCount
      ensures Valid()
      ensures Acc() == AckStep(old(Acc())).0
      ensures board.log == old(board.log) + (if AckStep(old(Acc())).1 then [Reply(CMD_DATA_BLK_ACK_RSP)] else [])
    {
      if lastDataProcessed {
        var _ := TxPacket(board, CMD_DATA_BLK_ACK_RSP, [], 0);
      }
      lastDataProcessed := false;
    }

    /**
     * cmd_process_flash_read: pops one payload holding an address and a
     * length (int32_t each) and streams 8-byte packets from memory while
     * the offset is below the length.
     */
    method CmdProcessFlashRead()
      requires Valid()
      modifies proto, board`log, board`txCount
      ensures Valid()
      ensures proto.Rx() == TakePayload(old(proto.Rx())).state
      ensures Acc() == old(Acc())
      ensures var t := TakePayload(old(proto.Rx()));
        if t.ok then
          var address := ToInt32(LE32(t.data[..4]));
          var length := ToInt32(LE32(t.data[4..]));
          board.log == old(board.log) + FlashReadFrames(board.memory, address, ReadPackets(length))
        else
          board.log == old(board.log)
    {
      var ok, data := proto.GetRxData();
      if ok {
        var address := ToInt32(LE32(data[..4]));
        var length := ToInt32(LE32(data[4..]));
        var offset := 0;
        ghost var sent: nat := 0;
        while offset < length
          invariant offset == COM_PROTO_PKT_SIZE * sent
          invariant sent <= ReadPackets(length)
          invariant proto.Valid() && proto.Rx() == TakePayload(old(proto.Rx())).state
          invariant board.log == old(board.log) + FlashReadFrames(board.memory, address, sent)
          decreases length - offset
        {
          var txData := ReadPacket(board.memory, address, offset);
          var _ := TxPacket(board, CMD_DATA_FLASH_READ_RSP, txData, COM_PROTO_PKT_SIZE);
          offset := offset + COM_PROTO_PKT_SIZE;
          sent := sent + 1;
        }
      }
    }

    /** Calls the handler function a table entry names. */
    method Run(h: Handler)
      requires Valid()
      modifies this, proto, dataBlock, board`log, board`txCount, board`updFlag
      ensures Valid()
    {
      match h
      case ModeChange => CmdModeChange();
      case Reboot => CmdReboot();
      case RebootVerify => CmdRebootVerify();
      case UpdatePreroutine => UpdatePreroutine();
      case DataStart => CmdDataStart();
      case ProcessLen => CmdProcessLen();
      case ProcessData => CmdProcessData();
      case ProcessBlockAck => CmdProcessBlockAck();
      case ProcessFlashRead => CmdProcessFlashRead();
      case UpdatePostroutine => UpdatePostroutine();
      case Rollback => CmdRollback();
      case ResponseDataSizeAndAddr => CmdResponseDataSizeAndAddr();
    }

    /**
     * One received id through the guarded lookup: the selected handler
     * runs; when no live slot matches, nothing changes.
     */
    method HandleId(id: bv32) returns (d: Dispatch<Handler>)
      requires Valid()
      modifies this, proto, dataBlock, board`log, board`txCount, board`updFlag
      ensures Valid()
      ensures d == DispatchLive(old(proto.callbacks[..]), id)
      ensures d.NoMatch? ==>
        Acc() == old(Acc()) && board.log == old(board.log) && proto.Rx() == old(proto.Rx())
    {
      d := proto.CallbackByIdGuarded(id);
      if d.Invoke? {
        Run(d.handler);
      }
    }
  }
}
