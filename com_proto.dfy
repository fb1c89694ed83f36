/**
 * The protocol core of com_proto.c: the command dispatch table, the
 * interrupt-side ingestion of received frames into a bounded id queue and
 * a bounded payload queue with a counting semaphore, the dispatcher-side
 * consumers, and synchronous transmission with a bounded status poll.
 *
 * The ring buffers are abstract bounded FIFOs (sequences whose put fails
 * when full); the semaphore is a counter. The pure functions on RxState
 * say what one ingestion or one take does; the Proto class holds the
 * module's static state and its methods are proved against those functions.
 */
module ComProto {
  import opened IdCodec
  import opened Collaborators

  datatype Option<T> = None | Some(value: T)

  const ID_RBUF_LEN: nat := 128
  const DATA_RBUF_LEN: nat := 128
  /** Maximum count of the semaphore created by xSemaphoreCreateCounting(256, 0). */
  const SEMAPHORE_MAX: nat := 256
  /** tx_timeout starts at 0x0fff and is post-decremented: 0x1000 polls at most. */
  const TX_POLL_BUDGET: nat := 0x1000
  /** Bytes in one tx_block transfer block: 16 packets of 8 bytes. */
  const BLOCK_BYTES: nat := COM_PROTO_BLK_SIZE * COM_PROTO_PKT_SIZE

  /** The 8 data bytes of a received frame, in memory (little-endian) order. */
  type Payload = s: seq<uint8> | |s| == 8 witness [0, 0, 0, 0, 0, 0, 0, 0]

  // ---------------------------------------------------------------------
  // Command dispatch table
  // ---------------------------------------------------------------------

  /** A table entry: handler (None is the NULL function pointer) and command code. */
  datatype Callback<H> = Callback(fn: Option<H>, id: bv32)

  /** What a lookup finds: a handler to run, nothing, or a matching slot whose handler is NULL. */
  datatype Dispatch<H> = Invoke(handler: H, slot: nat) | NoMatch | NullCallback(slot: nat)

  /** A table the registration loop can read: it holds a NULL sentinel or at least 64 entries. */
  predicate Terminated<H>(table: seq<Callback<H>>)
  {
    |table| >= COM_PROTO_CALLBACKS_MAX_NUM || exists k :: 0 <= k < |table| && table[k].fn.None?
  }

  /** How many leading entries of `table` the registration copies, reading at most `cap`. */
  function RegisteredCount<H>(table: seq<Callback<H>>, cap: nat): (n: nat)
    ensures n <= cap && n <= |table|
    ensures forall k :: 0 <= k < n ==> table[k].fn.Some?
    ensures n < cap && n < |table| ==> table[n].fn.None?
  {
    if cap == 0 || table == [] || table[0].fn.None? then 0
    else 1 + RegisteredCount(table[1..], cap - 1)
  }

  /** The static 64-slot table after one registration over its zero-initialised slots. */
  function RegisteredSlots<H>(table: seq<Callback<H>>): (slots: seq<Callback<H>>)
    ensures |slots| == COM_PROTO_CALLBACKS_MAX_NUM
    ensures forall k :: 0 <= k < RegisteredCount(table, COM_PROTO_CALLBACKS_MAX_NUM) ==> slots[k] == table[k]
    ensures forall k :: RegisteredCount(table, COM_PROTO_CALLBACKS_MAX_NUM) <= k < COM_PROTO_CALLBACKS_MAX_NUM ==>
      slots[k] == Callback(None, 0)
  {
    var n := RegisteredCount(table, COM_PROTO_CALLBACKS_MAX_NUM);
    table[..n] + seq(COM_PROTO_CALLBACKS_MAX_NUM - n, _ => Callback(None, 0))
  }

  /** Whether a lookup for `id` stops at slot `c`; the guarded lookup also skips NULL handlers. */
  predicate Selects<H>(c: Callback<H>, id: bv32, liveOnly: bool)
  {
    c.id == id && (liveOnly ==> c.fn.Some?)
  }

  /** The lowest index at or after `from` whose slot the lookup selects. */
  function FirstSlot<H>(slots: seq<Callback<H>>, id: bv32, liveOnly: bool, from: nat): (r: Option<nat>)
    decreases |slots| - from
    ensures r.Some? ==> from <= r.value < |slots| && Selects(slots[r.value], id, liveOnly)
    ensures forall k :: from <= k < |slots| && (r.None? || k < r.value) ==> !Selects(slots[k], id, liveOnly)
  {
    if from >= |slots| then None
    else if Selects(slots[from], id, liveOnly) then Some(from)
    else FirstSlot(slots, id, liveOnly, from + 1)
  }

  /** A table whose first NULL handler is at index n < cap registers exactly n entries. */
  lemma {:induction false} RegisteredCountAtSentinel<H>(table: seq<Callback<H>>, cap: nat, n: nat)
    requires n < cap && n < |table| && table[n].fn.None?
    requires forall k :: 0 <= k < n ==> table[k].fn.Some?
    ensures RegisteredCount(table, cap) == n
    decreases n
  {
    if n > 0 {
      assert table[0].fn.Some?;
      RegisteredCountAtSentinel(table[1..], cap - 1, n - 1);
    }
  }

  /**
   * com_proto_callback_by_id as written: the first slot whose id matches
   * wins, whether or not its handler is NULL.
   */
  function DispatchAsWritten<H>(slots: seq<Callback<H>>, id: bv32): (r: Dispatch<H>)
    ensures r.Invoke? ==> r.slot < |slots| && slots[r.slot] == Callback(Some(r.handler), id)
    ensures r.NullCallback? ==> r.slot < |slots| && slots[r.slot] == Callback(None, id)
    ensures !r.NoMatch? ==> forall k :: 0 <= k < r.slot ==> slots[k].id != id
    ensures r.NoMatch? <==> forall k :: 0 <= k < |slots| ==> slots[k].id != id
  {
    match FirstSlot(slots, id, false, 0)
    case None => NoMatch
    case Some(i) => if slots[i].fn.Some? then Invoke(slots[i].fn.value, i) else NullCallback(i)
  }

  /** The guarded lookup: the first slot with a matching id and a non-NULL handler. */
  function DispatchLive<H>(slots: seq<Callback<H>>, id: bv32): (r: Dispatch<H>)
    ensures !r.NullCallback?
    ensures r.Invoke? ==> r.slot < |slots| && slots[r.slot] == Callback(Some(r.handler), id)
    ensures r.Invoke? ==> forall k :: 0 <= k < r.slot ==> !(slots[k].id == id && slots[k].fn.Some?)
    ensures r.NoMatch? <==> forall k :: 0 <= k < |slots| ==> !(slots[k].id == id && slots[k].fn.Some?)
  {
    match FirstSlot(slots, id, true, 0)
    case None => NoMatch
    case Some(i) => Invoke(slots[i].fn.value, i)
  }

  /**
   * A registered entry whose code no earlier entry uses is found by both
   * lookups, at its own index.
   */
  lemma DispatchFindsRegistered<H>(table: seq<Callback<H>>, i: nat)
    requires i < RegisteredCount(table, COM_PROTO_CALLBACKS_MAX_NUM)
    requires forall k :: 0 <= k < i ==> table[k].id != table[i].id
    ensures DispatchAsWritten(RegisteredSlots(table), table[i].id) == Invoke(table[i].fn.value, i)
    ensures DispatchLive(RegisteredSlots(table), table[i].id) == Invoke(table[i].fn.value, i)
  {
    var slots := RegisteredSlots(table);
    var id := table[i].id;
    assert slots[i] == table[i];
    assert forall k :: 0 <= k < i ==> slots[k] == table[k];
    var a := FirstSlot(slots, id, false, 0);
    assert a.Some? && a.value <= i;
    var b := FirstSlot(slots, id, true, 0);
    assert b.Some? && b.value <= i;
  }

  /**
   * Unused static slots hold id 0 and a NULL handler, so after registering
   * a table that has no entry for id 0, looking up id 0 as written reaches
   * a NULL handler, while the guarded lookup finds nothing.
   */
  lemma ZeroIdReachesNullSlot<H>(table: seq<Callback<H>>)
    requires forall k :: 0 <= k < RegisteredCount(table, COM_PROTO_CALLBACKS_MAX_NUM) ==> table[k].id != 0
    requires RegisteredCount(table, COM_PROTO_CALLBACKS_MAX_NUM) < COM_PROTO_CALLBACKS_MAX_NUM
    ensures DispatchAsWritten(RegisteredSlots(table), 0) == NullCallback(RegisteredCount(table, COM_PROTO_CALLBACKS_MAX_NUM))
    ensures DispatchLive(RegisteredSlots(table), 0) == NoMatch
  {
    var slots := RegisteredSlots(table);
    var n := RegisteredCount(table, COM_PROTO_CALLBACKS_MAX_NUM);
    assert slots[n] == Callback(None, 0);
    var r := DispatchAsWritten(slots, 0);
    assert !r.NoMatch?;
    assert r.slot <= n;
  }

  // ---------------------------------------------------------------------
  // Receive path: ingestion (interrupt side) and consumption (dispatcher side)
  // ---------------------------------------------------------------------

  /** The receive-side state: id queue, payload queue, error flag, semaphore count. */
  datatype RxState = RxState(ids: seq<bv32>, payloads: seq<Payload>, errFlag: bool, sem: nat)

  /** Both queues within capacity, and one semaphore count per queued id. */
  predicate RxValid(s: RxState)
  {
    |s.ids| <= ID_RBUF_LEN && |s.payloads| <= DATA_RBUF_LEN && s.sem == |s.ids|
  }

  /** xSemaphoreGiveFromISR: the count saturates at the semaphore's maximum. */
  function Give(sem: nat): nat
  {
    if sem < SEMAPHORE_MAX then sem + 1 else sem
  }

  /**
   * com_proto_process_rx_IRQ on the receive state. The error flag is a
   * bool in the source, so the codes 1 and 2 both store true. The
   * semaphore count keeps step with the id queue and never saturates.
   */
  function Ingest(s: RxState, node: bv8, id: bv32, data: Payload): (r: RxState)
    requires RxValid(s)
    ensures RxValid(r)
    ensures s.errFlag ==> r.errFlag
  {
    IngestDecoded(s, DstFromId(id) == node, FlagsFromId(id), HasDataFlag(id), data)
  }

  /** Ingest once the identifier is decoded: addressed to this node, masked command, DATA flag. */
  function IngestDecoded(s: RxState, addressed: bool, masked: bv32, hasData: bool, data: Payload): (r: RxState)
    requires RxValid(s)
    ensures RxValid(r)
    ensures s.errFlag ==> r.errFlag
  {
    if !addressed then s
    else if |s.ids| == ID_RBUF_LEN then s.(errFlag := true)
    else Enqueue(s, masked, hasData, data)
  }

  /** The successful id push: queue the id, the payload when flagged and room remains, give once. */
  function Enqueue(s: RxState, masked: bv32, hasData: bool, data: Payload): (r: RxState)
    requires RxValid(s) && |s.ids| < ID_RBUF_LEN
    ensures RxValid(r)
    ensures s.errFlag ==> r.errFlag
  {
    var payloads := if hasData && |s.payloads| < DATA_RBUF_LEN then s.payloads + [data] else s.payloads;
    var err := s.errFlag || (hasData && |s.payloads| == DATA_RBUF_LEN);
    RxState(s.ids + [masked], payloads, err, Give(s.sem))
  }

  /** A frame not addressed to this node changes nothing. */
  lemma IngestIgnoresOtherNodes(s: RxState, node: bv8, id: bv32, data: Payload)
    requires RxValid(s) && DstFromId(id) != node
    ensures Ingest(s, node, id, data) == s
  {
  }

  /**
   * An addressed frame queues only the masked id; a full id queue sets the
   * error flag and gives no semaphore; a payload is queued only with the
   * DATA flag, and a full payload queue sets the error flag but still gives
   * the semaphore once for the queued id.
   */
  lemma IngestAddressed(s: RxState, node: bv8, id: bv32, data: Payload)
    requires RxValid(s) && DstFromId(id) == node
    ensures var r := Ingest(s, node, id, data);
      if |s.ids| == ID_RBUF_LEN then
        r.ids == s.ids && r.payloads == s.payloads && r.sem == s.sem && r.errFlag
      else
        && r.ids == s.ids + [FlagsFromId(id)]
        && r.sem == s.sem + 1
        && (HasDataFlag(id) && |s.payloads| < DATA_RBUF_LEN ==> r.payloads == s.payloads + [data])
        && (!(HasDataFlag(id) && |s.payloads| < DATA_RBUF_LEN) ==> r.payloads == s.payloads)
        && (r.errFlag <==> s.errFlag || (HasDataFlag(id) && |s.payloads| == DATA_RBUF_LEN))
  {
  }

  /** Ingestion of a sequence of (id, payload) frames, in arrival order. */
  function IngestAll(s: RxState, node: bv8, frames: seq<(bv32, Payload)>): (r: RxState)
    requires RxValid(s)
    ensures RxValid(r)
    ensures s.errFlag ==> r.errFlag
    decreases |frames|
  {
    if frames == [] then s
    else IngestAll(Ingest(s, node, frames[0].0, frames[0].1), node, frames[1..])
  }

  /** The masked ids of a sequence of frames, in order. */
  function MaskedIds(frames: seq<(bv32, Payload)>): (ids: seq<bv32>)
    ensures |ids| == |frames|
    ensures forall i :: 0 <= i < |frames| ==> ids[i] == FlagsFromId(frames[i].0)
  {
    if frames == [] then [] else [FlagsFromId(frames[0].0)] + MaskedIds(frames[1..])
  }

  /** The first `n` elements of `xs`, or all of them when there are fewer. */
  function Take<T>(xs: seq<T>, n: nat): (r: seq<T>)
    ensures |r| == if |xs| <= n then |xs| else n
    ensures r <= xs
  {
    if |xs| <= n then xs else xs[..n]
  }

  /** Truncating after each append and truncating once at the end agree. */
  lemma TakeAppendOne<T>(xs: seq<T>, x: T, ys: seq<T>, n: nat)
    requires |xs| <= n
    ensures Take(Take(xs + [x], n) + ys, n) == Take(xs + ([x] + ys), n)
  {
    assert xs + [x] + ys == xs + ([x] + ys);
    if |xs| == n {
      assert Take(xs + [x], n) == xs;
      assert (xs + ([x] + ys))[..n] == xs;
    }
  }

  /** One addressed frame, seen through the id queue alone. */
  lemma IngestIdsStep(s: RxState, node: bv8, id: bv32, data: Payload)
    requires RxValid(s) && DstFromId(id) == node
    ensures var r := Ingest(s, node, id, data);
      && r.ids == Take(s.ids + [FlagsFromId(id)], ID_RBUF_LEN)
      && r.sem == |r.ids|
      && (s.errFlag || |s.ids| == ID_RBUF_LEN ==> r.errFlag)
  {
    IngestAddressed(s, node, id, data);
  }

  /** All frames are addressed to `node`. */
  predicate AllAddressed(frames: seq<(bv32, Payload)>, node: bv8)
  {
    forall i :: 0 <= i < |frames| ==> DstFromId(frames[i].0) == node
  }

  /**
   * Ingesting addressed frames with no consumer keeps them in arrival
   * order, drops only what does not fit in the id queue, and sets the error
   * flag when anything was dropped.
   */
  lemma {:induction false} IngestAllKeepsArrivalOrder(s: RxState, node: bv8, frames: seq<(bv32, Payload)>)
    requires RxValid(s)
    requires AllAddressed(frames, node)
    ensures var r := IngestAll(s, node, frames);
      && r.ids == Take(s.ids + MaskedIds(frames), ID_RBUF_LEN)
      && r.sem == |r.ids|
      && (s.errFlag || |s.ids| + |frames| > ID_RBUF_LEN ==> r.errFlag)
    decreases |frames|
  {
    if frames == [] {
      assert s.ids + MaskedIds(frames) == s.ids;
    } else {
      var id, data, rest := frames[0].0, frames[0].1, frames[1..];
      assert DstFromId(id) == node;
      assert AllAddressed(rest, node) by {
        forall i | 0 <= i < |rest| ensures DstFromId(rest[i].0) == node {
          assert rest[i] == frames[i + 1];
        }
      }
      var s1 := Ingest(s, node, id, data);
      IngestIdsStep(s, node, id, data);
      IngestAllKeepsArrivalOrder(s1, node, rest);
      TakeAppendOne(s.ids, FlagsFromId(id), MaskedIds(rest), ID_RBUF_LEN);
    }
  }

  /** Outcome of com_proto_get_rx_id: success, the id popped, the new state. */
  datatype IdTake = IdTake(ok: bool, id: bv32, state: RxState)

  /**
   * com_proto_get_rx_id: the semaphore take fails (times out) when the count
   * is zero; otherwise the count drops and the head of the id queue is
   * popped, failing if the queue is unexpectedly empty.
   */
  function TakeId(s: RxState): (r: IdTake)
    ensures RxValid(s) ==> RxValid(r.state)
  {
    if s.sem == 0 then IdTake(false, 0, s)
    else if s.ids == [] then IdTake(false, 0, s.(sem := s.sem - 1))
    else IdTake(true, s.ids[0], s.(ids := s.ids[1..], sem := s.sem - 1))
  }

  /** With the semaphore in step with the queue, a take fails exactly when no id is queued. */
  lemma TakeIdPopsHead(s: RxState)
    requires RxValid(s)
    ensures TakeId(s).ok <==> s.ids != []
    ensures TakeId(s).ok ==> TakeId(s).id == s.ids[0] && TakeId(s).state.ids == s.ids[1..]
    ensures !TakeId(s).ok ==> TakeId(s).state == s
    ensures TakeId(s).state.payloads == s.payloads && TakeId(s).state.errFlag == s.errFlag
  {
  }

  /** The ids that `n` successive takes deliver. */
  function TakeIds(s: RxState, n: nat): seq<bv32>
    decreases n
  {
    if n == 0 then []
    else
      var r := TakeId(s);
      (if r.ok then [r.id] else []) + TakeIds(r.state, n - 1)
  }

  /** Successive takes deliver the queued ids in the order they were queued. */
  lemma {:induction false} TakeIdsInOrder(s: RxState, n: nat)
    requires RxValid(s) && n <= |s.ids|
    ensures TakeIds(s, n) == s.ids[..n]
    decreases n
  {
    if n > 0 {
      TakeIdPopsHead(s);
      var r := TakeId(s);
      TakeIdsInOrder(r.state, n - 1);
      assert s.ids[..n] == [s.ids[0]] + s.ids[1..][..n - 1];
    }
  }

  /** Outcome of com_proto_get_rx_data. */
  datatype PayloadTake = PayloadTake(ok: bool, data: Payload, state: RxState)

  /** com_proto_get_rx_data: a non-blocking pop of the payload queue. */
  function TakePayload(s: RxState): (r: PayloadTake)
    ensures r.ok <==> s.payloads != []
    ensures r.ok ==> r.data == s.payloads[0] && r.state == s.(payloads := s.payloads[1..])
    ensures !r.ok ==> r.state == s
    ensures RxValid(s) ==> RxValid(r.state)
  {
    if s.payloads == [] then PayloadTake(false, [0, 0, 0, 0, 0, 0, 0, 0], s)
    else PayloadTake(true, s.payloads[0], s.(payloads := s.payloads[1..]))
  }

  // ---------------------------------------------------------------------
  // The module's static state
  // ---------------------------------------------------------------------

  class Proto<H> {
    /** com_proto_callbacks[64]. */
    const callbacks: array<Callback<H>>
    /** node_address: set once by com_proto_init and never written again. */
    const nodeAddress: bv8
    /** id_rbuf, data_rbuf, com_proto_err_flag and the semaphore count. */
    var idFifo: seq<bv32>
    var dataFifo: seq<Payload>
    var errFlag: bool
    var semCount: nat

    ghost predicate Valid()
      reads this
    {
      callbacks.Length == COM_PROTO_CALLBACKS_MAX_NUM && RxValid(Rx())
    }

    function Rx(): RxState
      reads this
    {
      RxState(idFifo, dataFifo, errFlag, semCount)
    }

    /**
     * com_proto_init: zero-initialised table, empty queues, semaphore at 0;
     * the table is registered when one is supplied (the dispatcher task it
     * would also start is not modelled).
     */
    constructor (currentNodeAddress: bv8, pcallbacks: Option<seq<Callback<H>>>)
      requires pcallbacks.Some? ==> Terminated(pcallbacks.value)
      ensures Valid() && fresh(callbacks)
      ensures nodeAddress == currentNodeAddress && Rx() == RxState([], [], false, 0)
      ensures pcallbacks.None? ==> callbacks[..] == seq(COM_PROTO_CALLBACKS_MAX_NUM, _ => Callback(None, 0))
      ensures pcallbacks.Some? ==> callbacks[..] == RegisteredSlots(pcallbacks.value)
    {
      callbacks := new Callback<H>[COM_PROTO_CALLBACKS_MAX_NUM](_ => Callback(None, 0));
      nodeAddress := currentNodeAddress;
      idFifo, dataFifo, errFlag, semCount := [], [], false, 0;
      new;
      if pcallbacks.Some? {
        RegisterCallbacks(pcallbacks.value);
        assert callbacks[..] == RegisteredSlots(pcallbacks.value);
      }
    }

    /**
     * com_proto_register_callbacks: copies entries 0, 1, ... in order,
     * stopping at the first NULL handler or after 64 entries; later slots
     * keep their contents.
     */
    method RegisterCallbacks(table: seq<Callback<H>>)
      requires Valid() && Terminated(table)
      modifies callbacks
      ensures Valid()
      ensures forall k :: 0 <= k < RegisteredCount(table, COM_PROTO_CALLBACKS_MAX_NUM) ==> callbacks[k] == table[k]
      ensures forall k :: RegisteredCount(table, COM_PROTO_CALLBACKS_MAX_NUM) <= k < COM_PROTO_CALLBACKS_MAX_NUM ==>
        callbacks[k] == old(callbacks[k])
    {
      var i := 0;
      while i < COM_PROTO_CALLBACKS_MAX_NUM
        invariant 0 <= i <= COM_PROTO_CALLBACKS_MAX_NUM && i <= |table|
        invariant i < COM_PROTO_CALLBACKS_MAX_NUM ==> i < |table|
        invariant forall k :: 0 <= k < i ==> table[k].fn.Some?
        invariant forall k :: 0 <= k < i ==> callbacks[k] == table[k]
        invariant forall k :: i <= k < COM_PROTO_CALLBACKS_MAX_NUM ==> callbacks[k] == old(callbacks[k])
        invariant RegisteredCount(table, COM_PROTO_CALLBACKS_MAX_NUM) >= i
      {
        if table[i].fn.None? {
          break;
        }
        callbacks[i] := table[i];
        i := i + 1;
      }
    }

    /** com_proto_callback_by_id as written (see DispatchAsWritten). */
    method CallbackById(receivedId: bv32) returns (r: Dispatch<H>)
      requires Valid()
      ensures r == DispatchAsWritten(callbacks[..], receivedId)
    {
      var i := 0;
      while i < COM_PROTO_CALLBACKS_MAX_NUM
        invariant 0 <= i <= COM_PROTO_CALLBACKS_MAX_NUM
        invariant FirstSlot(callbacks[..], receivedId, false, i) == FirstSlot(callbacks[..], receivedId, false, 0)
      {
        if callbacks[i].id == receivedId {
          r := if callbacks[i].fn.Some? then Invoke(callbacks[i].fn.value, i) else NullCallback(i);
          return;
        }
        i := i + 1;
      }
      r := NoMatch;
    }

    /** The guarded lookup: slots with a NULL handler are skipped (see DispatchLive). */
    method CallbackByIdGuarded(receivedId: bv32) returns (r: Dispatch<H>)
      requires Valid()
      ensures r == DispatchLive(callbacks[..], receivedId)
    {
      var i := 0;
      while i < COM_PROTO_CALLBACKS_MAX_NUM
        invariant 0 <= i <= COM_PROTO_CALLBACKS_MAX_NUM
        invariant FirstSlot(callbacks[..], receivedId, true, i) == FirstSlot(callbacks[..], receivedId, true, 0)
      {
        if callbacks[i].fn.Some? && callbacks[i].id == receivedId {
          r := Invoke(callbacks[i].fn.value, i);
          return;
        }
        i := i + 1;
      }
      r := NoMatch;
    }

    /** com_proto_process_rx_IRQ (the dlc argument is not used by the source either). */
    method ProcessRxIrq(id: bv32, data: Payload, dlc: bv8)
      requires Valid()
      modifies this
      ensures Valid()
      ensures Rx() == Ingest(old(Rx()), nodeAddress, id, data)
    {
      if DstFromId(id) == nodeAddress {
        if |idFifo| == ID_RBUF_LEN {
          errFlag := true;
        } else {
          ghost var before := Rx();
          idFifo := idFifo + [FlagsFromId(id)];
          var hasData := HasDataFlag(id);
          if hasData {
            if |dataFifo| == DATA_RBUF_LEN {
              errFlag := true;
            } else {
              dataFifo := dataFifo + [data];
            }
          }
          semCount := Give(semCount);
          assert Rx() == Enqueue(before, FlagsFromId(id), hasData, data);
        }
      }
    }

    /** com_proto_get_rx_id. */
    method GetRxId() returns (ok: bool, id: bv32)
      requires Valid()
      modifies this
      ensures Valid()
      ensures IdTake(ok, id, Rx()) == TakeId(old(Rx()))
    {
      if semCount == 0 {
        return false, 0;
      }
      semCount := semCount - 1;
      if idFifo == [] {
        ok, id := false, 0;
      } else {
        ok, id := true, idFifo[0];
        idFifo := idFifo[1..];
      }
    }

    /** com_proto_expect_id: the popped id is consumed whether or not it matches. */
    method ExpectId(idExp: bv32) returns (ok: bool)
      requires Valid()
      modifies this
      ensures Valid()
      ensures Rx() == TakeId(old(Rx())).state
      ensures ok <==> TakeId(old(Rx())).ok && TakeId(old(Rx())).id == idExp
    {
      var got, rxId := GetRxId();
      ok := got && rxId == idExp;
    }

    /** com_proto_get_rx_data. */
    method GetRxData() returns (ok: bool, data: Payload)
      requires Valid()
      modifies this
      ensures Valid()
      ensures PayloadTake(ok, data, Rx()) == TakePayload(old(Rx()))
    {
      if dataFifo == [] {
        return false, [0, 0, 0, 0, 0, 0, 0, 0];
      }
      ok, data := true, dataFifo[0];
      dataFifo := dataFifo[1..];
    }
  }

  // ---------------------------------------------------------------------
  // Transmit path
  // ---------------------------------------------------------------------

  function Zeros(n: nat): (z: seq<uint8>)
    ensures |z| == n && forall i :: 0 <= i < n ==> z[i] == 0
  {
    seq(n, _ => 0)
  }

  /**
   * The frame com_proto_tx_packet fills in: the given identifier, DLC = len,
   * the first len bytes of data and zeros after them.
   */
  function MakeFrame(id: bv32, data: seq<uint8>, len: nat): (f: Frame)
    requires len <= COM_PROTO_PKT_SIZE && len <= |data|
    ensures f.extId == id && f.dlc == len && |f.data| == COM_PROTO_PKT_SIZE
    ensures f.data[..len] == data[..len]
    ensures forall k :: len <= k < COM_PROTO_PKT_SIZE ==> f.data[k] == 0
  {
    Frame(id, len, data[..len] + Zeros(COM_PROTO_PKT_SIZE - len))
  }

  /**
   * The do-while status poll of com_proto_tx_packet: stops at the first
   * TxOk or after 0x1000 polls, and succeeds iff the last status polled is
   * TxOk.
   */
  method PollTxStatus(status: nat -> TxStatus) returns (ok: bool, polls: nat)
    ensures 1 <= polls <= TX_POLL_BUDGET
    ensures forall p :: 0 <= p < polls - 1 ==> status(p) != TxOk
    ensures ok <==> status(polls - 1) == TxOk
    ensures !ok ==> polls == TX_POLL_BUDGET
    ensures ok <==> exists p :: 0 <= p < TX_POLL_BUDGET && status(p) == TxOk
  {
    var timeout: nat := 0x0fff;
    var st := status(0);
    polls := 1;
    while st != TxOk && timeout != 0
      invariant 1 <= polls <= TX_POLL_BUDGET
      invariant polls + timeout == TX_POLL_BUDGET
      invariant st == status(polls - 1)
      invariant forall p :: 0 <= p < polls - 1 ==> status(p) != TxOk
      decreases timeout
    {
      timeout := timeout - 1;
      st := status(polls);
      polls := polls + 1;
    }
    ok := st == TxOk;
  }

  /** Whether the t-th transmission reports TxOk within the poll budget. */
  ghost predicate Delivered(status: (nat, nat) -> TxStatus, t: nat)
  {
    exists p :: 0 <= p < TX_POLL_BUDGET && status(t, p) == TxOk
  }

  /** Whether the `count` transmissions numbered from `from` on were all delivered. */
  ghost predicate AllDelivered(status: (nat, nat) -> TxStatus, from: nat, count: nat)
  {
    forall u :: from <= u < from + count ==> Delivered(status, u)
  }

  /** com_proto_tx_packet: one frame to the peripheral, then the bounded status poll. */
  method TxPacket(board: Board, id: bv32, data: seq<uint8>, len: nat) returns (ok: bool)
    requires len <= COM_PROTO_PKT_SIZE && len <= |data|
    modifies board`log, board`txCount
    ensures board.txCount == old(board.txCount) + 1
    ensures board.log == old(board.log) + [Sent(MakeFrame(id, data, len))]
    ensures ok == Delivered(board.txStatus, old(board.txCount))
  {
    var frame := MakeFrame(id, data, len);
    var mailbox := board.CanTransmit(frame);
    var status := board.txStatus;
    var poll := (p: nat) => status(mailbox, p);
    var polls;
    ok, polls := PollTxStatus(poll);
    if ok {
      ghost var p :| 0 <= p < TX_POLL_BUDGET && poll(p) == TxOk;
      assert status(mailbox, p) == TxOk;
    } else {
      forall p | 0 <= p < TX_POLL_BUDGET ensures status(mailbox, p) != TxOk {
        assert poll(p) != TxOk;
      }
    }
  }

  /** Number of transfer blocks tx_block iterates: len / 128 + 1. */
  function BlockCount(len: nat): nat
  {
    len / BLOCK_BYTES + 1
  }

  /**
   * Packets counted for the last block as com_proto.c:106-112 computes it:
   * the leftover test subtracts from the whole length, not from what is
   * left for the last block.
   */
  function LastBlockPacketsAsWritten(len: nat): (n: nat)
    ensures n * COM_PROTO_PKT_SIZE >= len % BLOCK_BYTES
    ensures (len % BLOCK_BYTES) / COM_PROTO_PKT_SIZE <= n <= (len % BLOCK_BYTES) / COM_PROTO_PKT_SIZE + 1
  {
    var pkts := (len % BLOCK_BYTES) / COM_PROTO_PKT_SIZE;
    if len - pkts * COM_PROTO_PKT_SIZE != 0 then pkts + 1 else pkts
  }

  /** Packets in the last block with the leftover taken from the last block's bytes. */
  function LastBlockPackets(len: nat): (n: nat)
    ensures n * COM_PROTO_PKT_SIZE >= len % BLOCK_BYTES
    ensures n > 0 ==> (n - 1) * COM_PROTO_PKT_SIZE < len % BLOCK_BYTES
  {
    var pkts := (len % BLOCK_BYTES) / COM_PROTO_PKT_SIZE;
    if len % BLOCK_BYTES - pkts * COM_PROTO_PKT_SIZE != 0 then pkts + 1 else pkts
  }

  /** Below one full block both computations agree: ceil(len / 8) packets. */
  lemma LastBlockAgreesBelowOneBlock(len: nat)
    requires len < BLOCK_BYTES
    ensures LastBlockPacketsAsWritten(len) == LastBlockPackets(len) == (len + 7) / 8
  {
  }

  /**
   * The source's count exceeds the corrected one by exactly one packet when
   * the length is at least one full block and a multiple of 8, and agrees
   * with it otherwise.
   */
  lemma LastBlockAsWrittenOvercounts(len: nat)
    ensures LastBlockPacketsAsWritten(len)
         == LastBlockPackets(len) + (if len >= BLOCK_BYTES && len % COM_PROTO_PKT_SIZE == 0 then 1 else 0)
  {
    var r := len % BLOCK_BYTES;
    var pkts := r / COM_PROTO_PKT_SIZE;
    assert len == BLOCK_BYTES * (len / BLOCK_BYTES) + r;
    assert r == COM_PROTO_PKT_SIZE * pkts + r % COM_PROTO_PKT_SIZE;
    assert r % COM_PROTO_PKT_SIZE == len % COM_PROTO_PKT_SIZE;
    if len >= BLOCK_BYTES {
      assert pkts * COM_PROTO_PKT_SIZE <= r < len;
    }
  }

  /** The concrete input 128: the last block counts one packet where none is left. */
  lemma LastBlockOvercountAt128()
    ensures LastBlockPacketsAsWritten(128) == 1 && LastBlockPackets(128) == 0
  {
  }

  /** Full blocks plus the last block count exactly ceil(len / 8) packets. */
  lemma PacketsCoverLength(len: nat)
    ensures COM_PROTO_BLK_SIZE * (BlockCount(len) - 1) + LastBlockPackets(len) == (len + 7) / 8
  {
    var q := len / BLOCK_BYTES;
    var r := len % BLOCK_BYTES;
    assert len == 128 * q + r;
    assert (len + 7) / 8 == 16 * q + (r + 7) / 8 by {
      assert len + 7 == 8 * (16 * q) + (r + 7);
    }
    var pkts := r / 8;
    assert r == 8 * pkts + r % 8;
  }

  /** The length announcement and the (zero) CRC frames tx_block sends per block. */
  const LEN_FRAME: Frame := MakeFrame(CMD_DATA_LEN, [], 0)
  const CRC_FRAME: Frame := MakeFrame(CMD_DATA_CRC, [0, 0, 0, 0], 4)

  /** What a run of tx_block produces: frames sent, result, bytes counted. */
  datatype BlockRun = BlockRun(events: seq<Event>, ok: bool, bytes: nat)

  /**
   * The remaining `blocks` iterations of tx_block, starting at transmission
   * number t with accumulated result `res`. The length frame is sent in
   * every block (`res &=` still calls the transmit); the packets are counted
   * and the CRC frame sent only while the result is still 1.
   */
  ghost function RunBlocks(status: (nat, nat) -> TxStatus, t: nat, len: nat, blocks: nat, res: bool): (r: BlockRun)
    ensures r.ok ==> res
    decreases blocks
  {
    if blocks == 0 then BlockRun([], res, 0)
    else
      var pkts := if blocks == 1 then LastBlockPackets(len) else COM_PROTO_BLK_SIZE;
      if res && Delivered(status, t) then
        var rest := RunBlocks(status, t + 2, len, blocks - 1, Delivered(status, t + 1));
        BlockRun([Sent(LEN_FRAME), Sent(CRC_FRAME)] + rest.events, rest.ok, COM_PROTO_PKT_SIZE * pkts + rest.bytes)
      else
        var rest := RunBlocks(status, t + 1, len, blocks - 1, false);
        BlockRun([Sent(LEN_FRAME)] + rest.events, rest.ok, rest.bytes)
  }

  /**
   * tx_block succeeds iff every frame it transmitted was delivered; then it
   * sent two frames per block and counted every packet of every block.
   */
  lemma {:induction false} RunBlocksOutcome(status: (nat, nat) -> TxStatus, t: nat, len: nat, blocks: nat, res: bool)
    ensures var run := RunBlocks(status, t, len, blocks, res);
      && blocks <= |run.events| <= 2 * blocks
      && (run.ok <==> res && AllDelivered(status, t, |run.events|))
      && (run.ok ==> |run.events| == 2 * blocks)
      && (run.ok && blocks > 0 ==>
            run.bytes == COM_PROTO_PKT_SIZE * (COM_PROTO_BLK_SIZE * (blocks - 1) + LastBlockPackets(len)))
    decreases blocks
  {
    if blocks > 0 {
      var run := RunBlocks(status, t, len, blocks, res);
      if res && Delivered(status, t) {
        var rest := RunBlocks(status, t + 2, len, blocks - 1, Delivered(status, t + 1));
        RunBlocksOutcome(status, t + 2, len, blocks - 1, Delivered(status, t + 1));
        assert |run.events| == |rest.events| + 2;
        assert AllDelivered(status, t, |run.events|) <==>
          Delivered(status, t + 1) && AllDelivered(status, t + 2, |rest.events|);
      } else {
        RunBlocksOutcome(status, t + 1, len, blocks - 1, false);
        if res {
          assert !Delivered(status, t);
        }
      }
    }
  }

  /**
   * A successful tx_block counts ceil(len / 8) packets of 8 bytes. The
   * counter as com_proto.c:106-112 computes it (LastBlockPacketsAsWritten
   * for the last block) ends 8 higher when len is at least 128 and a
   * multiple of 8, and equal otherwise.
   */
  lemma TxBlockBytesAgainstSource(status: (nat, nat) -> TxStatus, t: nat, len: nat)
    ensures var run := RunBlocks(status, t, len, BlockCount(len), true);
      run.ok ==>
        && run.bytes == COM_PROTO_PKT_SIZE * ((len + 7) / COM_PROTO_PKT_SIZE)
        && COM_PROTO_PKT_SIZE * (COM_PROTO_BLK_SIZE * (BlockCount(len) - 1) + LastBlockPacketsAsWritten(len))
           == run.bytes + (if len >= BLOCK_BYTES && len % COM_PROTO_PKT_SIZE == 0 then COM_PROTO_PKT_SIZE else 0)
  {
    RunBlocksOutcome(status, t, len, BlockCount(len), true);
    PacketsCoverLength(len);
    LastBlockAsWrittenOvercounts(len);
  }

  /** The per-packet loop of tx_block: adds 8 bytes to the counter for each of pkts packets. */
  method CountPackets(counted: nat, pkts: nat) returns (bytes: nat)
    ensures bytes == counted + COM_PROTO_PKT_SIZE * pkts
  {
    bytes := counted;
    var left: nat := pkts;
    while left > 0
      invariant left <= pkts
      invariant bytes == counted + COM_PROTO_PKT_SIZE * (pkts - left)
    {
      bytes := bytes + COM_PROTO_PKT_SIZE;
      left := left - 1;
    }
  }

  /**
   * One pass of tx_block's loop once the block's packet count is chosen:
   * the length frame is always sent; only while the result is still 1 are
   * the packets counted and the CRC frame sent.
   */
  method SendBlock(board: Board, res: bool, counted: nat, pkts: nat) returns (ok: bool, bytes: nat)
    modifies board`log, board`txCount
    ensures var t := old(board.txCount);
      if res && Delivered(board.txStatus, t) then
        && board.log == old(board.log) + [Sent(LEN_FRAME), Sent(CRC_FRAME)]
        && board.txCount == t + 2 && ok == Delivered(board.txStatus, t + 1)
        && bytes == counted + COM_PROTO_PKT_SIZE * pkts
      else
        && board.log == old(board.log) + [Sent(LEN_FRAME)]
        && board.txCount == t + 1 && !ok && bytes == counted
  {
    bytes := counted;
    var sent := TxPacket(board, CMD_DATA_LEN, [], 0);
    ok := res && sent;
    if ok {
      bytes := CountPackets(bytes, pkts);
      sent := TxPacket(board, CMD_DATA_CRC, [0, 0, 0, 0], 4);
      ok := ok && sent;
    }
  }

  /**
   * com_proto_tx_block. The source's per-packet transmissions and CRC are
   * commented out, so each block sends a length frame and, while every
   * transmission so far has succeeded, counts its packets and sends a CRC
   * frame. The last block's packet count uses LastBlockPackets.
   */
  method TxBlock(board: Board, len: nat) returns (ok: bool, bytesSent: nat)
    modifies board`log, board`txCount
    ensures var run := RunBlocks(board.txStatus, old(board.txCount), len, BlockCount(len), true);
      && board.log == old(board.log) + run.events
      && board.txCount == old(board.txCount) + |run.events|
      && ok == run.ok && bytesSent == run.bytes
  {
    var blks: nat := len / BLOCK_BYTES + 1;
    ok, bytesSent := true, 0;
    ghost var run0 := RunBlocks(board.txStatus, board.txCount, len, blks, true);
    while blks > 0
      invariant board.txCount >= old(board.txCount)
      invariant var rest := RunBlocks(board.txStatus, board.txCount, len, blks, ok);
        && old(board.log) + run0.events == board.log + rest.events
        && board.txCount - old(board.txCount) == |board.log| - |old(board.log)|
        && rest.ok == run0.ok
        && bytesSent + rest.bytes == run0.bytes
    {
      ghost var ok0 := ok;
      ghost var t0 := board.txCount;
      ghost var step := RunBlocks(board.txStatus, t0, len, blks, ok);
      blks := blks - 1;
      var pkts: nat := if blks == 0 then LastBlockPackets(len) else COM_PROTO_BLK_SIZE;
      ok, bytesSent := SendBlock(board, ok, bytesSent, pkts);
      assert ok0 && Delivered(board.txStatus, t0) ==> step.bytes == COM_PROTO_PKT_SIZE * pkts + RunBlocks(board.txStatus, t0 + 2, len, blks, ok).bytes;
    }
  }
}
