/** The receive side of the network driver: which buffer each token stands for. */
module NetReceive {
  import opened Wrappers
  import opened Words
  import opened Descriptors
  import opened DescriptorPool
  import opened VirtQueue
  import opened SingleBuffer

  const MIN_BUFFER_LEN: nat := 1526

  /** The header is two bytes shorter without `num_buffers`. */
  function HeaderSize(legacy: bool): (n: nat) {
    if legacy then 10 else 12
  }

  /** `buf_len / size_of::<usize>()` machine words. */
  function WholeWords(bufLen: nat): (n: nat) {
    bufLen / 8 * 8
  }

  /** A receive buffer: its memory, the token it was last lent out under, and its packet length. */
  datatype RxBuffer = RxBuffer(memory: Buffer, idx: nat, packetLen: nat)

  /** Slot `t` holds a buffer exactly when token `t` is in flight, and then it holds the buffer that
      was lent out under `t`. */
  ghost predicate SlotOk(p: Pool, slot: Option<RxBuffer>, t: nat) {
    && (slot.Some? <==> t in p.chains)
    && (slot.Some? ==> slot.value.idx == t && Lends(p, t, slot.value.memory))
  }

  ghost predicate SlotsOk(p: Pool, slots: seq<Option<RxBuffer>>) {
    && (forall t :: t in p.chains ==> t < |slots|)
    && (forall t :: 0 <= t < |slots| ==> SlotOk(p, slots[t], t))
  }

  lemma SlotsReturned(p: Pool, slots: seq<Option<RxBuffer>>, t: nat)
    requires SlotsOk(p, slots) && t < |slots|
    ensures SlotsOk(Returned(p, t), slots[t := None])
  {
    var p', slots' := Returned(p, t), slots[t := None];
    forall i | 0 <= i < |slots'|
      ensures SlotOk(p', slots'[i], i)
    {
      assert SlotOk(p, slots[i], i);
    }
  }

  lemma SlotsLent(p: Pool, slots: seq<Option<RxBuffer>>, b: RxBuffer, addr: nat)
    requires SlotsOk(p, slots) && p.free != [] && p.free[0] == b.idx < |slots|
    ensures SlotsOk(Lent(p, b.memory, addr), slots[b.idx := Some(b)])
  {
    var p', slots' := Lent(p, b.memory, addr), slots[b.idx := Some(b)];
    forall i | 0 <= i < |slots'|
      ensures SlotOk(p', slots'[i], i)
    {
      assert SlotOk(p, slots[i], i);
    }
  }

  /** The first `i` buffers are lent out, each under its own number. */
  ghost predicate LentFirst(p: Pool, slots: seq<Option<RxBuffer>>, i: nat) {
    && |slots| == p.size && i + |p.free| == p.size && SlotsOk(p, slots)
    && (forall j :: 0 <= j < |p.free| ==> p.free[j] == i + j)
  }

  lemma LendNext(p: Pool, slots: seq<Option<RxBuffer>>, i: nat, b: RxBuffer, addr: nat)
    requires LentFirst(p, slots, i) && i < p.size && b.idx == i
    ensures p.free[0] == i && LentFirst(Lent(p, b.memory, addr), slots[i := Some(b)], i + 1)
  {
    SlotsLent(p, slots, b, addr);
  }

  class NetReceive {
    const queue: VirtQueue
    const legacyHeader: bool
    const rxBuffers: array<Option<RxBuffer>>

    ghost predicate Valid()
      reads this, rxBuffers, queue, queue.mem
    {
      && queue.Valid() && rxBuffers.Length == queue.size
      && SlotsOk(queue.pool, rxBuffers[..])
    }

    constructor (queue: VirtQueue, legacyHeader: bool, rxBuffers: array<Option<RxBuffer>>)
      ensures this.queue == queue && this.legacyHeader == legacyHeader && this.rxBuffers == rxBuffers
    {
      this.queue := queue;
      this.legacyHeader := legacyHeader;
      this.rxBuffers := rxBuffers;
    }

    /** Lends out one buffer for each descriptor; the length asked for is cut to whole machine words.
        `addrs` are the bus addresses the HAL returns. */
    static method New(queue: VirtQueue, legacyHeader: bool, bufLen: nat, addrs: seq<nat>)
      returns (r: Result<NetReceive, Error>)
      requires queue.Valid() && queue.pool == Fresh(queue.size, queue.indirect)
      requires bufLen < U32 && |addrs| == queue.size
      modifies queue, queue.mem
      ensures r.Err? <==> bufLen / 8 * 8 < 1526
      ensures r.Err? ==> r == Err(InvalidParam)
      ensures r.Ok? ==>
                && fresh(r.value) && fresh(r.value.rxBuffers)
                && r.value.queue == queue && r.value.legacyHeader == legacyHeader
                && r.value.Valid() && queue.pool.free == []
    {
      var slots := new Option<RxBuffer>[queue.size](_ => None);
      for i := 0 to queue.size
        invariant queue.Valid() && slots.Length == queue.size
        invariant i > 0 ==> WholeWords(bufLen) >= MIN_BUFFER_LEN
        invariant LentFirst(queue.pool, slots[..], i)
      {
        var rxBuf := RxBuffer(Buffer(i, seq(WholeWords(bufLen), _ => 0)), i, 0);
        if |rxBuf.memory.bytes| < MIN_BUFFER_LEN {
          return Err(InvalidParam);
        }
        LendNext(queue.pool, slots[..], i, rxBuf, addrs[i]);
        var token := Lend(queue, rxBuf.memory, addrs[i]);
        assert token == Ok(i);
        ghost var before := slots[..];
        slots[i] := Some(rxBuf);
        assert slots[..] == before[i := Some(rxBuf)];
      }
      var net := new NetReceive(queue, legacyHeader, slots);
      r := Ok(net);
    }

    /** Takes back the next buffer the device has filled. A token beyond the table stops the program.
        `WrongToken` is answered exactly when the device names a token that is not in flight. */
    method Receive() returns (r: Result<RxBuffer, Error>)
      requires Valid()
      modifies rxBuffers, queue, queue.mem
      ensures old(queue.NextUsed()).None? ==> r == Err(NotReady)
      ensures r == Err(Panicked) <==> old(queue.NextUsed()).Some? && old(queue.NextUsed()).value >= rxBuffers.Length
      ensures r == Err(WrongToken) <==>
                && old(queue.NextUsed()).Some? && old(queue.NextUsed()).value < rxBuffers.Length
                && old(queue.NextUsed()).value !in old(queue.pool).chains
      ensures Valid()
      ensures r.Err? && r.error in {NotReady, Panicked, WrongToken} ==> queue.pool == old(queue.pool)
      ensures old(queue.NextUsed()).Some? && old(queue.NextUsed()).value in old(queue.pool).chains ==>
                var t := old(queue.NextUsed()).value;
                // Flags, GSO type, header length, GSO size, checksum start and offset, and the number of buffers.
                && var header := if legacyHeader then 1 + 1 + 2 + 2 + 2 + 2 else 1 + 1 + 2 + 2 + 2 + 2 + 2;
                && queue.pool == Returned(old(queue.pool), t)
                && (old(queue.UsedLen()) < header ==> r == Err(IoError))
                && (old(queue.UsedLen()) >= header ==>
                      r == Ok(old(rxBuffers[t]).value.(packetLen := old(queue.UsedLen()) - header)))
    {
      var polled := queue.PeekUsed();
      if polled.None? {
        return Err(NotReady);
      }
      var token := polled.value;
      if token >= rxBuffers.Length {
        return Err(Panicked);
      }
      assert SlotOk(queue.pool, rxBuffers[..][token], token);
      SlotsReturned(queue.pool, rxBuffers[..], token);
      var taken := rxBuffers[token];
      rxBuffers[token] := None;
      assert rxBuffers[..] == old(rxBuffers[..])[token := None];
      if taken.None? {
        assert rxBuffers[..] == old(rxBuffers[..]);
        return Err(WrongToken);
      }
      var rxBuf := taken.value;
      // The second `WrongToken` branch, `token != rx_buf.idx`, is unreachable.
      assert token == rxBuf.idx;
      var len := TakeBack(queue, token, rxBuf.memory);
      assert len.Ok?;
      if len.value < HeaderSize(legacyHeader) {
        return Err(IoError);
      }
      return Ok(rxBuf.(packetLen := len.value - HeaderSize(legacyHeader)));
    }

    /** Lends a buffer out again, under whatever token is free. */
    method Recycle(rxBuf: RxBuffer, addr: nat) returns (r: Result<(), Error>)
      requires Valid() && |rxBuf.memory.bytes| < U32
      modifies rxBuffers, queue, queue.mem
      ensures Valid()
      ensures r == Err(InvalidParam) <==> |rxBuf.memory.bytes| < 1526
      ensures r == Err(QueueFull) <==> |rxBuf.memory.bytes| >= 1526 && old(queue.pool).free == []
      ensures r.Err? ==> r.error in {InvalidParam, QueueFull} && queue.pool == old(queue.pool)
      ensures r.Ok? ==>
                && old(queue.pool).free != []
                && var t := old(queue.pool).free[0];
                && t < rxBuffers.Length && rxBuffers[t] == Some(rxBuf.(idx := t))
                && queue.pool == Lent(old(queue.pool), rxBuf.memory, addr)
    {
      if |rxBuf.memory.bytes| < MIN_BUFFER_LEN {
        return Err(InvalidParam);
      }
      if queue.pool.free != [] {
        FreeHead(queue.pool);
      }
      var token := Lend(queue, rxBuf.memory, addr);
      if token.Err? {
        return Err(token.error);
      }
      // The slot of a token that was free holds nothing.
      assert SlotOk(old(queue.pool), rxBuffers[..][token.value], token.value);
      assert rxBuffers[token.value].None?;
      SlotsLent(old(queue.pool), rxBuffers[..], rxBuf.(idx := token.value), addr);
      rxBuffers[token.value] := Some(rxBuf.(idx := token.value));
      assert rxBuffers[..] == old(rxBuffers[..])[token.value := Some(rxBuf.(idx := token.value))];
      return Ok(());
    }
  }
}
