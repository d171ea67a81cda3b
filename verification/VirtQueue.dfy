/** The driver side of a split virtqueue. */
module VirtQueue {
  import opened Wrappers
  import opened Words
  import opened Descriptors
  import opened DescriptorPool
  import opened RingMemory
  import opened ShadowTable
  import opened Sharing

  /** From `log` to `log'` exactly the buffers and the table of the chain have been taken back, and no address of it is
      left in the descriptors. */
  ghost predicate TakenBack(c: Chain, inputs: seq<Buffer>, outputs: seq<Buffer>, log: Log, log': Log,
                            shadow: seq<Descriptor>, desc: seq<Descriptor>) {
    Shares(log', log, inputs, outputs, AddrsOf(c.parts), TableOf(c)) && Wiped(c, shadow, desc)
  }

  /** `pool` is the abstract state and `log` records the queue's HAL calls; everything else is what
      the source stores. Nothing in
      `Valid` depends on the contents of the shared memory beyond its size, because the device may
      overwrite it at any time. */
  class VirtQueue {
    const size: nat
    const indirect: bool
    const eventIdx: bool
    const mem: Shared
    var shadow: seq<Descriptor>
    var lists: seq<Option<seq<Descriptor>>>
    var numUsed: int
    var freeHead: nat
    var availIdx: nat
    var lastUsedIdx: nat
    ghost var pool: Pool
    ghost var log: Log

    ghost predicate Valid()
      reads this, mem
    {
      && Fits(mem.m, size)
      && pool.size == size && pool.indirect == indirect
      && Represents(pool, shadow, freeHead, numUsed, lists)
      && Balanced(log, pool)
      && availIdx < U16 && lastUsedIdx < U16
    }

    /** `VirtQueue::new` on newly allocated shared memory. */
    constructor (mem: Shared, size: nat, indirect: bool, eventIdx: bool)
      requires IsQueueSize(size) && Fits(mem.m, size)
      modifies mem
      ensures Valid()
      ensures this.mem == mem && this.size == size && this.indirect == indirect && this.eventIdx == eventIdx
      ensures pool == Fresh(size, indirect)
      ensures availIdx == 0 && lastUsedIdx == 0
      ensures mem.m == old(mem.m).(desc := mem.m.desc)
    {
      this.mem := mem;
      this.size := size;
      this.indirect := indirect;
      this.eventIdx := eventIdx;
      shadow := seq(size, _ => Descriptor(0, 0, Flags(false, false, false), 0));
      lists := seq(size, _ => None);
      numUsed, freeHead, availIdx, lastUsedIdx := 0, 0, 0, 0;
      pool := Fresh(size, indirect);
      log := Start;
      new;
      ghost var q := QueueSizeDivides(size);
      for i := 0 to size - 1
        modifies this`shadow, mem
        invariant |shadow| == size && Fits(mem.m, size)
        invariant mem.m == old(mem.m).(desc := mem.m.desc)
        invariant forall j :: 0 <= j < i ==> shadow[j].next == j + 1
      {
        shadow := shadow[i := shadow[i].(next := i + 1)];
        mem.m := mem.m.(desc := mem.m.desc[i := mem.m.desc[i].(next := i + 1)]);
      }
      FreshPartitioned(size, indirect);
      FreshBalanced(size, indirect);
      assert Linked(shadow, freeHead, pool.free);
    }

    /** `VirtQueue::new`, given what the transport says of the queue and whether the HAL has DMA memory for it. */
    static method New(queueUsed: bool, maxQueueSize: nat, dma: bool, size: nat, indirect: bool, eventIdx: bool)
      returns (r: Result<VirtQueue, Error>)
      requires IsQueueSize(size)
      ensures r == Err(AlreadyUsed) <==> queueUsed
      ensures r == Err(InvalidParam) <==> !queueUsed && maxQueueSize < size
      ensures r == Err(DmaError) <==> !queueUsed && maxQueueSize >= size && !dma
      ensures r.Err? ==> r.error in {AlreadyUsed, InvalidParam, DmaError}
      ensures r.Ok? ==>
                && fresh(r.value) && fresh(r.value.mem) && r.value.Valid()
                && r.value.size == size && r.value.indirect == indirect && r.value.eventIdx == eventIdx
                && r.value.pool == Fresh(size, indirect) && r.value.availIdx == r.value.lastUsedIdx == 0
                && r.value.mem.m.availIdx == r.value.mem.m.usedIdx == r.value.mem.m.availFlags == 0
    {
      if queueUsed {
        return Err(AlreadyUsed);
      }
      if maxQueueSize < size {
        return Err(InvalidParam);
      }
      if !dma {
        return Err(DmaError);
      }
      var mem := new Shared(size);
      var queue := new VirtQueue(mem, size, indirect, eventIdx);
      r := Ok(queue);
    }

    /** Returns whether the device has returned a chain that is not yet popped. */
    method CanPop() returns (r: bool)
      ensures r <==> lastUsedIdx != mem.m.usedIdx
    {
      r := lastUsedIdx != mem.m.usedIdx;
    }

    /** Returns the number of free descriptors. */
    method AvailableDesc() returns (n: int)
      requires Valid()
      ensures n == Available(pool)
      ensures forall k :: k > 0 ==> (k > n <==> Full(pool, k))
    {
      if indirect {
        n := if numUsed == size then 0 else size;
      } else {
        n := size - numUsed;
      }
      forall k | k > 0
        ensures k > n <==> Full(pool, k)
      {
        ChainsFit(pool);
        FullIffMoreThanAvailable(pool, k);
      }
    }

    /** Copies the descriptor at the given index to the shared table. */
    method WriteDesc(index: nat)
      requires index < |shadow| && index < |mem.m.desc|
      modifies mem
      ensures mem.m == old(mem.m).(desc := old(mem.m.desc)[index := shadow[index]])
    {
      mem.m := mem.m.(desc := mem.m.desc[index := shadow[index]]);
    }

    /** Fills the front of the free list with the given buffers and moves the list head past them. */
    method PlaceParts(parts: seq<Part>, ghost free: seq<nat>) returns (last: nat)
      requires 0 < |parts| <= |free| && NoDup(free) && Linked(shadow, freeHead, free)
      requires |shadow| == |mem.m.desc|
      modifies this`freeHead, this`log, this`shadow, mem
      ensures last == free[|parts| - 1]
      ensures |parts| < |free| ==> freeHead == free[|parts|]
      ensures Placed(old(shadow), shadow, free, parts, |parts|)
      ensures mem.m == old(mem.m).(desc := mem.m.desc)
      ensures Mirrors(old(mem.m.desc), mem.m.desc, shadow, free[..|parts|])
      ensures log == AfterSharing(old(log), parts, |parts|)
    {
      last := freeHead;
      for i := 0 to |parts|
        invariant i < |free| ==> freeHead == free[i]
        invariant i > 0 ==> last == free[i - 1]
        invariant Placed(old(shadow), shadow, free, parts, i)
        invariant mem.m == old(mem.m).(desc := mem.m.desc)
        invariant Mirrors(old(mem.m.desc), mem.m.desc, shadow, free[..i])
        invariant log == AfterSharing(old(log), parts, i)
      {
        assert LinkAt(old(shadow), free, i);
        PlaceOne(old(shadow), shadow, free, parts, i);
        MirrorOne(old(mem.m.desc), mem.m.desc, shadow, free, i, PlacePart(shadow[freeHead], parts[i]));
        shadow := shadow[freeHead := PlacePart(shadow[freeHead], parts[i])];
        log := Then(log, Shared(PartShare(parts[i])));
        last := freeHead;
        freeHead := shadow[freeHead].next;
        WriteDesc(last);
      }
    }

    method AddDirect(parts: seq<Part>, ghost c: Chain) returns (head: nat)
      requires Represents(pool, shadow, freeHead, numUsed, lists) && |mem.m.desc| == pool.size
      requires parts != [] && !Full(pool, |parts|) && !GoesIndirect(pool, |parts|)
      requires forall i :: 0 <= i < |parts| ==> BufferOk(parts[i].buffer)
      requires c == ChainFor(pool, parts, 0)
      modifies this`freeHead, this`numUsed, this`pool, this`log, this`shadow, mem
      ensures Represents(pool, shadow, freeHead, numUsed, lists) && pool == Take(old(pool), c)
      ensures head == old(pool).free[0]
      ensures log == AfterSharing(old(log), parts, |parts|)
      ensures mem.m == old(mem.m).(desc := mem.m.desc)
      ensures SameOutside(old(mem.m.desc), mem.m.desc, c.descs) && Encodes(mem.m.desc, c)
    {
      head := freeHead;
      NeededFits(pool, |parts|);
      var last := PlaceParts(parts, pool.free);
      DirectRepresents(pool, old(shadow), head, numUsed, lists, parts, shadow, freeHead, old(mem.m.desc), mem.m.desc);
      shadow := shadow[last := ClearNext(shadow[last])];
      WriteDesc(last);
      numUsed := numUsed + |parts|;
      pool := Take(pool, c);
    }

    /** Allocates and fills the table of an indirect chain. */
    method FillTable(parts: seq<Part>) returns (table: seq<Descriptor>)
      requires parts != []
      modifies this`log
      ensures table == IndirectTable(parts)
      ensures log == AfterSharing(old(log), parts, |parts|)
    {
      table := seq(|parts|, _ => Descriptor(0, 0, Flags(false, false, false), 0));
      for i := 0 to |parts|
        invariant |table| == |parts|
        invariant forall j :: 0 <= j < i ==> Holds(table[j], parts[j], true) && table[j].next == j + 1
        invariant log == AfterSharing(old(log), parts, i)
      {
        table := table[i := PlacePart(table[i], parts[i]).(next := i + 1)];
        log := Then(log, Shared(PartShare(parts[i])));
      }
      table := table[|table| - 1 := ClearNext(table[|table| - 1])];
      assert table == IndirectTable(parts);
    }

    method AddIndirect(parts: seq<Part>, listAddr: nat, ghost c: Chain) returns (head: nat)
      requires Represents(pool, shadow, freeHead, numUsed, lists) && |mem.m.desc| == pool.size
      requires parts != [] && !Full(pool, |parts|) && GoesIndirect(pool, |parts|)
      requires forall i :: 0 <= i < |parts| ==> BufferOk(parts[i].buffer)
      requires c == ChainFor(pool, parts, listAddr)
      modifies this`freeHead, this`numUsed, this`pool, this`log, this`shadow, this`lists, mem
      ensures Represents(pool, shadow, freeHead, numUsed, lists) && pool == Take(old(pool), c)
      ensures head == old(pool).free[0]
      ensures log == AfterAdd(old(log), c)
      ensures mem.m == old(mem.m).(desc := mem.m.desc)
      ensures SameOutside(old(mem.m.desc), mem.m.desc, c.descs) && Encodes(mem.m.desc, c)
    {
      head := freeHead;
      var table := FillTable(parts);
      IndirectRepresents(pool, shadow, head, numUsed, lists, parts, listAddr, mem.m.desc);
      assert lists[head].None?;
      lists := lists[head := Some(table)];
      freeHead := shadow[head].next;
      shadow := shadow[head := SetBuf(shadow[head], listAddr, DESCRIPTOR_SIZE * |table|, Flags(false, false, true))];
      log := Then(log, Shared(Share(listAddr, Table(table), DriverToDevice)));
      WriteDesc(head);
      numUsed := numUsed + 1;
      pool := Take(pool, c);
    }

    /** Writes the chain for a request that fits into the descriptor table. */
    method PlaceChain(inputs: seq<Buffer>, outputs: seq<Buffer>, addrs: seq<nat>, listAddr: nat, ghost c: Chain)
      returns (head: nat)
      requires Valid() && |addrs| == |inputs| + |outputs| && addrs != [] && !Full(pool, |addrs|)
      requires forall i :: 0 <= i < |addrs| ==> BufferOk(BufferAt(inputs, outputs, i).0)
      requires c == ChainFor(pool, Parts(inputs, outputs, addrs), listAddr)
      modifies this`freeHead, this`numUsed, this`pool, this`log, this`shadow, this`lists, mem
      ensures Valid()
      ensures 0 < |c.descs| <= |old(pool).free| && head == old(pool).free[0] && pool == Take(old(pool), c)
      ensures Shares(old(log), log, inputs, outputs, addrs, TableOf(c))
      ensures mem.m == old(mem.m).(desc := mem.m.desc)
      ensures SameOutside(old(mem.m.desc), mem.m.desc, c.descs) && Encodes(mem.m.desc, c)
    {
      var parts := Parts(inputs, outputs, addrs);
      AddShares(log, c, inputs, outputs, addrs);
      ChainForShape(pool, parts, listAddr);
      TakePartitioned(pool, c);
      AddBalanced(log, pool, c);
      if indirect && |parts| > 1 {
        head := AddIndirect(parts, listAddr, c);
      } else {
        head := AddDirect(parts, c);
      }
    }

    /** Adds buffers to the virtqueue and returns a token. `addrs` and `listAddr` are the bus
        addresses that the HAL returns for the buffers and for a table, should one be needed. */
    method Add(inputs: seq<Buffer>, outputs: seq<Buffer>, addrs: seq<nat>, listAddr: nat)
      returns (r: Result<nat, Error>)
      requires Valid()
      requires |addrs| == |inputs| + |outputs|
      requires forall i :: 0 <= i < |addrs| ==> BufferOk(BufferAt(inputs, outputs, i).0)
      modifies this, mem
      ensures Valid()
      ensures r.Err? ==> unchanged(this, mem)
      ensures r == Err(InvalidParam) <==> addrs == []
      ensures r == Err(QueueFull) <==> addrs != [] && Full(old(pool), |addrs|)
      ensures r.Err? ==> r.error in {InvalidParam, QueueFull}
      ensures r.Ok? ==>
                var c := ChainFor(old(pool), Parts(inputs, outputs, addrs), listAddr);
                && 0 < |c.descs| <= |old(pool).free|
                && r.value == old(pool).free[0]
                && pool == Take(old(pool), c)
                && Publishes(old(mem.m), mem.m, old(availIdx), c, r.value)
                && Shares(old(log), log, inputs, outputs, addrs, TableOf(c))
                && availIdx == (old(availIdx) + 1) % U16
                && lastUsedIdx == old(lastUsedIdx)
    {
      if inputs == [] && outputs == [] {
        return Err(InvalidParam);
      }
      var needed := |inputs| + |outputs|;
      if numUsed + 1 > size || needed > size || (!indirect && numUsed + needed > size) {
        return Err(QueueFull);
      }
      var head := PlaceChain(inputs, outputs, addrs, listAddr,
                             ChainFor(pool, Parts(inputs, outputs, addrs), listAddr));
      MaskedSlot(availIdx, size);
      mem.m := mem.m.(avail := mem.m.avail[BitAnd(availIdx, size - 1) := head]);
      availIdx := (availIdx + 1) % U16;
      mem.m := mem.m.(availIdx := availIdx);
      r := Ok(head);
    }

    // -------------------------------------------------------------------------------------

    /** Returns the token of the next used element without popping it. */
    method PeekUsed() returns (r: Option<nat>)
      requires Valid()
      ensures r == NextUsed()
    {
      var canPop := CanPop();
      if canPop {
        MaskedSlot(lastUsedIdx, size);
        r := Some(mem.m.used[BitAnd(lastUsedIdx, size - 1)].id % U16);
      } else {
        r := None;
      }
    }

    /** The token, cut to 16 bits, that the used ring holds in the next slot, if it holds one. */
    ghost function NextUsed(): (r: Option<nat>)
      requires Valid()
      reads this, mem
    {
      if lastUsedIdx == mem.m.usedIdx then None
      else
        MaskedSlot(lastUsedIdx, size);
        Some(mem.m.used[Slot(lastUsedIdx, size)].id % U16)
    }

    /** Walks a direct chain, unsharing its buffers and linking its end to `tail`. */
    method UnlinkParts(head: nat, inputs: seq<Buffer>, outputs: seq<Buffer>, tail: nat, ghost c: Chain)
      requires c.list.None? && c.descs != [] && c.descs[0] == head && NoDup(c.descs)
      requires Encodes(shadow, c) && |c.descs| == |c.parts| && SameBuffers(c.parts, inputs, outputs)
      requires |shadow| == |mem.m.desc|
      modifies this`numUsed, this`log, this`shadow, mem
      ensures numUsed == old(numUsed) - |c.descs|
      ensures Recycled(old(shadow), shadow, c.descs, tail, |c.descs|)
      ensures log == AfterUnsharing(old(log), c.parts, |c.parts|)
      ensures mem.m == old(mem.m).(desc := mem.m.desc)
      ensures SameOutside(old(mem.m.desc), mem.m.desc, c.descs) && Cleared(mem.m.desc, c.descs)
    {
      var next := Some(head);
      for i := 0 to |inputs| + |outputs|
        invariant next == if i < |c.descs| then Some(c.descs[i]) else None
        invariant numUsed == old(numUsed) - i
        invariant Recycled(old(shadow), shadow, c.descs, tail, i)
        invariant log == AfterUnsharing(old(log), c.parts, i)
        invariant mem.m == old(mem.m).(desc := mem.m.desc)
        invariant SameOutside(old(mem.m.desc), mem.m.desc, c.descs) && Cleared(mem.m.desc, c.descs[..i])
      {
        RecycleOne(old(shadow), shadow, c, tail, i);
        var (buffer, dir) := BufferAt(inputs, outputs, i);
        // "Descriptor chain was shorter than expected." is unreachable.
        assert next.Some?;
        var index := next.value;
        var addr := shadow[index].addr;
        numUsed := numUsed - 1;
        next := NextOf(shadow[index]);
        shadow := shadow[index := RecycleDesc(shadow[index], tail)];
        WriteDesc(index);
        log := Then(log, Unshared(Share(addr, Data(buffer), dir)));
      }
      // "Descriptor chain was longer than expected." is unreachable.
      assert next.None?;
      assert c.descs[..|c.descs|] == c.descs;
    }

    /** Unshares the buffers of a direct chain and moves its descriptors to the free list. */
    method RecycleDirect(head: nat, inputs: seq<Buffer>, outputs: seq<Buffer>)
      requires Represents(pool, shadow, freeHead, numUsed, lists) && |mem.m.desc| == pool.size
      requires head in pool.chains && pool.chains[head].list.None?
      requires SameBuffers(pool.chains[head].parts, inputs, outputs)
      modifies this`freeHead, this`numUsed, this`pool, this`log, this`shadow, mem
      ensures Represents(pool, shadow, freeHead, numUsed, lists) && pool == Give(old(pool), head)
      ensures log == AfterRecycle(old(log), old(pool).chains[head])
      ensures mem.m == old(mem.m).(desc := mem.m.desc)
      ensures var descs := old(pool).chains[head].descs;
              SameOutside(old(mem.m.desc), mem.m.desc, descs) && Cleared(mem.m.desc, descs) && Cleared(shadow, descs)
    {
      ghost var c := pool.chains[head];
      assert ChainShape(pool.size, head, c) && Encodes(shadow, c);
      var originalFreeHead := freeHead;
      freeHead := head;
      UnlinkParts(head, inputs, outputs, originalFreeHead, c);
      RecycleRepresents(pool, old(shadow), originalFreeHead, old(numUsed), lists, head, shadow);
      RecycledCleared(old(shadow), shadow, c.descs, originalFreeHead);
      pool := Give(pool, head);
    }

    /** Unshares the table and the buffers of an indirect chain and frees its one descriptor. */
    method RecycleIndirect(head: nat, inputs: seq<Buffer>, outputs: seq<Buffer>)
      requires Represents(pool, shadow, freeHead, numUsed, lists)
      requires head in pool.chains && pool.chains[head].list.Some?
      requires SameBuffers(pool.chains[head].parts, inputs, outputs)
      modifies this`freeHead, this`numUsed, this`pool, this`log, this`shadow, this`lists
      ensures Represents(pool, shadow, freeHead, numUsed, lists) && pool == Give(old(pool), head)
      ensures log == AfterRecycle(old(log), old(pool).chains[head]) && Cleared(shadow, old(pool).chains[head].descs)
    {
      ghost var c := pool.chains[head];
      RecycleIndirectRepresents(pool, shadow, freeHead, numUsed, lists, head);
      var originalFreeHead := freeHead;
      freeHead := head;
      // The `unwrap` of the stored table and the check of its length cannot fail.
      assert lists[head].Some? && |lists[head].value| == |inputs| + |outputs|;
      var table := lists[head].value;
      lists := lists[head := None];
      var addr := shadow[head].addr;
      numUsed := numUsed - 1;
      shadow := shadow[head := UnsetBuf(shadow[head]).(next := originalFreeHead)];
      pool := Give(pool, head);
      log := Then(log, Unshared(Share(addr, Table(table), DriverToDevice)));
      ghost var log1 := log;
      for i := 0 to |inputs| + |outputs|
        modifies this`log
        invariant log == AfterUnsharing(log1, c.parts, i)
      {
        var (buffer, dir) := BufferAt(inputs, outputs, i);
        log := Then(log, Unshared(Share(table[i].addr, Data(buffer), dir)));
      }
    }

    /** Unshares the buffers of the chain that starts at `head` and frees its descriptors. */
    method RecycleDescriptors(head: nat, inputs: seq<Buffer>, outputs: seq<Buffer>)
      requires Valid() && head in pool.chains && SameBuffers(pool.chains[head].parts, inputs, outputs)
      modifies this`freeHead, this`numUsed, this`pool, this`log, this`shadow, this`lists, mem
      ensures Valid() && pool == Give(old(pool), head)
      ensures TakenBack(old(pool).chains[head], inputs, outputs, old(log), log, shadow, mem.m.desc)
      ensures mem.m == old(mem.m).(desc := mem.m.desc)
      ensures SameOutside(old(mem.m.desc), mem.m.desc, old(pool).chains[head].descs)
    {
      RecycleBalanced(log, pool, head);
      RecycleUnshares(log, pool, head, inputs, outputs);
      IndirectFlag(pool, shadow, freeHead, numUsed, lists, head);
      if shadow[head].flags.indirect {
        RecycleIndirect(head, inputs, outputs);
      } else {
        RecycleDirect(head, inputs, outputs);
      }
    }

    /** If the given token is next on the used ring, pops it and returns the length that the device
        reports as written. */
    method PopUsed(token: nat, inputs: seq<Buffer>, outputs: seq<Buffer>) returns (r: Result<nat, Error>)
      requires Valid()
      requires token in pool.chains && SameBuffers(pool.chains[token].parts, inputs, outputs)
      modifies this, mem
      ensures Valid()
      ensures r == Err(NotReady) <==> old(NextUsed()).None?
      ensures r == Err(WrongToken) <==> old(NextUsed()).Some? && old(NextUsed()) != Some(token)
      ensures r.Err? ==> r.error in {NotReady, WrongToken} && unchanged(this, mem)
      ensures r.Ok? ==>
                && r.value == old(UsedLen())
                && pool == Give(old(pool), token)
                && TakenBack(old(pool).chains[token], inputs, outputs, old(log), log, shadow, mem.m.desc)
                && lastUsedIdx == (old(lastUsedIdx) + 1) % U16
                && availIdx == old(availIdx)
                && Reclaims(old(mem.m), mem.m, old(pool).chains[token],
                            if eventIdx then lastUsedIdx else old(mem.m.usedEvent))
    {
      var canPop := CanPop();
      if !canPop {
        return Err(NotReady);
      }
      MaskedSlot(lastUsedIdx, size);
      var elem := mem.m.used[BitAnd(lastUsedIdx, size - 1)];
      if elem.id % U16 != token {
        return Err(WrongToken);
      }
      RecycleDescriptors(token, inputs, outputs);
      lastUsedIdx := (lastUsedIdx + 1) % U16;
      if eventIdx {
        mem.m := mem.m.(usedEvent := lastUsedIdx);
      }
      r := Ok(elem.len);
    }

    /** The length that the used ring holds in the next slot. */
    ghost function UsedLen(): (n: nat)
      requires Valid()
      reads this, mem
    {
      MaskedSlot(lastUsedIdx, size);
      mem.m.used[Slot(lastUsedIdx, size)].len
    }

    /** Returns whether the driver should notify the device after adding a buffer. */
    method ShouldNotify() returns (r: bool)
      ensures r == NeedsNotify(eventIdx, availIdx, mem.m.availEvent, mem.m.usedFlags)
    {
      if eventIdx {
        r := availIdx >= (mem.m.availEvent + 1) % U16;
      } else {
        r := mem.m.usedFlags % 2 == 0;
      }
    }

    /** Advises the device whether used buffer notifications are needed. */
    method SetDevNotify(enable: bool)
      requires Valid()
      modifies mem
      ensures Valid()
      ensures mem.m == old(mem.m).(availFlags := if eventIdx then old(mem.m.availFlags) else if enable then 0 else 1)
    {
      if !eventIdx {
        mem.m := mem.m.(availFlags := if enable then 0 else 1);
      }
    }
  }

  /** The descriptor of buffer `i` of a chain: in the shadow table, or in the table of the chain. */
  function DescriptorOf(c: Chain, shadow: seq<Descriptor>, list: Option<seq<Descriptor>>, i: nat): (d: Descriptor)
    requires c.list.None? ==> i < |c.descs| && c.descs[i] < |shadow|
    requires c.list.Some? ==> list.Some? && i < |list.value|
  {
    if c.list.None? then shadow[c.descs[i]] else list.value[i]
  }

  /** What a descriptor lets the device do is what its buffer is shared for: at every moment each buffer in flight is
      shared, at the address in its descriptor, for the device to write if the descriptor says so and to read
      otherwise; and so is the table of an indirect chain, for the device to read. */
  lemma SharedAsPublished(q: VirtQueue, head: nat, i: nat)
    requires q.Valid() && head in q.pool.chains && i < |q.pool.chains[head].parts|
    ensures head < |q.shadow| && head < |q.lists|
    ensures var c := q.pool.chains[head];
            && (c.list.None? ==> i < |c.descs| && c.descs[i] < |q.shadow|)
            && (c.list.Some? ==> q.lists[head].Some? && i < |q.lists[head].value|)
            && var d := DescriptorOf(c, q.shadow, q.lists[head], i);
            var dir := if d.flags.write then DeviceToDriver else DriverToDevice;
            Open(q.log, Share(d.addr, Data(c.parts[i].buffer), dir)) > 0
    ensures q.lists[head].Some? ==>
              Open(q.log, Share(q.shadow[head].addr, Table(q.lists[head].value), DriverToDevice)) > 0
  {
    var c := q.pool.chains[head];
    assert ChainShape(q.pool.size, head, c) && Encodes(q.shadow, c);
    if c.list.None? {
      assert EncodesAt(q.shadow, c.descs, c.parts, i);
    }
    CountedIff(c.parts, |c.parts|, PartShare(c.parts[i]));
    InFlightOpen(q.log, q.pool, head, PartShare(c.parts[i]));
    if c.list.Some? {
      InFlightOpen(q.log, q.pool, head, ListShare(c.list.value, c.parts));
    }
  }

  /** The element that `peek_used` and `pop_used` look at is in the slot of the index modulo the queue's size, and its
      token is cut to 16 bits. */
  lemma NextUsedExact(q: VirtQueue)
    requires q.Valid()
    ensures 0 < q.size == |q.mem.m.used|
    ensures var elem := q.mem.m.used[q.lastUsedIdx % q.size];
            && q.NextUsed() == (if q.lastUsedIdx == q.mem.m.usedIdx then None else Some(elem.id % 65536))
            && q.UsedLen() == elem.len
  {
    MaskedSlot(q.lastUsedIdx, q.size);
    SlotIsMod(q.lastUsedIdx, q.size);
  }
}
