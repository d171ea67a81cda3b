/** Requests with one buffer for the device to write, as receive queues use them. */
module SingleBuffer {
  import opened Wrappers
  import opened Words
  import opened Descriptors
  import opened DescriptorPool
  import opened VirtQueue

  /** The chain of one descriptor that lends out `b`. */
  function LendChain(d: nat, b: Buffer, addr: nat): (c: Chain) {
    Chain([d], [Part(b, DeviceToDriver, addr)], None)
  }

  /** Token `i` is in flight as a chain of its own that lends out `b`. */
  ghost predicate Lends(p: Pool, i: nat, b: Buffer) {
    i in p.chains && |p.chains[i].parts| == 1 && p.chains[i] == LendChain(i, b, p.chains[i].parts[0].addr)
  }

  /** The first free descriptor lends out `b`. */
  function Lent(p: Pool, b: Buffer, addr: nat): (p': Pool)
    requires p.free != []
  {
    p.(free := p.free[1..], chains := p.chains[p.free[0] := LendChain(p.free[0], b, addr)])
  }

  /** Descriptor `i` is back at the front of the free list. */
  function Returned(p: Pool, i: nat): (p': Pool) {
    p.(free := [i] + p.free, chains := p.chains - {i})
  }

  /** Publishes one writable buffer. */
  method Lend(queue: VirtQueue, b: Buffer, addr: nat) returns (r: Result<nat, Error>)
    requires queue.Valid() && BufferOk(b)
    modifies queue, queue.mem
    ensures queue.Valid()
    ensures r.Err? <==> old(queue.pool).free == []
    ensures r.Err? ==> r == Err(QueueFull) && unchanged(queue, queue.mem)
    ensures r.Ok? ==> r.value == old(queue.pool).free[0] && queue.pool == Lent(old(queue.pool), b, addr)
    ensures queue.lastUsedIdx == old(queue.lastUsedIdx)
    ensures queue.mem.m.usedIdx == old(queue.mem.m).usedIdx && queue.mem.m.used == old(queue.mem.m).used
  {
    ghost var parts := Parts([], [b], [addr]);
    assert parts == [Part(b, DeviceToDriver, addr)] by {
      assert parts[0] == PartAt([], [b], [addr], 0);
    }
    LendFits(queue.pool, b, addr);
    r := queue.Add([], [b], [addr], 0);
  }

  lemma LendFits(p: Pool, b: Buffer, addr: nat)
    requires Partitioned(p)
    ensures Full(p, 1) <==> p.free == []
    ensures p.free != [] ==>
              var c := ChainFor(p, [Part(b, DeviceToDriver, addr)], 0);
              c.descs == [p.free[0]] && c == LendChain(p.free[0], b, addr) && Take(p, c) == Lent(p, b, addr)
  {
    FullIffNone(p);
  }

  lemma FullIffNone(p: Pool)
    requires Partitioned(p)
    ensures Full(p, 1) <==> p.free == []
  {
    var m := QueueSizeDivides(p.size);
    RoomBeside(p.free, {}, p.size);
  }

  /** Pops the buffer that was lent out under `token`, if it is next on the used ring. */
  method TakeBack(queue: VirtQueue, token: nat, b: Buffer) returns (r: Result<nat, Error>)
    requires queue.Valid() && Lends(queue.pool, token, b)
    modifies queue, queue.mem
    ensures queue.Valid()
    ensures r.Ok? <==> old(queue.NextUsed()) == Some(token)
    ensures r.Err? ==> unchanged(queue, queue.mem)
    ensures r.Ok? ==> r.value == old(queue.UsedLen()) && queue.pool == Returned(old(queue.pool), token)
  {
    assert SameBuffers(queue.pool.chains[token].parts, [], [b]);
    r := queue.PopUsed(token, [], [b]);
  }

  /** A buffer lent out right after another one came back gets the same token. */
  lemma SameTokenAgain(p: Pool, i: nat, b: Buffer, addr: nat)
    requires Lends(p, i, b)
    ensures Lent(Returned(p, i), b, addr) == p.(chains := p.chains[i := LendChain(i, b, addr)])
  {
    var q := Returned(p, i);
    assert q.free[1..] == p.free;
    assert q.chains[i := LendChain(i, b, addr)] == p.chains[i := LendChain(i, b, addr)];
  }
}
