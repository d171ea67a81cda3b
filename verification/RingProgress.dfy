/** The two-party protocol never gets stuck: a chain that waits can be taken, one that is held can be
    returned, and one that is posted can be popped. */
module RingProgress {
  import opened Wrappers
  import opened Words
  import opened Descriptors
  import opened DescriptorPool
  import opened RingMemory
  import opened DeviceVirtQueue
  import opened RingProtocol
  import opened RingSafety

  /** The state after the driver has published a request. */
  ghost function Added(s: System, pool: Pool, mem: Memory, ram: Ram, head: nat): (s': System) {
    s.(pool := pool, drvAvail := (s.drvAvail + 1) % U16, mem := mem, ram := ram,
       available := s.available + 1, waiting := s.waiting + [head], place := s.place[head := Waiting(s.available)])
  }

  /** The state after the device has taken a chain. */
  ghost function AfterFetch(s: System): (s': System) {
    s.(devAvail := (s.devAvail + 1) % U16, held := s.held[FetchHead(s) := FetchResult(s)], taken := s.taken + 1,
       waiting := if s.waiting == [] then [] else s.waiting[1..], place := s.place[FetchHead(s) := Held])
  }

  /** The state after the device has returned a chain. */
  ghost function Given(s: System, mem: Memory, ram: Ram, head: nat, bytes: seq<byte>): (s': System) {
    s.(mem := mem, ram := ram, devUsed := (s.devUsed + 1) % U16, held := s.held - {head}, used := s.used + 1,
       posted := s.posted + [UsedElem(head, |bytes|)], results := s.results + [bytes],
       place := s.place[head := Posted(s.used)])
  }

  /** The state after the driver has popped a chain. */
  ghost function Dropped(s: System, pool: Pool, mem: Memory, token: nat): (s': System) {
    s.(pool := pool, mem := mem, drvUsed := (s.drvUsed + 1) % U16, popped := s.popped + 1,
       posted := if s.posted == [] then [] else s.posted[1..],
       results := if s.results == [] then [] else s.results[1..],
       place := s.place - {token})
  }

  // ---------------------------------------------------------------------------------------

  lemma AddIsStep(s: System, inputs: seq<Buffer>, outputs: seq<Buffer>, addrs: seq<nat>, listAddr: nat, mem: Memory,
                  ram: Ram)
    requires AddOk(s, inputs, outputs, addrs)
    requires var c := ChainFor(s.pool, Parts(inputs, outputs, addrs), listAddr);
             && 0 < |c.descs| <= |s.pool.free|
             && AddrsDiffer(c) && (forall h, a :: UsedBy(s.pool.chains, h, a) ==> !Uses(c, a))
             && Publishes(s.mem, mem, s.drvAvail, c, s.pool.free[0]) && SharedIn(s.ram, ram, c)
    ensures var c := ChainFor(s.pool, Parts(inputs, outputs, addrs), listAddr);
            AddStep(s, Added(s, Take(s.pool, c), mem, ram, s.pool.free[0]), inputs, outputs, addrs, listAddr)
  {
  }

  lemma FetchIsStep(s: System)
    requires s.devAvail != s.mem.availIdx && FetchResult(s).Buffers?
    ensures FetchStep(s, AfterFetch(s))
  {
  }

  /** The device may return the chain with these bytes written. */
  ghost predicate CanReturn(s: System, head: nat, bytes: seq<byte>) {
    && head in s.held && s.held[head].Buffers? && |bytes| < U32
    && (if s.held[head].writable == [] then bytes == [] else |bytes| <= s.held[head].writable[0].len)
  }

  ghost function Written(s: System, head: nat, bytes: seq<byte>): (ram: Ram)
    requires CanReturn(s, head, bytes)
  {
    if s.held[head].writable == [] then s.ram else WriteSegment(s.ram, s.held[head].writable[0], bytes)
  }

  lemma ReturnIsStep(s: System, head: nat, bytes: seq<byte>, mem: Memory)
    requires CanReturn(s, head, bytes) && Returns(s.mem, mem, s.devUsed, UsedElem(head, |bytes|))
    ensures ReturnStep(s, Given(s, mem, Written(s, head, bytes), head, bytes), head, bytes)
  {
  }

  lemma PopIsStep(s: System, mem: Memory)
    requires s.drvUsed != s.mem.usedIdx && PopElem(s).id % U16 in s.pool.chains
    requires Reclaims(s.mem, mem, s.pool.chains[PopElem(s).id % U16], mem.usedEvent)
    ensures PopStep(s, Dropped(s, Give(s.pool, PopElem(s).id % U16), mem, PopElem(s).id % U16))
  {
  }

  lemma WaitingIff(s: System)
    requires Inv(s)
    ensures s.devAvail != s.mem.availIdx <==> s.waiting != []
    ensures s.drvUsed != s.mem.usedIdx <==> s.posted != []
  {
    FetchExact(s);
    PopExact(s);
  }

  lemma FetchEnabled(s: System)
    requires Inv(s) && s.waiting != []
    ensures FetchStep(s, AfterFetch(s))
  {
    WaitingIff(s);
    FetchSees(s);
    FetchIsStep(s);
  }

  lemma PopEnabled(s: System) returns (s': System)
    requires Inv(s) && s.posted != []
    ensures PopStep(s, s')
  {
    WaitingIff(s);
    PopSees(s);
    PopIsStep(s, s.mem);
    s' := Dropped(s, Give(s.pool, s.posted[0].id), s.mem, s.posted[0].id);
  }

  /** With the bytes that fit, every chain the device holds can be returned. */
  lemma ReturnEnabled(s: System, head: nat, bytes: seq<byte>) returns (s': System)
    requires Inv(s) && CanReturn(s, head, bytes)
    ensures ReturnStep(s, s', head, bytes)
  {
    var mem := s.mem.(used := s.mem.used[Slot(s.devUsed, |s.mem.used|) := UsedElem(head, |bytes|)],
                      usedIdx := (s.devUsed + 1) % U16);
    ReturnIsStep(s, head, bytes, mem);
    s' := Given(s, mem, Written(s, head, bytes), head, bytes);
  }

  // ---------------------------------------------------------------------------------------
  // Publishing

  function IndexIn(s: seq<nat>, x: nat): (r: Option<nat>)
    ensures r.Some? ==> r.value < |s| && s[r.value] == x
    ensures r.None? ==> x !in s
  {
    if s == [] then None
    else if s[|s| - 1] == x then Some(|s| - 1)
    else IndexIn(s[..|s| - 1], x)
  }

  /** The shared table with the descriptors of `c` written to it. */
  ghost function Encoded(table: seq<Descriptor>, c: Chain): (t: seq<Descriptor>)
    requires c.list.None? ==> |c.descs| == |c.parts|
    ensures |t| == |table|
  {
    seq(|table|, d requires 0 <= d < |table| =>
      match IndexIn(c.descs, d)
      case None => table[d]
      case Some(i) =>
        if c.list.Some? then Descriptor(c.list.value, DESCRIPTOR_SIZE * |c.parts|, Flags(false, false, true), 0)
        else Descriptor(c.parts[i].addr, |c.parts[i].buffer.bytes|,
                        Flags(i + 1 < |c.descs|, c.parts[i].dir == DeviceToDriver, false),
                        if i + 1 < |c.descs| then c.descs[i + 1] else 0))
  }

  lemma EncodedOk(table: seq<Descriptor>, c: Chain)
    requires NoDup(c.descs) && (forall i :: 0 <= i < |c.descs| ==> c.descs[i] < |table|)
    requires if c.list.Some? then |c.descs| == 1 else |c.descs| == |c.parts|
    ensures Encodes(Encoded(table, c), c) && SameOutside(table, Encoded(table, c), c.descs)
  {
    forall i | 0 <= i < |c.descs|
      ensures IndexIn(c.descs, c.descs[i]) == Some(i)
    {
      var found := IndexIn(c.descs, c.descs[i]);
      assert c.descs[found.value] == c.descs[i];
    }
    if c.list.None? {
      forall i | 0 <= i < |c.descs|
        ensures EncodesAt(Encoded(table, c), c.descs, c.parts, i)
      {
      }
    }
  }

  ghost function AddrsOf(parts: seq<Part>): (s: seq<nat>)
    ensures |s| == |parts| && forall i :: 0 <= i < |s| ==> s[i] == parts[i].addr
  {
    seq(|parts|, i requires 0 <= i < |parts| => parts[i].addr)
  }

  /** Bus memory with the buffers and the table of `c` in it. */
  ghost function WithBuffers(ram: Ram, c: Chain): (r: Ram) {
    map a | a in ram.Keys + (set x | x in AddrsOf(c.parts)) + (if c.list.Some? then {c.list.value} else {}) ::
      if c.list == Some(a) then Entries(IndirectTable(c.parts))
      else match IndexIn(AddrsOf(c.parts), a)
           case Some(i) => Bytes(c.parts[i].buffer.bytes)
           case None => ram[a]
  }

  lemma WithBuffersOk(ram: Ram, c: Chain)
    requires AddrsDiffer(c)
    ensures SharedIn(ram, WithBuffers(ram, c), c)
  {
    var addrs := AddrsOf(c.parts);
    forall i | 0 <= i < |c.parts|
      ensures CellHolds(WithBuffers(ram, c), c.parts[i])
    {
      assert addrs[i] in addrs;
      var found := IndexIn(addrs, addrs[i]);
      assert c.parts[found.value].addr == c.parts[i].addr;
    }
    forall a | !Uses(c, a)
      ensures SameCell(ram, WithBuffers(ram, c), a)
    {
      assert a !in addrs;
    }
  }

  /** With room in the queue and fresh addresses, every request can be published. */
  lemma AddEnabled(s: System, inputs: seq<Buffer>, outputs: seq<Buffer>, addrs: seq<nat>, listAddr: nat)
    returns (s': System)
    requires Inv(s) && AddOk(s, inputs, outputs, addrs)
    requires var c := ChainFor(s.pool, Parts(inputs, outputs, addrs), listAddr);
             AddrsDiffer(c) && forall h, a :: UsedBy(s.pool.chains, h, a) ==> !Uses(c, a)
    ensures AddStep(s, s', inputs, outputs, addrs, listAddr)
  {
    var parts := Parts(inputs, outputs, addrs);
    var c := ChainFor(s.pool, parts, listAddr);
    NeededFits(s.pool, |parts|);
    FreeShape(s.pool, c);
    EncodedOk(s.mem.desc, c);
    WithBuffersOk(s.ram, c);
    var mem := s.mem.(desc := Encoded(s.mem.desc, c), availIdx := (s.drvAvail + 1) % U16,
                      avail := s.mem.avail[Slot(s.drvAvail, |s.mem.avail|) := s.pool.free[0]]);
    AddIsStep(s, inputs, outputs, addrs, listAddr, mem, WithBuffers(s.ram, c));
    s' := Added(s, Take(s.pool, c), mem, WithBuffers(s.ram, c), s.pool.free[0]);
  }

  lemma FreeShape(p: Pool, c: Chain)
    requires Partitioned(p) && |c.descs| <= |p.free| && c.descs == p.free[..|c.descs|]
    ensures NoDup(c.descs) && forall i :: 0 <= i < |c.descs| ==> c.descs[i] < p.size
  {
  }

  // ---------------------------------------------------------------------------------------
  // Fresh addresses

  /** An address above all those of the first `n` buffers. */
  ghost function PartsBound(parts: seq<Part>, n: nat): (b: nat)
    requires n <= |parts|
    ensures forall i :: 0 <= i < n ==> parts[i].addr < b
  {
    if n == 0 then 0
    else
      var rest := PartsBound(parts, n - 1);
      if parts[n - 1].addr < rest then rest else parts[n - 1].addr + 1
  }

  ghost function ChainBound(c: Chain): (b: nat)
    ensures forall a: nat :: Uses(c, a) ==> a < b
  {
    var b := PartsBound(c.parts, |c.parts|);
    if c.list.Some? && c.list.value >= b then c.list.value + 1 else b
  }

  /** An address above all those that the chains with heads below `n` use. */
  ghost function AddrBound(chains: map<nat, Chain>, n: nat): (b: nat)
    ensures forall h: nat, a: nat :: h < n && UsedBy(chains, h, a) ==> a < b
  {
    if n == 0 then 0
    else
      var rest := AddrBound(chains, n - 1);
      if n - 1 in chains && ChainBound(chains[n - 1]) > rest then ChainBound(chains[n - 1]) else rest
  }

  /** Addresses from the bound on are fresh for a request. */
  lemma FreshChain(p: Pool, inputs: seq<Buffer>, outputs: seq<Buffer>, bound: nat, addrs: seq<nat>, listAddr: nat)
    requires |addrs| == |inputs| + |outputs| > 0 && !Full(p, |addrs|)
    requires (forall i :: 0 <= i < |addrs| ==> addrs[i] == bound + i) && listAddr == bound + |addrs|
    ensures var c := ChainFor(p, Parts(inputs, outputs, addrs), listAddr);
            AddrsDiffer(c) && forall a: nat :: Uses(c, a) ==> a >= bound
  {
  }

  lemma BoundHolds(p: Pool)
    requires Partitioned(p)
    ensures forall h: nat, a: nat :: UsedBy(p.chains, h, a) ==> a < AddrBound(p.chains, p.size)
  {
    forall h: nat, a: nat | UsedBy(p.chains, h, a)
      ensures a < AddrBound(p.chains, p.size)
    {
      HeadInRange(p, h);
    }
  }

  /** There are always addresses with which a request for which there is room can be published. */
  lemma FreshAdd(s: System, inputs: seq<Buffer>, outputs: seq<Buffer>)
    returns (addrs: seq<nat>, listAddr: nat, s': System)
    requires Inv(s) && |inputs| + |outputs| > 0 && !Full(s.pool, |inputs| + |outputs|)
    requires forall i :: 0 <= i < |inputs| + |outputs| ==> BufferOk(BufferAt(inputs, outputs, i).0)
    ensures |addrs| == |inputs| + |outputs| && AddStep(s, s', inputs, outputs, addrs, listAddr)
  {
    var n := |inputs| + |outputs|;
    var bound := AddrBound(s.pool.chains, s.pool.size);
    addrs, listAddr := seq(n, i requires 0 <= i => bound + i), bound + n;
    FreshChain(s.pool, inputs, outputs, bound, addrs, listAddr);
    BoundHolds(s.pool);
    s' := AddEnabled(s, inputs, outputs, addrs, listAddr);
  }
}
