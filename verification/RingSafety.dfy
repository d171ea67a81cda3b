/** Every step of driver and device keeps the invariant of the queue. */
module RingSafety {
  import opened Wrappers
  import opened Words
  import opened Descriptors
  import opened DescriptorPool
  import opened RingMemory
  import opened ChainWalk
  import opened DeviceVirtQueue
  import opened RingProtocol

  // ---------------------------------------------------------------------------------------
  // One ring

  /** Writing the slot of the next count overwrites no live element while the ring is not full. */
  lemma RingAppend<T>(ring: seq<T>, lo: nat, live: seq<T>, x: T)
    requires RingHolds(ring, lo, live) && |live| < |ring|
    ensures RingHolds(ring[Slot(lo + |live|, |ring|) := x], lo, live + [x])
  {
    var ring', live' := ring[Slot(lo + |live|, |ring|) := x], live + [x];
    forall i | 0 <= i < |live'|
      ensures SlotHolds(ring', lo, live', i)
    {
      if i < |live| {
        assert SlotHolds(ring, lo, live, i);
        SlotsDiffer(lo + i, lo + |live|, |ring|);
      }
    }
  }

  /** The slot of the lowest count holds the oldest element, and the rest stay live. */
  lemma RingAdvance<T>(ring: seq<T>, lo: nat, live: seq<T>)
    requires RingHolds(ring, lo, live) && live != []
    ensures ring[Slot(lo, |ring|)] == live[0] && RingHolds(ring, lo + 1, live[1..])
  {
    assert SlotHolds(ring, lo, live, 0);
    var lo', live' := lo + 1, live[1..];
    forall i | 0 <= i < |live'|
      ensures SlotHolds(ring, lo', live', i)
    {
      assert SlotHolds(ring, lo, live, i + 1);
      assert lo + (i + 1) == lo + 1 + i;
    }
  }

  // ---------------------------------------------------------------------------------------
  // Places

  lemma PlaceAdded(place: map<nat, Place>, taken: nat, waiting: seq<nat>, held: map<nat, Walked>,
                   popped: nat, posted: seq<UsedElem>, h: nat)
    requires Places(place, taken, waiting, held, popped, posted) && h !in place
    ensures Places(place[h := Waiting(taken + |waiting|)], taken, waiting + [h], held, popped, posted)
  {
    var place' := place[h := Waiting(taken + |waiting|)];
    var waiting' := waiting + [h];
    forall g | g in place'
      ensures PlaceOk(place', taken, waiting', held, popped, posted, g)
    {
      assert g in place ==> PlaceOk(place, taken, waiting, held, popped, posted, g);
    }
    forall i | 0 <= i < |waiting'|
      ensures WaitingAt(place', taken, waiting', i)
    {
      assert i < |waiting| ==> WaitingAt(place, taken, waiting, i);
    }
    forall i | 0 <= i < |posted|
      ensures PostedAt(place', popped, posted, i)
    {
      assert PostedAt(place, popped, posted, i);
    }
  }

  lemma PlaceFetched(place: map<nat, Place>, taken: nat, waiting: seq<nat>, held: map<nat, Walked>,
                     popped: nat, posted: seq<UsedElem>, w: Walked)
    requires Places(place, taken, waiting, held, popped, posted) && waiting != []
    ensures waiting[0] in place && waiting[0] !in held
    ensures Places(place[waiting[0] := Held], taken + 1, waiting[1..], held[waiting[0] := w], popped, posted)
  {
    var h := waiting[0];
    assert WaitingAt(place, taken, waiting, 0);
    var place', taken', waiting' := place[h := Held], taken + 1, waiting[1..];
    forall g | g in place'
      ensures PlaceOk(place', taken', waiting', held[h := w], popped, posted, g)
    {
      assert PlaceOk(place, taken, waiting, held, popped, posted, g);
    }
    forall i | 0 <= i < |waiting'|
      ensures WaitingAt(place', taken', waiting', i)
    {
      assert WaitingAt(place, taken, waiting, i + 1);
    }
    forall i | 0 <= i < |posted|
      ensures PostedAt(place', popped, posted, i)
    {
      assert PostedAt(place, popped, posted, i);
    }
  }

  lemma PlaceReturned(place: map<nat, Place>, taken: nat, waiting: seq<nat>, held: map<nat, Walked>,
                      popped: nat, posted: seq<UsedElem>, e: UsedElem)
    requires Places(place, taken, waiting, held, popped, posted) && e.id in held
    ensures e.id in place
    ensures Places(place[e.id := Posted(popped + |posted|)], taken, waiting, held - {e.id}, popped, posted + [e])
  {
    var place', posted' := place[e.id := Posted(popped + |posted|)], posted + [e];
    forall g | g in place'
      ensures PlaceOk(place', taken, waiting, held - {e.id}, popped, posted', g)
    {
      assert PlaceOk(place, taken, waiting, held, popped, posted, g);
    }
    forall i | 0 <= i < |waiting|
      ensures WaitingAt(place', taken, waiting, i)
    {
      assert WaitingAt(place, taken, waiting, i);
    }
    forall i | 0 <= i < |posted'|
      ensures PostedAt(place', popped, posted', i)
    {
      assert i < |posted| ==> PostedAt(place, popped, posted, i);
    }
  }

  lemma PlacePopped(place: map<nat, Place>, taken: nat, waiting: seq<nat>, held: map<nat, Walked>,
                    popped: nat, posted: seq<UsedElem>)
    requires Places(place, taken, waiting, held, popped, posted) && posted != []
    ensures posted[0].id in place
    ensures Places(place - {posted[0].id}, taken, waiting, held, popped + 1, posted[1..])
  {
    assert PostedAt(place, popped, posted, 0);
    var place', popped', posted' := place - {posted[0].id}, popped + 1, posted[1..];
    forall g | g in place'
      ensures PlaceOk(place', taken, waiting, held, popped', posted', g)
    {
      assert PlaceOk(place, taken, waiting, held, popped, posted, g);
    }
    forall i | 0 <= i < |waiting|
      ensures WaitingAt(place', taken, waiting, i)
    {
      assert WaitingAt(place, taken, waiting, i);
    }
    forall i | 0 <= i < |posted'|
      ensures PostedAt(place', popped', posted', i)
    {
      assert PostedAt(place, popped, posted, i + 1);
    }
  }

  // ---------------------------------------------------------------------------------------
  // Memory

  lemma {:induction false} OrderedReadCount(parts: seq<Part>, n: nat)
    requires Ordered(parts, n)
    ensures ReadCount(parts) == n
    decreases |parts|
  {
    if parts != [] && parts[0].dir == DriverToDevice {
      assert Ordered(parts[1..], n - 1);
      OrderedReadCount(parts[1..], n - 1);
    }
  }

  lemma RamHoldsFrame(ram: Ram, ram': Ram, c: Chain)
    requires RamHolds(ram, c) && forall a :: Uses(c, a) ==> SameCell(ram, ram', a)
    ensures RamHolds(ram', c)
  {
    forall i | 0 <= i < |c.parts|
      ensures CellHolds(ram', c.parts[i])
    {
      assert CellHolds(ram, c.parts[i]);
      assert Uses(c, c.parts[i].addr);
    }
    if c.list.Some? {
      assert Uses(c, c.list.value);
    }
  }

  lemma FirstWrittenFrame(ram: Ram, ram': Ram, c: Chain, len: nat)
    requires forall a :: Uses(c, a) ==> SameCell(ram, ram', a)
    ensures FirstWritten(ram', c, len) == FirstWritten(ram, c, len)
  {
    var n := ReadCount(c.parts);
    if n < |c.parts| {
      assert Uses(c, c.parts[n].addr);
    }
  }

  /** A newly published chain leaves the others intact: it lies on free descriptors and on
      addresses that no other chain uses. */
  lemma MemoryAdded(p: Pool, c: Chain, desc: seq<Descriptor>, desc': seq<Descriptor>, ram: Ram, ram': Ram)
    requires Partitioned(p) && 0 < |c.descs| <= |p.free| && c.descs == p.free[..|c.descs|] && p.free[0] !in p.chains
    requires Memories(p.chains, desc, ram)
    requires SameOutside(desc, desc', c.descs) && Encodes(desc', c)
    requires AddrsDiffer(c) && Ordered(c.parts, ReadCount(c.parts))
    requires forall h, a :: UsedBy(p.chains, h, a) ==> !Uses(c, a)
    requires SharedIn(ram, ram', c)
    ensures Memories(p.chains[p.free[0] := c], desc', ram')
  {
    var chains := p.chains[p.free[0] := c];
    forall h | h in chains
      ensures Intact(chains[h], desc', ram')
    {
      if h != p.free[0] {
        assert Intact(p.chains[h], desc, ram);
        forall i | 0 <= i < |p.chains[h].descs|
          ensures p.chains[h].descs[i] !in c.descs
        {
          assert Owns(p, h, p.chains[h].descs[i]);
        }
        EncodesOutside(desc, desc', c.descs, p.chains[h]);
        forall a | Uses(p.chains[h], a)
          ensures SameCell(ram, ram', a)
        {
          assert UsedBy(p.chains, h, a);
        }
        RamHoldsFrame(ram, ram', p.chains[h]);
      }
    }
    forall h, h', a | UsedBy(chains, h, a) && UsedBy(chains, h', a)
      ensures h == h'
    {
      assert h != p.free[0] ==> UsedBy(p.chains, h, a);
      assert h' != p.free[0] ==> UsedBy(p.chains, h', a);
    }
  }

  /** Recycling a chain leaves the others intact. */
  lemma MemoryPopped(p: Pool, head: nat, desc: seq<Descriptor>, desc': seq<Descriptor>, ram: Ram)
    requires Partitioned(p) && head in p.chains && Memories(p.chains, desc, ram)
    requires SameOutside(desc, desc', p.chains[head].descs)
    ensures Memories(p.chains - {head}, desc', ram)
  {
    var chains := p.chains - {head};
    forall h | h in chains
      ensures Intact(chains[h], desc', ram)
    {
      assert Intact(p.chains[h], desc, ram);
      forall i | 0 <= i < |p.chains[h].descs|
        ensures p.chains[h].descs[i] !in p.chains[head].descs
      {
        assert Owns(p, h, p.chains[h].descs[i]);
        assert p.chains[h].descs[i] in p.chains[head].descs ==> Owns(p, head, p.chains[h].descs[i]);
      }
      EncodesOutside(desc, desc', p.chains[head].descs, p.chains[h]);
    }
    forall h, h', a | UsedBy(chains, h, a) && UsedBy(chains, h', a)
      ensures h == h'
    {
      assert UsedBy(p.chains, h, a) && UsedBy(p.chains, h', a);
    }
  }

  /** The device's write goes to the first writable buffer of the chain and to nothing else. */
  lemma WriteHits(c: Chain, ram: Ram, bytes: seq<byte>)
    requires RamHolds(ram, c) && AddrsDiffer(c) && Ordered(c.parts, ReadCount(c.parts))
    requires SeenBy(c.parts, ReadCount(c.parts)).writable != []
    requires |bytes| <= SeenBy(c.parts, ReadCount(c.parts)).writable[0].len
    ensures var n := ReadCount(c.parts);
            && n < |c.parts|
            && var seg := SeenBy(c.parts, n).writable[0];
            && seg == SegmentOf(c.parts[n]) && Uses(c, seg.addr)
            && RamHolds(WriteSegment(ram, seg, bytes), c)
            && FirstWritten(WriteSegment(ram, seg, bytes), c, |bytes|) == bytes
  {
    var n := ReadCount(c.parts);
    var seg := SeenBy(c.parts, n).writable[0];
    var ram' := WriteSegment(ram, seg, bytes);
    assert CellHolds(ram, c.parts[n]);
    assert ram[seg.addr].bytes[..seg.len] == ram[seg.addr].bytes;
    forall i | 0 <= i < |c.parts|
      ensures CellHolds(ram', c.parts[i])
    {
      assert CellHolds(ram, c.parts[i]);
      if i < n {
        assert c.parts[i].addr != c.parts[n].addr;
      } else if i > n {
        assert c.parts[n].addr != c.parts[i].addr;
      }
    }
  }

  lemma MemoryWritten(chains: map<nat, Chain>, head: nat, desc: seq<Descriptor>, ram: Ram, bytes: seq<byte>)
    requires Memories(chains, desc, ram) && head in chains
    requires var w := SeenBy(chains[head].parts, ReadCount(chains[head].parts)).writable;
             w != [] && |bytes| <= w[0].len
    ensures var seg := SeenBy(chains[head].parts, ReadCount(chains[head].parts)).writable[0];
            var ram' := WriteSegment(ram, seg, bytes);
            && Memories(chains, desc, ram')
            && FirstWritten(ram', chains[head], |bytes|) == bytes
            && forall h, a :: h != head && UsedBy(chains, h, a) ==> SameCell(ram, ram', a)
  {
    var c := chains[head];
    assert Intact(c, desc, ram);
    WriteHits(c, ram, bytes);
    var seg := SeenBy(c.parts, ReadCount(c.parts)).writable[0];
    var ram' := WriteSegment(ram, seg, bytes);
    assert UsedBy(chains, head, seg.addr);
    forall h, a | h != head && UsedBy(chains, h, a)
      ensures SameCell(ram, ram', a)
    {
      assert a != seg.addr;
    }
    forall h | h in chains
      ensures Intact(chains[h], desc, ram')
    {
      assert Intact(chains[h], desc, ram);
      if h != head {
        forall a | Uses(chains[h], a)
          ensures SameCell(ram, ram', a)
        {
          assert UsedBy(chains, h, a);
        }
        RamHoldsFrame(ram, ram', chains[h]);
      }
    }
  }

  // ---------------------------------------------------------------------------------------
  // Results

  /** Results survive every change of memory that leaves their chains' cells alone. */
  lemma ResultsFrame(chains: map<nat, Chain>, chains': map<nat, Chain>, ram: Ram, ram': Ram,
                     posted: seq<UsedElem>, results: seq<seq<byte>>)
    requires ResultsOk(chains, ram, posted, results)
    requires forall i :: 0 <= i < |posted| ==>
               && posted[i].id in chains && posted[i].id in chains'
               && chains'[posted[i].id] == chains[posted[i].id]
               && forall a :: UsedBy(chains, posted[i].id, a) ==> SameCell(ram, ram', a)
    ensures ResultsOk(chains', ram', posted, results)
  {
    forall i | 0 <= i < |posted|
      ensures ResultAt(chains', ram', posted, results, i)
    {
      assert ResultAt(chains, ram, posted, results, i);
      var h := posted[i].id;
      forall a | Uses(chains[h], a)
        ensures SameCell(ram, ram', a)
      {
        assert UsedBy(chains, h, a);
      }
      FirstWrittenFrame(ram, ram', chains[h], posted[i].len);
    }
  }

  lemma ResultsAppend(chains: map<nat, Chain>, ram: Ram, posted: seq<UsedElem>, results: seq<seq<byte>>,
                      e: UsedElem, bytes: seq<byte>)
    requires ResultsOk(chains, ram, posted, results)
    requires e.id in chains && e.len == |bytes| && FirstWritten(ram, chains[e.id], |bytes|) == bytes
    ensures ResultsOk(chains, ram, posted + [e], results + [bytes])
  {
    var posted', results' := posted + [e], results + [bytes];
    forall i | 0 <= i < |posted'|
      ensures ResultAt(chains, ram, posted', results', i)
    {
      assert i < |posted| ==> ResultAt(chains, ram, posted, results, i);
    }
  }

  lemma ResultsAdvance(chains: map<nat, Chain>, ram: Ram, posted: seq<UsedElem>, results: seq<seq<byte>>)
    requires ResultsOk(chains, ram, posted, results) && posted != []
    ensures ResultAt(chains, ram, posted, results, 0)
    ensures ResultsOk(chains, ram, posted[1..], results[1..])
  {
    var posted', results' := posted[1..], results[1..];
    forall i | 0 <= i < |posted'|
      ensures ResultAt(chains, ram, posted', results', i)
    {
      assert ResultAt(chains, ram, posted, results, i + 1);
    }
  }

  // ---------------------------------------------------------------------------------------
  // Counts

  /** The counts of the two rings never cross, and never drift more than one lap apart. */
  lemma CountOrder(s: System)
    requires Partitioned(s.pool) && Counts(s)
    ensures s.popped <= s.used <= s.taken <= s.available <= s.popped + s.pool.size
    ensures 0 < s.pool.size <= 32768
    ensures s.pool.free != [] ==> s.available < s.popped + s.pool.size
  {
    ChainsFit(s.pool);
    var m := QueueSizeDivides(s.pool.size);
  }

  /** The device's emptiness test is exact, and the head it reads is the oldest one waiting. */
  lemma FetchExact(s: System)
    requires Partitioned(s.pool) && Counts(s) && Indices(s) && Fits(s.mem, s.pool.size)
    requires RingHolds(s.mem.avail, s.taken, s.waiting)
    ensures s.devAvail != s.mem.availIdx <==> s.waiting != []
    ensures s.waiting != [] ==> FetchHead(s) == s.waiting[0]
  {
    CountOrder(s);
    WrappedEqual(s.taken, s.available);
    if s.waiting != [] {
      SlotOfCount(s.taken, s.pool.size);
      RingAdvance(s.mem.avail, s.taken, s.waiting);
    }
  }

  /** The driver's emptiness test is exact, and the element it reads is the oldest one posted. */
  lemma PopExact(s: System)
    requires Partitioned(s.pool) && Counts(s) && Indices(s) && Fits(s.mem, s.pool.size)
    requires RingHolds(s.mem.used, s.popped, s.posted)
    ensures s.drvUsed != s.mem.usedIdx <==> s.posted != []
    ensures s.posted != [] ==> PopElem(s) == s.posted[0]
  {
    CountOrder(s);
    WrappedEqual(s.popped, s.used);
    if s.posted != [] {
      SlotOfCount(s.popped, s.pool.size);
      RingAdvance(s.mem.used, s.popped, s.posted);
    }
  }

  // ---------------------------------------------------------------------------------------
  // Add

  lemma AddChain(s: System, s': System, inputs: seq<Buffer>, outputs: seq<Buffer>, addrs: seq<nat>, listAddr: nat)
    returns (c: Chain)
    requires Partitioned(s.pool) && AddStep(s, s', inputs, outputs, addrs, listAddr)
    ensures c == ChainFor(s.pool, Parts(inputs, outputs, addrs), listAddr)
    ensures 0 < |c.descs| <= |s.pool.free| && c.descs == s.pool.free[..|c.descs|]
    ensures s.pool.free[0] !in s.pool.chains
    ensures Partitioned(s'.pool) && s'.pool.chains == s.pool.chains[s.pool.free[0] := c]
    ensures Ordered(c.parts, ReadCount(c.parts)) && ReadCount(c.parts) == |inputs|
  {
    var parts := Parts(inputs, outputs, addrs);
    c := ChainFor(s.pool, parts, listAddr);
    ChainForShape(s.pool, parts, listAddr);
    TakePartitioned(s.pool, c);
    SeenInputsOutputs(inputs, outputs, addrs);
    OrderedReadCount(parts, |inputs|);
  }

  lemma AddCounts(s: System, s': System, inputs: seq<Buffer>, outputs: seq<Buffer>, addrs: seq<nat>, listAddr: nat)
    requires Partitioned(s.pool) && Counts(s) && Indices(s) && AddStep(s, s', inputs, outputs, addrs, listAddr)
    ensures Counts(s') && Indices(s')
  {
    var c := AddChain(s, s', inputs, outputs, addrs, listAddr);
    assert s.pool.free[0] < s.pool.size;
    CountInsert(s.pool.chains, s.pool.size, s.pool.free[0], c);
    WrappedNext(s.available);
  }

  lemma AddPlaces(s: System, s': System, inputs: seq<Buffer>, outputs: seq<Buffer>, addrs: seq<nat>, listAddr: nat)
    requires Partitioned(s.pool) && s.available == s.taken + |s.waiting|
    requires AddStep(s, s', inputs, outputs, addrs, listAddr)
    requires SameKeys(s.place, s.pool.chains)
    requires Places(s.place, s.taken, s.waiting, s.held, s.popped, s.posted)
    ensures SameKeys(s'.place, s'.pool.chains)
    ensures Places(s'.place, s'.taken, s'.waiting, s'.held, s'.popped, s'.posted)
  {
    var c := AddChain(s, s', inputs, outputs, addrs, listAddr);
    PlaceAdded(s.place, s.taken, s.waiting, s.held, s.popped, s.posted, s.pool.free[0]);
  }

  lemma AddRings(s: System, s': System, inputs: seq<Buffer>, outputs: seq<Buffer>, addrs: seq<nat>, listAddr: nat)
    requires Partitioned(s.pool) && Counts(s) && Indices(s) && AddStep(s, s', inputs, outputs, addrs, listAddr)
    requires Fits(s.mem, s.pool.size) && RingHolds(s.mem.avail, s.taken, s.waiting)
    ensures Fits(s'.mem, s'.pool.size) && RingHolds(s'.mem.avail, s'.taken, s'.waiting)
    ensures s'.mem.used == s.mem.used
  {
    CountOrder(s);
    SlotOfCount(s.available, s.pool.size);
    RingAppend(s.mem.avail, s.taken, s.waiting, s.pool.free[0]);
  }

  lemma AddMemories(s: System, s': System, inputs: seq<Buffer>, outputs: seq<Buffer>, addrs: seq<nat>, listAddr: nat)
    requires Partitioned(s.pool) && AddStep(s, s', inputs, outputs, addrs, listAddr)
    requires Memories(s.pool.chains, s.mem.desc, s.ram)
    ensures Memories(s'.pool.chains, s'.mem.desc, s'.ram)
  {
    var c := AddChain(s, s', inputs, outputs, addrs, listAddr);
    MemoryAdded(s.pool, c, s.mem.desc, s'.mem.desc, s.ram, s'.ram);
  }

  lemma AddResults(chains: map<nat, Chain>, head: nat, c: Chain, ram: Ram, ram': Ram,
                   held: map<nat, Walked>, posted: seq<UsedElem>, results: seq<seq<byte>>)
    requires head !in chains && SharedIn(ram, ram', c)
    requires forall h, a :: UsedBy(chains, h, a) ==> !Uses(c, a)
    requires HeldOk(chains, held) && ResultsOk(chains, ram, posted, results)
    ensures HeldOk(chains[head := c], held) && ResultsOk(chains[head := c], ram', posted, results)
  {
    forall i | 0 <= i < |posted|
      ensures posted[i].id in chains
    {
      assert ResultAt(chains, ram, posted, results, i);
    }
    ResultsFrame(chains, chains[head := c], ram, ram', posted, results);
  }

  lemma AddKeeps(s: System, s': System, inputs: seq<Buffer>, outputs: seq<Buffer>, addrs: seq<nat>, listAddr: nat)
    requires Inv(s) && AddStep(s, s', inputs, outputs, addrs, listAddr)
    ensures Inv(s')
  {
    var c := AddChain(s, s', inputs, outputs, addrs, listAddr);
    AddCounts(s, s', inputs, outputs, addrs, listAddr);
    AddRings(s, s', inputs, outputs, addrs, listAddr);
    AddPlaces(s, s', inputs, outputs, addrs, listAddr);
    AddMemories(s, s', inputs, outputs, addrs, listAddr);
    AddResults(s.pool.chains, s.pool.free[0], c, s.ram, s'.ram, s.held, s.posted, s.results);
  }

  // ---------------------------------------------------------------------------------------
  // Fetch

  /** What the device decodes is what the driver published under the oldest waiting head. */
  lemma FetchSees(s: System)
    requires Inv(s) && s.devAvail != s.mem.availIdx
    ensures s.waiting != [] && FetchHead(s) == s.waiting[0] && s.waiting[0] in s.pool.chains
    ensures var parts := s.pool.chains[s.waiting[0]].parts;
            FetchResult(s) == SeenBy(parts, ReadCount(parts))
  {
    FetchExact(s);
    var h := s.waiting[0];
    assert WaitingAt(s.place, s.taken, s.waiting, 0);
    var c := s.pool.chains[h];
    assert Intact(c, s.mem.desc, s.ram);
    assert ChainShape(s.pool.size, h, c);
    DecodeChain(s.mem.desc, TablesIn(s.ram), s.pool.size, h, c, ReadCount(c.parts));
  }

  lemma FetchCounts(s: System, s': System)
    requires Counts(s) && Indices(s) && FetchStep(s, s') && s.waiting != []
    requires FetchHead(s) !in s.held && FetchHead(s) < s.pool.size
    ensures Counts(s') && Indices(s')
  {
    CountInsert(s.held, s.pool.size, FetchHead(s), FetchResult(s));
    WrappedNext(s.taken);
  }

  lemma FetchPlaces(s: System, s': System)
    requires FetchStep(s, s') && s.waiting != [] && FetchHead(s) == s.waiting[0]
    requires SameKeys(s.place, s.pool.chains)
    requires Places(s.place, s.taken, s.waiting, s.held, s.popped, s.posted)
    ensures s.waiting[0] in s.pool.chains && s.waiting[0] !in s.held
    ensures SameKeys(s'.place, s'.pool.chains)
    ensures Places(s'.place, s'.taken, s'.waiting, s'.held, s'.popped, s'.posted)
  {
    PlaceFetched(s.place, s.taken, s.waiting, s.held, s.popped, s.posted, FetchResult(s));
  }

  lemma FetchHeld(chains: map<nat, Chain>, held: map<nat, Walked>, h: nat)
    requires HeldOk(chains, held) && h in chains
    ensures HeldOk(chains, held[h := SeenBy(chains[h].parts, ReadCount(chains[h].parts))])
  {
  }

  lemma FetchRings(s: System, s': System)
    requires FetchStep(s, s') && s.waiting != []
    requires Fits(s.mem, s.pool.size) && RingHolds(s.mem.avail, s.taken, s.waiting)
    ensures Fits(s'.mem, s'.pool.size) && RingHolds(s'.mem.avail, s'.taken, s'.waiting)
  {
    RingAdvance(s.mem.avail, s.taken, s.waiting);
  }

  lemma FetchKeeps(s: System, s': System)
    requires Inv(s) && FetchStep(s, s')
    ensures Inv(s')
  {
    FetchSees(s);
    HeadInRange(s.pool, s.waiting[0]);
    FetchPlaces(s, s');
    FetchCounts(s, s');
    FetchRings(s, s');
    FetchHeld(s.pool.chains, s.held, s.waiting[0]);
  }

  // ---------------------------------------------------------------------------------------
  // Return

  lemma ReturnCounts(s: System, s': System, head: nat, bytes: seq<byte>)
    requires Partitioned(s.pool) && Counts(s) && Indices(s) && ReturnStep(s, s', head, bytes) && head < s.pool.size
    requires Fits(s.mem, s.pool.size) && RingHolds(s.mem.used, s.popped, s.posted)
    ensures Counts(s') && Indices(s') && Fits(s'.mem, s'.pool.size)
    ensures RingHolds(s'.mem.used, s'.popped, s'.posted) && s'.mem.avail == s.mem.avail && s'.mem.desc == s.mem.desc
  {
    CountOrder(s);
    CountRemove(s.held, s.pool.size, head);
    WrappedNext(s.used);
    SlotOfCount(s.used, s.pool.size);
    RingAppend(s.mem.used, s.popped, s.posted, UsedElem(head, |bytes|));
  }

  lemma ReturnMemories(s: System, s': System, head: nat, bytes: seq<byte>)
    requires ReturnStep(s, s', head, bytes) && HeldOk(s.pool.chains, s.held)
    requires Memories(s.pool.chains, s.mem.desc, s.ram) && s'.mem.desc == s.mem.desc
    requires ResultsOk(s.pool.chains, s.ram, s.posted, s.results)
    requires forall i :: 0 <= i < |s.posted| ==> s.posted[i].id != head
    ensures Memories(s'.pool.chains, s'.mem.desc, s'.ram) && HeldOk(s'.pool.chains, s'.held)
    ensures ResultsOk(s'.pool.chains, s'.ram, s'.posted, s'.results)
  {
    var chains := s.pool.chains;
    assert head in s.held;
    var parts := chains[head].parts;
    forall i | 0 <= i < |s.posted|
      ensures s.posted[i].id in chains
    {
      assert ResultAt(chains, s.ram, s.posted, s.results, i);
    }
    if s.held[head].writable != [] {
      MemoryWritten(chains, head, s.mem.desc, s.ram, bytes);
      ResultsFrame(chains, chains, s.ram, s'.ram, s.posted, s.results);
    } else {
      assert FirstWritten(s.ram, chains[head], 0) == [];
    }
    ResultsAppend(chains, s'.ram, s.posted, s.results, UsedElem(head, |bytes|), bytes);
  }

  lemma ReturnPlaces(s: System, s': System, head: nat, bytes: seq<byte>)
    requires ReturnStep(s, s', head, bytes) && s.used == s.popped + |s.posted|
    requires Places(s.place, s.taken, s.waiting, s.held, s.popped, s.posted)
    ensures SameKeys(s'.place, s.place)
    ensures Places(s'.place, s'.taken, s'.waiting, s'.held, s'.popped, s'.posted)
    ensures forall i :: 0 <= i < |s.posted| ==> s.posted[i].id != head
  {
    forall i | 0 <= i < |s.posted|
      ensures s.posted[i].id != head
    {
      assert PostedAt(s.place, s.popped, s.posted, i);
    }
    PlaceReturned(s.place, s.taken, s.waiting, s.held, s.popped, s.posted, UsedElem(head, |bytes|));
  }

  lemma ReturnKeeps(s: System, s': System, head: nat, bytes: seq<byte>)
    requires Inv(s) && ReturnStep(s, s', head, bytes)
    ensures Inv(s')
  {
    ReturnPlaces(s, s', head, bytes);
    HeadInRange(s.pool, head);
    ReturnCounts(s, s', head, bytes);
    ReturnMemories(s, s', head, bytes);
  }

  // ---------------------------------------------------------------------------------------
  // Pop

  lemma PostedFits(s: System)
    requires Partitioned(s.pool) && s.posted != [] && ResultsOk(s.pool.chains, s.ram, s.posted, s.results)
    ensures s.posted[0].id in s.pool.chains && s.posted[0].id % U16 == s.posted[0].id
    ensures ResultAt(s.pool.chains, s.ram, s.posted, s.results, 0)
  {
    assert ResultAt(s.pool.chains, s.ram, s.posted, s.results, 0);
    HeadInRange(s.pool, s.posted[0].id);
    var m := QueueSizeDivides(s.pool.size);
  }

  /** The next used element always names an outstanding chain, and the bytes found in its first
      writable buffer are those the device wrote for it. */
  lemma PopSees(s: System)
    requires Inv(s) && s.drvUsed != s.mem.usedIdx
    ensures s.posted != [] && PopElem(s) == s.posted[0]
    ensures PopElem(s).id % U16 == s.posted[0].id && s.posted[0].id in s.pool.chains
    ensures s.results != [] && PopElem(s).len == |s.results[0]|
    ensures FirstWritten(s.ram, s.pool.chains[s.posted[0].id], PopElem(s).len) == s.results[0]
  {
    PopExact(s);
    PostedFits(s);
  }

  lemma HeadInRange(p: Pool, h: nat)
    requires Partitioned(p) && h in p.chains
    ensures h < p.size
  {
    assert ChainShape(p.size, h, p.chains[h]);
  }

  lemma HeldPopped(chains: map<nat, Chain>, held: map<nat, Walked>, head: nat)
    requires HeldOk(chains, held) && head !in held
    ensures HeldOk(chains - {head}, held)
  {
  }

  lemma PopMemories(s: System, s': System)
    requires Partitioned(s.pool) && PopStep(s, s') && s.posted != [] && PopElem(s).id % U16 == s.posted[0].id
    requires Memories(s.pool.chains, s.mem.desc, s.ram) && HeldOk(s.pool.chains, s.held)
    requires ResultsOk(s.pool.chains, s.ram, s.posted, s.results)
    requires s.posted[0].id !in s.held
    requires forall i :: 0 < i < |s.posted| ==> s.posted[i].id != s.posted[0].id
    ensures Memories(s'.pool.chains, s'.mem.desc, s'.ram) && HeldOk(s'.pool.chains, s'.held)
    ensures ResultsOk(s'.pool.chains, s'.ram, s'.posted, s'.results)
  {
    var head := s.posted[0].id;
    MemoryPopped(s.pool, head, s.mem.desc, s'.mem.desc, s.ram);
    HeldPopped(s.pool.chains, s.held, head);
    ResultsPopped(s.pool.chains, s.ram, s.posted, s.results);
  }

  lemma ResultsPopped(chains: map<nat, Chain>, ram: Ram, posted: seq<UsedElem>, results: seq<seq<byte>>)
    requires ResultsOk(chains, ram, posted, results) && posted != []
    requires forall i :: 0 < i < |posted| ==> posted[i].id != posted[0].id
    ensures ResultsOk(chains - {posted[0].id}, ram, posted[1..], results[1..])
  {
    ResultsAdvance(chains, ram, posted, results);
    forall i | 0 <= i < |posted[1..]|
      ensures posted[1..][i].id in chains && posted[1..][i].id != posted[0].id
    {
      assert ResultAt(chains, ram, posted[1..], results[1..], i);
      var j := i + 1;
      assert posted[1..][i] == posted[j];
    }
    ResultsFrame(chains, chains - {posted[0].id}, ram, ram, posted[1..], results[1..]);
  }

  lemma PopCounts(s: System, s': System)
    requires Counts(s) && Indices(s) && PopStep(s, s') && s.posted != [] && PopElem(s).id % U16 < s.pool.size
    ensures Counts(s') && Indices(s')
  {
    CountRemove(s.pool.chains, s.pool.size, PopElem(s).id % U16);
    WrappedNext(s.popped);
  }

  lemma PopPlaces(s: System, s': System)
    requires PopStep(s, s') && s.posted != [] && PopElem(s).id % U16 == s.posted[0].id
    requires SameKeys(s.place, s.pool.chains)
    requires Places(s.place, s.taken, s.waiting, s.held, s.popped, s.posted)
    ensures SameKeys(s'.place, s'.pool.chains)
    ensures Places(s'.place, s'.taken, s'.waiting, s'.held, s'.popped, s'.posted)
    ensures s.posted[0].id !in s.held
    ensures forall i :: 0 < i < |s.posted| ==> s.posted[i].id != s.posted[0].id
  {
    var head := s.posted[0].id;
    PlacePopped(s.place, s.taken, s.waiting, s.held, s.popped, s.posted);
    assert PostedAt(s.place, s.popped, s.posted, 0);
    forall i | 0 < i < |s.posted|
      ensures s.posted[i].id != head
    {
      assert PostedAt(s.place, s.popped, s.posted, i);
    }
  }

  lemma PopRings(s: System, s': System)
    requires Partitioned(s.pool) && PopStep(s, s') && s.posted != []
    requires Fits(s.mem, s.pool.size) && RingHolds(s.mem.used, s.popped, s.posted)
    ensures Partitioned(s'.pool) && Fits(s'.mem, s'.pool.size) && s'.mem.avail == s.mem.avail
    ensures RingHolds(s'.mem.used, s'.popped, s'.posted)
    ensures PopElem(s).id % U16 < s.pool.size
  {
    GivePartitioned(s.pool, PopElem(s).id % U16);
    HeadInRange(s.pool, PopElem(s).id % U16);
    RingAdvance(s.mem.used, s.popped, s.posted);
  }

  lemma PopKeeps(s: System, s': System)
    requires Inv(s) && PopStep(s, s')
    ensures Inv(s')
  {
    PopSees(s);
    PopRings(s, s');
    PopCounts(s, s');
    PopPlaces(s, s');
    PopMemories(s, s');
  }

  // ---------------------------------------------------------------------------------------
  // All runs

  lemma InitInv(s: System)
    requires Init(s)
    ensures Inv(s)
  {
    FreshPartitioned(s.pool.size, s.pool.indirect);
    var m := QueueSizeDivides(s.pool.size);
    CountNone(s.held, s.pool.size);
    CountNone(s.pool.chains, s.pool.size);
  }

  lemma StepKeeps(s: System, s': System, step: Step)
    requires Inv(s) && Next(s, s', step)
    ensures Inv(s')
  {
    match step
    case Add(inputs, outputs, addrs, listAddr) => AddKeeps(s, s', inputs, outputs, addrs, listAddr);
    case Fetch => FetchKeeps(s, s');
    case Return(head, bytes) => ReturnKeeps(s, s', head, bytes);
    case Pop => PopKeeps(s, s');
  }

  /** A run of driver and device, the latest step outermost. */
  datatype Run = Start(state: System) | Then(before: Run, step: Step, state: System)

  ghost predicate IsRun(r: Run) {
    match r
    case Start(s) => Init(s)
    case Then(before, step, s) => IsRun(before) && Next(before.state, s, step)
  }

  /** The invariant holds after every run, and the size of the queue never changes. */
  lemma {:induction false} RunInv(r: Run)
    requires IsRun(r)
    ensures Inv(r.state) && r.state.pool.size == Origin(r).pool.size
  {
    if r.Start? {
      InitInv(r.state);
    } else {
      RunInv(r.before);
      StepKeeps(r.before.state, r.state, r.step);
    }
  }

  /** The state in which a run starts. */
  ghost function Origin(r: Run): (s: System) {
    if r.Start? then r.state else Origin(r.before)
  }

  /** In every interleaving the unbounded counts are ordered, each 16-bit index is its count modulo
      2^16, both emptiness tests are exact, and each side reads exactly the oldest element that the
      other side wrote and it has not yet read, however often the indices have wrapped. */
  lemma RingsAreFifos(r: Run)
    requires IsRun(r)
    ensures var s := r.state;
            && s.popped <= s.used <= s.taken <= s.available <= s.popped + s.pool.size
            && Indices(s)
            && (s.devAvail != s.mem.availIdx <==> s.taken < s.available)
            && (s.drvUsed != s.mem.usedIdx <==> s.popped < s.used)
            && RingHolds(s.mem.avail, s.taken, s.waiting) && |s.waiting| == s.available - s.taken
            && RingHolds(s.mem.used, s.popped, s.posted) && |s.posted| == s.used - s.popped
            && (s.taken < s.available ==> FetchHead(s) == s.waiting[0])
            && (s.popped < s.used ==> PopElem(s) == s.posted[0])
  {
    RunInv(r);
    CountOrder(r.state);
    FetchExact(r.state);
    PopExact(r.state);
  }
}
