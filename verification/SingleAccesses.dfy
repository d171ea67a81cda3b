/** Driver and device access by access: every read of an index, a ring slot or a descriptor and every write to shared
    memory is a step of its own, and the two sides interleave in any way. What either side can see of it is a run of
    `RingProtocol`, whose steps are whole operations, and every run of that machine comes about in this way. */
module SingleAccesses {
  import opened Wrappers
  import opened Words
  import opened Descriptors
  import opened DescriptorPool
  import opened RingMemory
  import opened ChainWalk
  import opened DeviceVirtQueue
  import opened RingProtocol
  import opened RingSafety
  import opened RingProgress

  datatype Request = Request(inputs: seq<Buffer>, outputs: seq<Buffer>, addrs: seq<nat>, listAddr: nat)

  /** How far the device has walked along a chain: in which table (that of the queue, or one with so many entries at a
      bus address), which descriptor comes next, and the buffers found so far. */
  datatype Scan = Scan(
    head: nat, table: Option<nat>, entries: nat, next: Option<nat>, readable: seq<Segment>, writable: seq<Segment>)

  /** What the driver is in the middle of: adding a request; popping, having seen that there is something to pop, having
      read which chain, or clearing the descriptors of the chain that it has taken back. */
  datatype Driver = Idle | Adding(request: Request) | Saw | Peeked(id: nat) | Clearing(descs: seq<nat>)

  /** What the device is in the middle of: taking a chain, having seen that there is one, or walking along it; or
      returning one. */
  datatype Device = Resting | SawChain | Scanning(scan: Scan) | Returning(head: nat, bytes: seq<byte>)

  datatype State = State(sys: System, driver: Driver, device: Device)

  /** `can_pop` and `peek_used` only look, so either side may leave the chain that it saw. */
  datatype Access =
    | BeginAdd(request: Request) | WriteRequest | StoreAvail
    | LookUsed | ReadId | LeaveUsed | ReadLength | Clear | EndPop
    | LookAvail | LeaveAvail | ReadSlot | ReadDescriptor | EndScan
    | BeginReturn(head: nat, bytes: seq<byte>) | WriteResult | StoreUsed

  // ---------------------------------------------------------------------------------------
  // The driver's accesses

  function ChainOf(p: Pool, q: Request): (c: Chain)
    requires |q.addrs| == |q.inputs| + |q.outputs| && q.addrs != [] && !Full(p, |q.addrs|)
  {
    ChainFor(p, Parts(q.inputs, q.outputs, q.addrs), q.listAddr)
  }

  /** The chain lies on free descriptors, and no chain in flight uses its addresses. */
  ghost predicate OnFree(p: Pool, c: Chain) {
    && 0 < |c.descs| <= |p.free| && c.descs == p.free[..|c.descs|]
    && AddrsDiffer(c) && forall h, a :: UsedBy(p.chains, h, a) ==> !Uses(c, a)
  }

  /** The request passes the checks of `add`, and the HAL shares its buffers at fresh addresses. */
  ghost predicate CanAdd(s: System, q: Request) {
    AddOk(s, q.inputs, q.outputs, q.addrs) && OnFree(s.pool, ChainOf(s.pool, q))
  }

  ghost predicate SameBut<T>(t: seq<T>, t': seq<T>, at: nat) {
    |t'| == |t| && forall i :: 0 <= i < |t| && i != at ==> t'[i] == t[i]
  }

  /** Something is written to the descriptors and the addresses of `c` and to the next slot of the available ring. */
  ghost predicate Drafts(s: System, s': System, c: Chain) {
    && s' == s.(mem := s.mem.(desc := s'.mem.desc, avail := s'.mem.avail), ram := s'.ram)
    && SameOutside(s.mem.desc, s'.mem.desc, c.descs)
    && 0 < |s.mem.avail| && SameBut(s.mem.avail, s'.mem.avail, Slot(s.drvAvail, |s.mem.avail|))
    && forall a :: !Uses(c, a) ==> SameCell(s.ram, s'.ram, a)
  }

  /** All that `add` writes before the fence is there. */
  ghost predicate FullyDrafted(s: System, c: Chain) {
    && 0 < |s.mem.avail| && 0 < |c.descs|
    && Encodes(s.mem.desc, c) && RamHolds(s.ram, c) && s.mem.avail[Slot(s.drvAvail, |s.mem.avail|)] == c.descs[0]
  }

  /** The store of the index, after which the device can see the chain. */
  ghost function Published(s: System, c: Chain): (s': System)
    requires 0 < |c.descs| <= |s.pool.free|
  {
    Added(s, Take(s.pool, c), s.mem.(availIdx := (s.drvAvail + 1) % U16), s.ram, s.pool.free[0])
  }

  /** Descriptors that are free again, and `used_event`, are written. */
  ghost predicate Clears(s: System, s': System, descs: seq<nat>) {
    && s' == s.(mem := s.mem.(desc := s'.mem.desc, usedEvent := s'.mem.usedEvent))
    && SameOutside(s.mem.desc, s'.mem.desc, descs)
  }

  ghost predicate DriverNext(f: State, f': State, access: Access) {
    match access
    case BeginAdd(q) => f.driver.Idle? && CanAdd(f.sys, q) && f' == f.(driver := Adding(q))
    case WriteRequest =>
      && f.driver.Adding? && CanAdd(f.sys, f.driver.request)
      && Drafts(f.sys, f'.sys, ChainOf(f.sys.pool, f.driver.request)) && f' == f.(sys := f'.sys)
    case StoreAvail =>
      && f.driver.Adding? && CanAdd(f.sys, f.driver.request)
      && var c := ChainOf(f.sys.pool, f.driver.request);
      && FullyDrafted(f.sys, c) && f' == f.(sys := Published(f.sys, c), driver := Idle)
    case LookUsed => f.driver.Idle? && f.sys.drvUsed != f.sys.mem.usedIdx && f' == f.(driver := Saw)
    case ReadId => f.driver.Saw? && f' == f.(driver := Peeked(PopElem(f.sys).id))
    case LeaveUsed => (f.driver.Saw? || f.driver.Peeked?) && f' == f.(driver := Idle)
    case ReadLength =>
      && f.driver.Peeked?
      && var token := f.driver.id % U16;
      && token in f.sys.pool.chains
      && f' == f.(sys := Dropped(f.sys, Give(f.sys.pool, token), f.sys.mem, token),
                  driver := Clearing(f.sys.pool.chains[token].descs))
    case Clear => f.driver.Clearing? && Clears(f.sys, f'.sys, f.driver.descs) && f' == f.(sys := f'.sys)
    case EndPop => f.driver.Clearing? && f' == f.(driver := Idle)
    case _ => false
  }

  // ---------------------------------------------------------------------------------------
  // The device's accesses

  /** The descriptor at which the walk is, as memory holds it at this moment. */
  function ReadAt(desc: seq<Descriptor>, ram: Ram, scan: Scan): (d: Option<Descriptor>) {
    if scan.next.None? then None
    else
      match scan.table
      case None => if scan.next.value < |desc| then Some(desc[scan.next.value]) else None
      case Some(a) =>
        if a in ram && ram[a].Entries? && scan.next.value < scan.entries <= |ram[a].table| then
          Some(ram[a].table[scan.next.value])
        else None
  }

  /** The walk after this descriptor; none if the device gives up on it. */
  function WalkOn(scan: Scan, d: Descriptor): (r: Option<Scan>) {
    var here := Segment(d.addr, d.len);
    if d.flags.indirect then
      if scan.table.None? && scan.readable == [] && scan.writable == [] && d.len % ENTRY_BYTES == 0 then
        Some(scan.(table := Some(d.addr), entries := d.len / ENTRY_BYTES, next := Some(0)))
      else None
    else if d.flags.write then Some(scan.(next := NextOf(d), writable := scan.writable + [here]))
    else if scan.writable != [] then None
    else Some(scan.(next := NextOf(d), readable := scan.readable + [here]))
  }

  ghost function Kept(s: System, scan: Scan): (s': System) {
    s.(devAvail := (s.devAvail + 1) % U16, held := s.held[scan.head := Buffers(scan.readable, scan.writable)],
       taken := s.taken + 1, waiting := if s.waiting == [] then [] else s.waiting[1..],
       place := s.place[scan.head := Held])
  }

  /** Something is written to the buffer, without changing its length. */
  ghost predicate Scribbles(ram: Ram, ram': Ram, seg: Segment) {
    && (forall a :: a != seg.addr ==> SameCell(ram, ram', a))
    && seg.addr in ram' && ram'[seg.addr].Bytes? && |ram'[seg.addr].bytes| == seg.len
  }

  /** Something is written to the first writable buffer of a chain, and to the next slot of the used ring. */
  ghost predicate DraftsAnswer(s: System, s': System, head: nat) {
    && head in s.held && s.held[head].Buffers?
    && s' == s.(mem := s.mem.(used := s'.mem.used), ram := s'.ram)
    && 0 < |s.mem.used| && SameBut(s.mem.used, s'.mem.used, Slot(s.devUsed, |s.mem.used|))
    && (if s.held[head].writable == [] then s'.ram == s.ram else Scribbles(s.ram, s'.ram, s.held[head].writable[0]))
  }

  /** The answer is in the buffer and the element in its slot. */
  ghost predicate Answered(s: System, head: nat, bytes: seq<byte>) {
    && CanReturn(s, head, bytes)
    && 0 < |s.mem.used| && s.mem.used[Slot(s.devUsed, |s.mem.used|)] == UsedElem(head, |bytes|)
    && (s.held[head].writable != [] ==> bytes <= ReadSegment(s.ram, s.held[head].writable[0]))
  }

  /** The store of the index, after which the driver can see the element. */
  ghost function Handed(s: System, head: nat, bytes: seq<byte>): (s': System) {
    Given(s, s.mem.(usedIdx := (s.devUsed + 1) % U16), s.ram, head, bytes)
  }

  ghost predicate DeviceNext(f: State, f': State, access: Access) {
    match access
    case LookAvail => f.device.Resting? && f.sys.devAvail != f.sys.mem.availIdx && f' == f.(device := SawChain)
    case LeaveAvail => f.device.SawChain? && f' == f.(device := Resting)
    case ReadSlot =>
      var head := FetchHead(f.sys);
      f.device.SawChain? && f' == f.(device := Scanning(Scan(head, None, 0, Some(head), [], [])))
    case ReadDescriptor =>
      && f.device.Scanning?
      && var d := ReadAt(f.sys.mem.desc, f.sys.ram, f.device.scan);
      && d.Some? && WalkOn(f.device.scan, d.value).Some?
      && f' == f.(device := Scanning(WalkOn(f.device.scan, d.value).value))
    case EndScan =>
      && f.device.Scanning? && f.device.scan.next.None?
      && f' == f.(sys := Kept(f.sys, f.device.scan), device := Resting)
    case BeginReturn(head, bytes) =>
      f.device.Resting? && CanReturn(f.sys, head, bytes) && f' == f.(device := Returning(head, bytes))
    case WriteResult => f.device.Returning? && DraftsAnswer(f.sys, f'.sys, f.device.head) && f' == f.(sys := f'.sys)
    case StoreUsed =>
      && f.device.Returning? && Answered(f.sys, f.device.head, f.device.bytes)
      && f' == f.(sys := Handed(f.sys, f.device.head, f.device.bytes), device := Resting)
    case _ => false
  }

  ghost predicate Next(f: State, f': State, access: Access) {
    DriverNext(f, f', access) || DeviceNext(f, f', access)
  }

  // ---------------------------------------------------------------------------------------
  // What either side relies on while it is in the middle of something

  /** The first `k` buffers have been found. */
  ghost predicate Found(parts: seq<Part>, scan: Scan, k: nat) {
    var n := ReadCount(parts);
    k <= |parts| && scan.readable == Segments(parts, 0, Min(k, n)) && scan.writable == Segments(parts, n, k)
  }

  /** The walk is at buffer `k`, or at the one descriptor of an indirect chain. */
  ghost predicate At(c: Chain, scan: Scan, k: nat) {
    && c.parts != [] && c.descs != [] && (c.list.None? ==> |c.descs| == |c.parts|)
    && (if scan.table.None? && c.list.Some? then k == 0 && scan.next == Some(c.descs[0])
        else scan.table == c.list && scan.next == LinkTo(c, k))
    && (scan.table.Some? ==> scan.entries == |c.parts|)
  }

  /** The link to the descriptor of buffer `k`, if there is one. */
  function LinkTo(c: Chain, k: nat): (next: Option<nat>)
    requires c.list.None? ==> |c.descs| == |c.parts|
  {
    if k >= |c.parts| then None else if c.list.Some? then Some(k) else Some(c.descs[k])
  }

  ghost predicate ScanAt(c: Chain, scan: Scan) {
    var k := |scan.readable| + |scan.writable|;
    Found(c.parts, scan, k) && At(c, scan, k)
  }

  ghost predicate ScanOk(s: System, scan: Scan) {
    && s.waiting != [] && scan.head == s.waiting[0] && scan.head in s.pool.chains
    && ScanAt(s.pool.chains[scan.head], scan)
  }

  ghost predicate DriverOk(s: System, driver: Driver) {
    match driver
    case Idle => true
    case Adding(q) => CanAdd(s, q)
    case Saw => s.posted != []
    case Peeked(id) => s.posted != [] && s.posted[0].id == id
    case Clearing(descs) => forall d :: d in descs ==> d in s.pool.free
  }

  ghost predicate DeviceOk(s: System, device: Device) {
    match device
    case Resting => true
    case SawChain => s.waiting != []
    case Scanning(scan) => ScanOk(s, scan)
    case Returning(head, bytes) => CanReturn(s, head, bytes)
  }

  ghost predicate StateOk(f: State) {
    Inv(f.sys) && DriverOk(f.sys, f.driver) && DeviceOk(f.sys, f.device)
  }

  // ---------------------------------------------------------------------------------------
  // Writes to what the other side does not look at

  lemma RingDrafted<T>(ring: seq<T>, ring': seq<T>, lo: nat, live: seq<T>)
    requires RingHolds(ring, lo, live) && |live| < |ring| && SameBut(ring, ring', Slot(lo + |live|, |ring|))
    ensures RingHolds(ring', lo, live)
  {
    forall i | 0 <= i < |live|
      ensures SlotHolds(ring', lo, live, i)
    {
      assert SlotHolds(ring, lo, live, i);
      SlotsDiffer(lo + i, lo + |live|, |ring|);
    }
  }

  lemma DescsDrafted(p: Pool, descs: seq<nat>, desc: seq<Descriptor>, desc': seq<Descriptor>, ram: Ram)
    requires Partitioned(p) && (forall d :: d in descs ==> d in p.free)
    requires Memories(p.chains, desc, ram) && SameOutside(desc, desc', descs)
    ensures Memories(p.chains, desc', ram)
  {
    forall h | h in p.chains
      ensures Intact(p.chains[h], desc', ram)
    {
      assert Intact(p.chains[h], desc, ram);
      forall i | 0 <= i < |p.chains[h].descs|
        ensures p.chains[h].descs[i] !in descs
      {
        assert Owns(p, h, p.chains[h].descs[i]);
      }
      EncodesOutside(desc, desc', descs, p.chains[h]);
    }
  }

  /** Memory that no chain in flight uses may change. */
  lemma RamDrafted(chains: map<nat, Chain>, desc: seq<Descriptor>, ram: Ram, ram': Ram)
    requires Memories(chains, desc, ram) && forall h, a :: UsedBy(chains, h, a) ==> SameCell(ram, ram', a)
    ensures Memories(chains, desc, ram')
  {
    forall h | h in chains
      ensures Intact(chains[h], desc, ram')
    {
      assert Intact(chains[h], desc, ram);
      forall a | Uses(chains[h], a)
        ensures SameCell(ram, ram', a)
      {
        assert UsedBy(chains, h, a);
      }
      RamHoldsFrame(ram, ram', chains[h]);
    }
  }

  lemma ResultsDrafted(chains: map<nat, Chain>, ram: Ram, ram': Ram, posted: seq<UsedElem>, results: seq<seq<byte>>)
    requires ResultsOk(chains, ram, posted, results)
    requires forall i, a :: 0 <= i < |posted| && UsedBy(chains, posted[i].id, a) ==> SameCell(ram, ram', a)
    ensures ResultsOk(chains, ram', posted, results)
  {
    forall i | 0 <= i < |posted|
      ensures posted[i].id in chains
    {
      assert ResultAt(chains, ram, posted, results, i);
    }
    ResultsFrame(chains, chains, ram, ram', posted, results);
  }

  lemma RoomOnRings(s: System)
    requires Partitioned(s.pool) && Counts(s) && Indices(s) && Fits(s.mem, s.pool.size)
    ensures s.pool.free != [] ==>
              && |s.waiting| < |s.mem.avail|
              && Slot(s.drvAvail, |s.mem.avail|) == Slot(s.taken + |s.waiting|, |s.mem.avail|)
    ensures s.used < s.taken ==>
              |s.posted| < |s.mem.used| && Slot(s.devUsed, |s.mem.used|) == Slot(s.popped + |s.posted|, |s.mem.used|)
  {
    CountOrder(s);
    SlotOfCount(s.available, s.pool.size);
    SlotOfCount(s.used, s.pool.size);
  }

  lemma DraftKeeps(s: System, s': System, c: Chain)
    requires Inv(s) && OnFree(s.pool, c) && Drafts(s, s', c)
    ensures Inv(s')
  {
    RoomOnRings(s);
    RingDrafted(s.mem.avail, s'.mem.avail, s.taken, s.waiting);
    DescsDrafted(s.pool, c.descs, s.mem.desc, s'.mem.desc, s.ram);
    RamDrafted(s.pool.chains, s'.mem.desc, s.ram, s'.ram);
    ResultsDrafted(s.pool.chains, s.ram, s'.ram, s.posted, s.results);
  }

  lemma ClearKeeps(s: System, s': System, descs: seq<nat>)
    requires Inv(s) && Clears(s, s', descs) && forall d :: d in descs ==> d in s.pool.free
    ensures Inv(s')
  {
    DescsDrafted(s.pool, descs, s.mem.desc, s'.mem.desc, s.ram);
  }

  /** The buffer that the device writes to. */
  lemma HeldBuffer(s: System, head: nat)
    requires HeldOk(s.pool.chains, s.held) && head in s.held && s.held[head].writable != []
    ensures var c := s.pool.chains[head]; var n := ReadCount(c.parts);
            && n < |c.parts| && s.held[head].writable[0] == SegmentOf(c.parts[n])
            && UsedBy(s.pool.chains, head, c.parts[n].addr)
  {
    var c := s.pool.chains[head];
    assert Uses(c, c.parts[ReadCount(c.parts)].addr);
  }

  lemma ScribbledCells(c: Chain, ram: Ram, ram': Ram, n: nat)
    requires RamHolds(ram, c) && AddrsDiffer(c) && n < |c.parts| && c.parts[n].dir == DeviceToDriver
    requires Scribbles(ram, ram', SegmentOf(c.parts[n]))
    ensures RamHolds(ram', c)
  {
    forall i | 0 <= i < |c.parts|
      ensures CellHolds(ram', c.parts[i])
    {
      assert CellHolds(ram, c.parts[i]);
      assert i != n ==> SameCell(ram, ram', c.parts[i].addr);
    }
    if c.list.Some? {
      assert SameCell(ram, ram', c.list.value);
    }
  }

  /** A write to a buffer of a chain that the device holds disturbs nothing else. */
  lemma MemoryScribbled(chains: map<nat, Chain>, head: nat, n: nat, desc: seq<Descriptor>, ram: Ram, ram': Ram)
    requires Memories(chains, desc, ram) && head in chains && n == ReadCount(chains[head].parts) < |chains[head].parts|
    requires Scribbles(ram, ram', SegmentOf(chains[head].parts[n]))
    ensures Memories(chains, desc, ram')
    ensures forall h, a :: h != head && UsedBy(chains, h, a) ==> SameCell(ram, ram', a)
  {
    var at := chains[head].parts[n].addr;
    assert UsedBy(chains, head, at) by {
      assert Uses(chains[head], at);
    }
    forall h | h in chains
      ensures Intact(chains[h], desc, ram')
    {
      assert Intact(chains[h], desc, ram);
      if h == head {
        ScribbledCells(chains[h], ram, ram', n);
      } else {
        forall a | Uses(chains[h], a)
          ensures SameCell(ram, ram', a)
        {
          assert UsedBy(chains, h, a);
        }
        RamHoldsFrame(ram, ram', chains[h]);
      }
    }
  }

  lemma NotPosted(s: System, head: nat)
    requires Places(s.place, s.taken, s.waiting, s.held, s.popped, s.posted) && head in s.held
    ensures forall i :: 0 <= i < |s.posted| ==> s.posted[i].id != head
  {
    forall i | 0 <= i < |s.posted|
      ensures s.posted[i].id != head
    {
      assert PostedAt(s.place, s.popped, s.posted, i);
    }
  }

  lemma HeldCounts(s: System, head: nat)
    requires Partitioned(s.pool) && Counts(s) && HeldOk(s.pool.chains, s.held) && head in s.held
    ensures s.used < s.taken
  {
    HeadInRange(s.pool, head);
    CountRemove(s.held, s.pool.size, head);
  }

  lemma AnswerRing(s: System, s': System, head: nat)
    requires Partitioned(s.pool) && Counts(s) && Indices(s) && Fits(s.mem, s.pool.size) && HeldOk(s.pool.chains, s.held)
    requires RingHolds(s.mem.used, s.popped, s.posted) && DraftsAnswer(s, s', head)
    ensures RingHolds(s'.mem.used, s.popped, s.posted)
  {
    HeldCounts(s, head);
    RoomOnRings(s);
    RingDrafted(s.mem.used, s'.mem.used, s.popped, s.posted);
  }

  lemma AnswerMemory(s: System, s': System, head: nat)
    requires HeldOk(s.pool.chains, s.held) && Memories(s.pool.chains, s.mem.desc, s.ram)
    requires ResultsOk(s.pool.chains, s.ram, s.posted, s.results)
    requires DraftsAnswer(s, s', head) && forall i :: 0 <= i < |s.posted| ==> s.posted[i].id != head
    ensures Memories(s.pool.chains, s.mem.desc, s'.ram) && ResultsOk(s.pool.chains, s'.ram, s.posted, s.results)
  {
    if s.held[head].writable != [] {
      HeldBuffer(s, head);
      MemoryScribbled(s.pool.chains, head, ReadCount(s.pool.chains[head].parts), s.mem.desc, s.ram, s'.ram);
      ResultsDrafted(s.pool.chains, s.ram, s'.ram, s.posted, s.results);
    }
  }

  lemma AnswerKeeps(s: System, s': System, head: nat)
    requires Inv(s) && DraftsAnswer(s, s', head)
    ensures Inv(s')
  {
    AnswerRing(s, s', head);
    NotPosted(s, head);
    AnswerMemory(s, s', head);
  }

  // ---------------------------------------------------------------------------------------
  // The walk

  lemma ScanBegins(s: System)
    requires Inv(s) && s.waiting != []
    ensures ScanOk(s, Scan(FetchHead(s), None, 0, Some(FetchHead(s)), [], []))
  {
    WaitingIff(s);
    FetchSees(s);
    assert ChainShape(s.pool.size, s.waiting[0], s.pool.chains[s.waiting[0]]);
  }

  lemma FoundNext(parts: seq<Part>, scan: Scan, k: nat, d: Descriptor)
    requires Found(parts, scan, k) && k < |parts|
    requires Ordered(parts, ReadCount(parts)) && Holds(d, parts[k], k + 1 < |parts|)
    ensures var scan' := WalkOn(scan, d); scan'.Some? && Found(parts, scan'.value, k + 1)
  {
    SegmentsGrow(parts, ReadCount(parts), k);
  }

  lemma Longer(scan: Scan, d: Descriptor)
    requires WalkOn(scan, d).Some? && !d.flags.indirect
    ensures var scan' := WalkOn(scan, d).value;
            && scan'.head == scan.head && scan'.table == scan.table && scan'.entries == scan.entries
            && |scan'.readable| + |scan'.writable| == |scan.readable| + |scan.writable| + 1
  {
  }

  lemma FoundCount(parts: seq<Part>, scan: Scan, k: nat)
    requires Found(parts, scan, k)
    ensures |scan.readable| + |scan.writable| == k
  {
  }

  lemma AtNext(c: Chain, scan: Scan, k: nat, d: Descriptor)
    requires At(c, scan, k) && scan.table == c.list && !d.flags.indirect && NextOf(d) == LinkTo(c, k + 1)
    requires WalkOn(scan, d).Some?
    ensures At(c, WalkOn(scan, d).value, k + 1) && WalkOn(scan, d).value.table == scan.table
  {
  }

  /** The walk gets on with this descriptor. */
  ghost predicate ReadsOn(c: Chain, scan: Scan, d: Descriptor) {
    var scan' := WalkOn(scan, d);
    scan'.Some? && scan'.value.head == scan.head && ScanAt(c, scan'.value) && ToRead(c, scan'.value) < ToRead(c, scan)
  }

  /** The walk after the descriptor of the next buffer. */
  lemma ScanStep(c: Chain, scan: Scan, k: nat, d: Descriptor)
    requires Found(c.parts, scan, k) && At(c, scan, k) && k < |c.parts| && scan.table == c.list
    requires Ordered(c.parts, ReadCount(c.parts)) && Holds(d, c.parts[k], k + 1 < |c.parts|)
             && NextOf(d) == LinkTo(c, k + 1)
    ensures ReadsOn(c, scan, d)
  {
    FoundNext(c.parts, scan, k, d);
    FoundCount(c.parts, scan, k);
    AtNext(c, scan, k, d);
    Longer(scan, d);
  }

  /** The one descriptor of an indirect chain leads to its table. */
  lemma TableReads(c: Chain, scan: Scan, d: Descriptor)
    requires ScanAt(c, scan) && scan.table.None? && c.list == Some(d.addr) && d.flags.indirect
    requires d.len == ENTRY_BYTES * |c.parts|
    ensures ReadsOn(c, scan, d)
  {
  }

  lemma DirectReads(c: Chain, desc: seq<Descriptor>, scan: Scan)
    requires c.list.None? && Encodes(desc, c) && Ordered(c.parts, ReadCount(c.parts)) && ScanAt(c, scan)
             && scan.next.Some?
    ensures scan.table.None? && scan.next.value < |desc| && ReadsOn(c, scan, desc[scan.next.value])
  {
    var k := |scan.readable| + |scan.writable|;
    assert EncodesAt(desc, c.descs, c.parts, k);
    ScanStep(c, scan, k, desc[c.descs[k]]);
  }

  lemma IndirectReads(c: Chain, scan: Scan)
    requires c.list.Some? && scan.table == c.list && Ordered(c.parts, ReadCount(c.parts)) && ScanAt(c, scan)
             && scan.next.Some?
    ensures scan.next.value < |c.parts| && ReadsOn(c, scan, IndirectTable(c.parts)[scan.next.value])
  {
    var k := |scan.readable| + |scan.writable|;
    ScanStep(c, scan, k, IndirectTable(c.parts)[k]);
  }

  lemma ChainReads(c: Chain, desc: seq<Descriptor>, ram: Ram, scan: Scan)
    requires Intact(c, desc, ram) && ScanAt(c, scan) && scan.next.Some?
    ensures ReadAt(desc, ram, scan).Some? && ReadsOn(c, scan, ReadAt(desc, ram, scan).value)
  {
    if c.list.None? {
      DirectReads(c, desc, scan);
    } else if scan.table.None? {
      TableReads(c, scan, desc[c.descs[0]]);
    } else {
      IndirectReads(c, scan);
    }
  }

  ghost function ToRead(c: Chain, scan: Scan): (n: nat) {
    |c.parts| - Min(|c.parts|, |scan.readable| + |scan.writable|) + (if scan.table.None? then 1 else 0)
  }

  /** In whatever state memory is between two reads, the next read finds the next descriptor of the chain, as it was
      published. */
  lemma ScanReads(s: System, scan: Scan)
    requires Memories(s.pool.chains, s.mem.desc, s.ram) && ScanOk(s, scan) && scan.next.Some?
    ensures ReadAt(s.mem.desc, s.ram, scan).Some?
    ensures var scan' := WalkOn(scan, ReadAt(s.mem.desc, s.ram, scan).value);
            && scan'.Some? && scan'.value.head == scan.head && ScanOk(s, scan'.value)
            && ToRead(s.pool.chains[scan.head], scan'.value) < ToRead(s.pool.chains[scan.head], scan)
  {
    var c := s.pool.chains[scan.head];
    assert Intact(c, s.mem.desc, s.ram);
    ChainReads(c, s.mem.desc, s.ram, scan);
  }

  lemma ScanEnds(c: Chain, scan: Scan)
    requires ScanAt(c, scan) && scan.next.None?
    ensures Buffers(scan.readable, scan.writable) == SeenBy(c.parts, ReadCount(c.parts))
  {
  }

  lemma KeptIsStep(s: System, scan: Scan)
    requires s.devAvail != s.mem.availIdx && FetchHead(s) == scan.head
    requires FetchResult(s) == Buffers(scan.readable, scan.writable)
    ensures FetchStep(s, Kept(s, scan))
  {
  }

  /** At the end of the walk the device has seen what the driver published. */
  lemma ScanIsFetch(s: System, scan: Scan)
    requires Inv(s) && ScanOk(s, scan) && scan.next.None?
    ensures FetchStep(s, Kept(s, scan))
  {
    WaitingIff(s);
    FetchSees(s);
    ScanEnds(s.pool.chains[scan.head], scan);
    KeptIsStep(s, scan);
  }

  // ---------------------------------------------------------------------------------------
  // Which accesses are operations of the protocol

  lemma StoreIsAdd(s: System, q: Request)
    requires CanAdd(s, q) && FullyDrafted(s, ChainOf(s.pool, q))
    ensures AddStep(s, Published(s, ChainOf(s.pool, q)), q.inputs, q.outputs, q.addrs, q.listAddr)
  {
    var c := ChainOf(s.pool, q);
    var at := Slot(s.drvAvail, |s.mem.avail|);
    assert s.mem.avail == s.mem.avail[at := s.pool.free[0]];
  }

  lemma ReadIsPop(s: System)
    requires Inv(s) && s.posted != []
    ensures var token := s.posted[0].id;
            && token % U16 == token && token in s.pool.chains
            && PopStep(s, Dropped(s, Give(s.pool, token), s.mem, token))
  {
    WaitingIff(s);
    PopSees(s);
    PopIsStep(s, s.mem);
  }

  /** Writing what is there already changes nothing. */
  lemma WriteAgain(ram: Ram, seg: Segment, bytes: seq<byte>)
    requires seg.addr in ram && ram[seg.addr].Bytes? && |ram[seg.addr].bytes| == seg.len
             && bytes <= ReadSegment(ram, seg)
    ensures WriteSegment(ram, seg, bytes) == ram
  {
    assert ReadSegment(ram, seg) == ram[seg.addr].bytes;
    assert bytes + ReadSegment(ram, seg)[|bytes|..] == ram[seg.addr].bytes;
  }

  /** The buffer that the device writes to is in memory, with its length. */
  lemma HeldCell(chains: map<nat, Chain>, held: map<nat, Walked>, desc: seq<Descriptor>, ram: Ram, head: nat)
    requires HeldOk(chains, held) && Memories(chains, desc, ram) && head in held && held[head].writable != []
    ensures var seg := held[head].writable[0];
            seg.addr in ram && ram[seg.addr].Bytes? && |ram[seg.addr].bytes| == seg.len
  {
    assert Intact(chains[head], desc, ram);
    assert CellHolds(ram, chains[head].parts[ReadCount(chains[head].parts)]);
  }

  lemma StoreIsReturn(s: System, head: nat, bytes: seq<byte>)
    requires HeldOk(s.pool.chains, s.held) && Memories(s.pool.chains, s.mem.desc, s.ram) && Answered(s, head, bytes)
    ensures ReturnStep(s, Handed(s, head, bytes), head, bytes)
  {
    if s.held[head].writable != [] {
      HeldCell(s.pool.chains, s.held, s.mem.desc, s.ram, head);
      WriteAgain(s.ram, s.held[head].writable[0], bytes);
    }
    SlotAgain(s.mem.used, Slot(s.devUsed, |s.mem.used|));
    ReturnIsStep(s, head, bytes, s.mem.(usedIdx := (s.devUsed + 1) % U16));
  }

  lemma SlotAgain<T>(ring: seq<T>, at: nat)
    requires at < |ring|
    ensures ring[at := ring[at]] == ring
  {
  }

  /** What both sides can see is the same: memory may differ in what they do not look at. */
  ghost predicate SameView(s: System, s': System) {
    && s' == s.(mem := s'.mem, ram := s'.ram)
    && s'.mem.availIdx == s.mem.availIdx && s'.mem.usedIdx == s.mem.usedIdx
  }

  /** The operation of the protocol that an access completes, if it completes one. */
  ghost function Operation(f: State, access: Access): (op: Option<Step>) {
    match access
    case StoreAvail =>
      if f.driver.Adding? then
        var q := f.driver.request;
        Some(RingProtocol.Add(q.inputs, q.outputs, q.addrs, q.listAddr))
      else None
    case ReadLength => Some(Pop)
    case EndScan => Some(Fetch)
    case StoreUsed => if f.device.Returning? then Some(Return(f.device.head, f.device.bytes)) else None
    case _ => None
  }

  /** The driver writes where nobody looks. */
  lemma DriverWrites(f: State, f': State, access: Access)
    requires StateOk(f) && DriverNext(f, f', access) && (access.WriteRequest? || access.Clear?)
    ensures SameView(f.sys, f'.sys) && Inv(f'.sys)
  {
    if access.WriteRequest? {
      DraftKeeps(f.sys, f'.sys, ChainOf(f.sys.pool, f.driver.request));
    } else {
      ClearKeeps(f.sys, f'.sys, f.driver.descs);
    }
  }

  lemma StoreCompletes(f: State, f': State)
    requires DriverNext(f, f', StoreAvail)
    ensures Operation(f, StoreAvail).Some? && RingProtocol.Next(f.sys, f'.sys, Operation(f, StoreAvail).value)
  {
    StoreIsAdd(f.sys, f.driver.request);
  }

  lemma ReadCompletes(f: State, f': State)
    requires Inv(f.sys) && DriverOk(f.sys, f.driver) && DriverNext(f, f', ReadLength)
    ensures PopStep(f.sys, f'.sys)
  {
    ReadIsPop(f.sys);
  }

  lemma DriverCompletes(f: State, f': State, access: Access)
    requires StateOk(f) && DriverNext(f, f', access)
    ensures var op := Operation(f, access);
            if op.Some? then RingProtocol.Next(f.sys, f'.sys, op.value) else SameView(f.sys, f'.sys) && Inv(f'.sys)
  {
    match access
    case WriteRequest => DriverWrites(f, f', access);
    case StoreAvail => StoreCompletes(f, f');
    case ReadLength => ReadCompletes(f, f');
    case Clear => DriverWrites(f, f', access);
    case _ =>
  }

  lemma DeviceCompletes(f: State, f': State, access: Access)
    requires StateOk(f) && DeviceNext(f, f', access)
    ensures var op := Operation(f, access);
            if op.Some? then RingProtocol.Next(f.sys, f'.sys, op.value) else SameView(f.sys, f'.sys) && Inv(f'.sys)
  {
    match access
    case EndScan => ScanIsFetch(f.sys, f.device.scan);
    case WriteResult => AnswerKeeps(f.sys, f'.sys, f.device.head);
    case StoreUsed => StoreIsReturn(f.sys, f.device.head, f.device.bytes);
    case _ =>
  }

  /** Every access completes an operation of the protocol, or changes nothing that anybody can see. */
  lemma Completes(f: State, f': State, access: Access)
    requires StateOk(f) && Next(f, f', access)
    ensures var op := Operation(f, access);
            if op.Some? then RingProtocol.Next(f.sys, f'.sys, op.value) else SameView(f.sys, f'.sys)
    ensures Inv(f'.sys)
  {
    if DriverNext(f, f', access) {
      DriverCompletes(f, f', access);
    } else {
      DeviceCompletes(f, f', access);
    }
    if Operation(f, access).Some? {
      StepKeeps(f.sys, f'.sys, Operation(f, access).value);
    }
  }

  // ---------------------------------------------------------------------------------------
  // Neither side disturbs the other

  /** What the device does leaves the driver alone: it only takes what waits and posts what it holds. */
  lemma DriverUndisturbed(f: State, f': State, access: Access)
    requires StateOk(f) && DeviceNext(f, f', access)
    ensures DriverOk(f'.sys, f'.driver)
  {
  }

  /** A chain that waits stays as it is when the driver adds another or pops one. */
  lemma WaitingStays(s: System, s': System, h: nat, step: Step)
    requires Partitioned(s.pool) && SameKeys(s.place, s.pool.chains)
    requires Places(s.place, s.taken, s.waiting, s.held, s.popped, s.posted) && s.waiting != [] && h == s.waiting[0]
    requires step.Add? || (step.Pop? && s.posted != [] && PopElem(s).id % U16 == s.posted[0].id)
    requires RingProtocol.Next(s, s', step)
    ensures s.waiting <= s'.waiting && h in s.pool.chains && h in s'.pool.chains
            && s'.pool.chains[h] == s.pool.chains[h]
  {
    assert WaitingAt(s.place, s.taken, s.waiting, 0);
    if step.Pop? {
      assert PostedAt(s.place, s.popped, s.posted, 0);
    } else {
      assert ChainShape(s.pool.size, h, s.pool.chains[h]);
      assert Owns(s.pool, h, h);
    }
  }

  lemma ScanUndisturbed(f: State, f': State, access: Access)
    requires StateOk(f) && DriverNext(f, f', access) && f.device.Scanning?
    ensures ScanOk(f'.sys, f.device.scan)
  {
    DriverCompletes(f, f', access);
    if access.ReadLength? {
      WaitingIff(f.sys);
      PopSees(f.sys);
    }
    var op := Operation(f, access);
    if op.Some? {
      WaitingStays(f.sys, f'.sys, f.device.scan.head, op.value);
    }
  }

  lemma DeviceUndisturbed(f: State, f': State, access: Access)
    requires StateOk(f) && DriverNext(f, f', access)
    ensures DeviceOk(f'.sys, f'.device)
  {
    if f.device.Scanning? {
      ScanUndisturbed(f, f', access);
    }
  }

  lemma DriverGoesOn(f: State, f': State, access: Access)
    requires StateOk(f) && DriverNext(f, f', access)
    ensures DriverOk(f'.sys, f'.driver)
  {
    match access
    case LookUsed => WaitingIff(f.sys);
    case ReadId =>
      WaitingIff(f.sys);
      PopSees(f.sys);
    case _ =>
  }

  lemma DeviceGoesOn(f: State, f': State, access: Access)
    requires StateOk(f) && DeviceNext(f, f', access)
    ensures DeviceOk(f'.sys, f'.device)
  {
    match access
    case LookAvail => WaitingIff(f.sys);
    case ReadSlot => ScanBegins(f.sys);
    case ReadDescriptor => ScanReads(f.sys, f.device.scan);
    case _ =>
  }

  lemma AccessKeeps(f: State, f': State, access: Access)
    requires StateOk(f) && Next(f, f', access)
    ensures StateOk(f')
  {
    Completes(f, f', access);
    if DriverNext(f, f', access) {
      DriverGoesOn(f, f', access);
      DeviceUndisturbed(f, f', access);
    } else {
      DeviceGoesOn(f, f', access);
      DriverUndisturbed(f, f', access);
    }
  }

  // ---------------------------------------------------------------------------------------
  // What an operation does only depends on what can be seen

  lemma MimicsAdd(s: System, s': System, t: System, inputs: seq<Buffer>, outputs: seq<Buffer>, addrs: seq<nat>,
                  listAddr: nat)
    returns (t': System)
    requires Inv(t) && SameView(s, t) && AddStep(s, s', inputs, outputs, addrs, listAddr)
    ensures AddStep(t, t', inputs, outputs, addrs, listAddr) && SameView(s', t')
  {
    t' := AddEnabled(t, inputs, outputs, addrs, listAddr);
  }

  lemma SameFetchView(s: System, s': System, t: System, t': System)
    requires SameView(s, t) && FetchStep(s, s') && FetchStep(t, t')
    requires FetchHead(t) == FetchHead(s) && FetchResult(t) == FetchResult(s)
    ensures SameView(s', t')
  {
  }

  lemma MimicsFetch(s: System, s': System, t: System)
    requires Inv(s) && Inv(t) && SameView(s, t) && FetchStep(s, s')
    ensures FetchStep(t, AfterFetch(t)) && SameView(s', AfterFetch(t))
  {
    FetchSees(s);
    FetchSees(t);
    FetchIsStep(t);
    SameFetchView(s, s', t, AfterFetch(t));
  }

  lemma SameReturnView(s: System, s': System, t: System, t': System, head: nat, bytes: seq<byte>)
    requires SameView(s, t) && ReturnStep(s, s', head, bytes) && ReturnStep(t, t', head, bytes)
    ensures SameView(s', t')
  {
  }

  lemma MimicsReturn(s: System, s': System, t: System, head: nat, bytes: seq<byte>) returns (t': System)
    requires Inv(t) && SameView(s, t) && ReturnStep(s, s', head, bytes)
    ensures ReturnStep(t, t', head, bytes) && SameView(s', t')
  {
    t' := ReturnEnabled(t, head, bytes);
    SameReturnView(s, s', t, t', head, bytes);
  }

  lemma SamePopView(s: System, s': System, t: System, t': System)
    requires SameView(s, t) && PopStep(s, s') && PopStep(t, t') && PopElem(t) == PopElem(s)
    ensures SameView(s', t')
  {
  }

  lemma MimicsPop(s: System, s': System, t: System) returns (t': System)
    requires Inv(s) && Inv(t) && SameView(s, t) && PopStep(s, s')
    ensures PopStep(t, t') && SameView(s', t')
  {
    PopSees(s);
    PopSees(t);
    t' := PopEnabled(t);
    SamePopView(s, s', t, t');
  }

  lemma Mimics(s: System, s': System, t: System, step: Step) returns (t': System)
    requires Inv(s) && Inv(t) && SameView(s, t) && RingProtocol.Next(s, s', step)
    ensures RingProtocol.Next(t, t', step) && SameView(s', t')
  {
    match step
    case Add(inputs, outputs, addrs, listAddr) => t' := MimicsAdd(s, s', t, inputs, outputs, addrs, listAddr);
    case Fetch =>
      MimicsFetch(s, s', t);
      t' := AfterFetch(t);
    case Return(head, bytes) => t' := MimicsReturn(s, s', t, head, bytes);
    case Pop => t' := MimicsPop(s, s', t);
  }

  // ---------------------------------------------------------------------------------------
  // All runs

  datatype History = Opening(state: State) | Later(before: History, access: Access, state: State)

  ghost predicate IsHistory(r: History) {
    match r
    case Opening(f) => Init(f.sys) && f.driver.Idle? && f.device.Resting?
    case Later(before, access, f) => IsHistory(before) && Next(before.state, f, access)
  }

  /** Some sequence of accesses leads to `f`. */
  ghost predicate Accessible(f: State) {
    exists r :: IsHistory(r) && r.state == f
  }

  /** Some run of the protocol leads to `s`. */
  ghost predicate Attained(s: System) {
    exists r: RingSafety.Run :: RingSafety.IsRun(r) && r.state == s
  }

  lemma Attains(s: System, s': System, step: Step)
    requires Attained(s) && RingProtocol.Next(s, s', step)
    ensures Attained(s')
  {
    var r: RingSafety.Run :| RingSafety.IsRun(r) && r.state == s;
    assert RingSafety.IsRun(RingSafety.Then(r, step, s'));
  }

  lemma AttainedInv(s: System)
    requires Attained(s)
    ensures Inv(s)
  {
    var r: RingSafety.Run :| RingSafety.IsRun(r) && r.state == s;
    RingSafety.RunInv(r);
  }

  lemma {:induction false} HistoryRefines(r: History) returns (s: System)
    requires IsHistory(r)
    ensures StateOk(r.state) && Attained(s) && SameView(r.state.sys, s)
  {
    match r
    case Opening(f) =>
      RingSafety.InitInv(f.sys);
      assert RingSafety.IsRun(RingSafety.Start(f.sys));
      s := f.sys;
    case Later(before, access, f) =>
      var s0 := HistoryRefines(before);
      AttainedInv(s0);
      Completes(before.state, f, access);
      AccessKeeps(before.state, f, access);
      var op := Operation(before.state, access);
      if op.Some? {
        s := Mimics(before.state.sys, f.sys, s0, op.value);
        Attains(s0, s, op.value);
      } else {
        s := s0;
      }
  }

  /** Every interleaving of the single accesses of driver and device is, in what either side can see, a run of the
      protocol; and the protocol's invariant holds after every access. */
  lemma Refines(f: State) returns (s: System)
    requires Accessible(f)
    ensures Inv(f.sys) && Attained(s) && SameView(f.sys, s)
  {
    var r :| IsHistory(r) && r.state == f;
    s := HistoryRefines(r);
  }

  /** A device in the middle of a walk never has to give up on a descriptor, and one that has come to the end has seen
      exactly what was published under the oldest waiting head. */
  lemma WalkGoesWell(f: State)
    requires Accessible(f) && f.device.Scanning?
    ensures var scan := f.device.scan;
            && f.sys.waiting != [] && scan.head == f.sys.waiting[0] && scan.head in f.sys.pool.chains
            && (scan.next.Some? ==>
                  && ReadAt(f.sys.mem.desc, f.sys.ram, scan).Some?
                  && WalkOn(scan, ReadAt(f.sys.mem.desc, f.sys.ram, scan).value).Some?)
            && (scan.next.None? ==>
                  var parts := f.sys.pool.chains[scan.head].parts;
                  Buffers(scan.readable, scan.writable) == SeenBy(parts, ReadCount(parts)))
  {
    var r :| IsHistory(r) && r.state == f;
    var s := HistoryRefines(r);
    ScanGoesWell(f.sys, f.device.scan);
  }

  /** Between the driver's reads of the used element the device disturbs nothing: the element is still there, names a
      chain in flight, and the bytes that its length counts are in the chain's first writable buffer. */
  lemma PopGoesWell(f: State)
    requires Accessible(f) && f.driver.Peeked?
    ensures var s, e := f.sys, PopElem(f.sys);
            && s.posted != [] && e == s.posted[0] && f.driver.id == e.id == e.id % U16 && e.id in s.pool.chains
            && s.results != [] && e.len == |s.results[0]|
            && FirstWritten(s.ram, s.pool.chains[e.id], e.len) == s.results[0]
  {
    var r :| IsHistory(r) && r.state == f;
    var s := HistoryRefines(r);
    WaitingIff(f.sys);
    PopSees(f.sys);
  }

  lemma ScanGoesWell(s: System, scan: Scan)
    requires Memories(s.pool.chains, s.mem.desc, s.ram) && ScanOk(s, scan)
    ensures scan.next.Some? ==>
              ReadAt(s.mem.desc, s.ram, scan).Some? && WalkOn(scan, ReadAt(s.mem.desc, s.ram, scan).value).Some?
    ensures scan.next.None? ==>
              var parts := s.pool.chains[scan.head].parts;
              Buffers(scan.readable, scan.writable) == SeenBy(parts, ReadCount(parts))
  {
    if scan.next.Some? {
      ScanReads(s, scan);
    } else {
      ScanEnds(s.pool.chains[scan.head], scan);
    }
  }
}
