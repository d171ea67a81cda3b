/** Driver and device of one queue as a two-party protocol over shared memory.

    A step is one whole operation of one side, and the two sides step in any order. The driver's
    steps are what `VirtQueue.Add` and `VirtQueue.PopUsed` are proved to do, the device's steps what
    `DeviceVirtQueue.PopAvail` and `DeviceVirtQueue.AddUsed` are proved to do. */
module RingProtocol {
  import opened Wrappers
  import opened Words
  import opened Descriptors
  import opened DescriptorPool
  import opened RingMemory
  import opened ChainWalk
  import opened DeviceVirtQueue

  /** Where a chain in flight is; positions are unbounded counts of its ring. */
  datatype Place = Waiting(pos: nat) | Held | Posted(pos: nat)

  /** `pool`, `drvAvail` and `drvUsed` are the driver's state, `devAvail`, `devUsed` and `held` the
      device's, `mem` and `ram` what they share. The rest is history: unbounded counts, the heads
      published but not taken (`waiting`), the elements returned but not popped (`posted`) with the
      bytes written for each (`results`), and the place of each chain. */
  datatype System = System(
    pool: Pool, drvAvail: nat, drvUsed: nat,
    mem: Memory, ram: Ram,
    devAvail: nat, devUsed: nat, held: map<nat, Walked>,
    available: nat, taken: nat, used: nat, popped: nat,
    waiting: seq<nat>, posted: seq<UsedElem>, results: seq<seq<byte>>,
    place: map<nat, Place>)

  datatype Step =
    | Add(inputs: seq<Buffer>, outputs: seq<Buffer>, addrs: seq<nat>, listAddr: nat)
    | Fetch
    | Return(head: nat, bytes: seq<byte>)
    | Pop

  // ---------------------------------------------------------------------------------------
  // Bus memory

  /** `a` is the bus address of one of the chain's buffers or of its table. */
  ghost predicate Uses(c: Chain, a: nat) {
    c.list == Some(a) || exists i :: 0 <= i < |c.parts| && c.parts[i].addr == a
  }

  /** The HAL gave the buffers and the table of the chain different addresses. */
  ghost predicate AddrsDiffer(c: Chain) {
    && (forall i, j :: 0 <= i < j < |c.parts| ==> c.parts[i].addr != c.parts[j].addr)
    && (forall i :: 0 <= i < |c.parts| ==> c.list != Some(c.parts[i].addr))
  }

  ghost predicate CellHolds(ram: Ram, p: Part) {
    && p.addr in ram && ram[p.addr].Bytes?
    && |ram[p.addr].bytes| == |p.buffer.bytes|
    && (p.dir == DriverToDevice ==> ram[p.addr].bytes == p.buffer.bytes)
  }

  /** The device finds the chain's input bytes, room for its outputs, and its table, in memory. */
  ghost predicate RamHolds(ram: Ram, c: Chain) {
    && (forall i :: 0 <= i < |c.parts| ==> CellHolds(ram, c.parts[i]))
    && (c.list.Some? ==> c.list.value in ram && ram[c.list.value] == Entries(IndirectTable(c.parts)))
  }

  ghost predicate SameCell(ram: Ram, ram': Ram, a: nat) {
    (a in ram <==> a in ram') && (a in ram ==> ram'[a] == ram[a])
  }

  /** What sharing a chain's buffers and table does to the memory the device sees. */
  ghost predicate SharedIn(ram: Ram, ram': Ram, c: Chain) {
    RamHolds(ram', c) && forall a :: !Uses(c, a) ==> SameCell(ram, ram', a)
  }

  function TablesIn(ram: Ram): (t: map<nat, seq<Descriptor>>) {
    map a | a in ram && ram[a].Entries? :: ram[a].table
  }

  // ---------------------------------------------------------------------------------------
  // Steps

  ghost predicate Init(s: System) {
    match s
    case System(pool, _, _, _, _, _, _, _, _, _, _, _, _, _, _, _) =>
      && IsQueueSize(pool.size) && pool == Fresh(pool.size, pool.indirect)
      && Fits(s.mem, pool.size) && s.mem.availIdx == 0 && s.mem.usedIdx == 0
      && s.drvAvail == s.drvUsed == s.devAvail == s.devUsed == 0
      && s.available == s.taken == s.used == s.popped == 0
      && s.held == map[] && s.waiting == [] && s.posted == [] && s.results == [] && s.place == map[]
  }

  ghost predicate AddOk(s: System, inputs: seq<Buffer>, outputs: seq<Buffer>, addrs: seq<nat>) {
    && |addrs| == |inputs| + |outputs| && addrs != []
    && (forall i :: 0 <= i < |addrs| ==> BufferOk(BufferAt(inputs, outputs, i).0))
    && !Full(s.pool, |addrs|)
  }

  /** The driver publishes a request. The addresses the HAL returns are not in use. */
  ghost predicate AddStep(s: System, s': System, inputs: seq<Buffer>, outputs: seq<Buffer>, addrs: seq<nat>,
                          listAddr: nat) {
    match s
    case System(pool, _, _, _, _, _, _, _, _, _, _, _, _, _, _, _) =>
      && AddOk(s, inputs, outputs, addrs)
      && var c := ChainFor(pool, Parts(inputs, outputs, addrs), listAddr);
      && 0 < |c.descs| <= |pool.free|
      && var head := pool.free[0];
      && AddrsDiffer(c)
      && (forall h, a :: UsedBy(pool.chains, h, a) ==> !Uses(c, a))
      && Publishes(s.mem, s'.mem, s.drvAvail, c, head)
      && SharedIn(s.ram, s'.ram, c)
      && s'.pool == Take(pool, c)
      && s'.drvAvail == (s.drvAvail + 1) % U16
      && s'.available == s.available + 1
      && s'.waiting == s.waiting + [head]
      && s'.place == s.place[head := Waiting(s.available)]
      && s'.drvUsed == s.drvUsed && s'.devAvail == s.devAvail && s'.devUsed == s.devUsed
      && s'.held == s.held && s'.taken == s.taken && s'.used == s.used && s'.popped == s.popped
      && s'.posted == s.posted && s'.results == s.results
  }

  /** The head that the device reads from the available ring. */
  function FetchHead(s: System): (h: nat)
  {
    if s.mem.avail == [] then 0 else s.mem.avail[Slot(s.devAvail, |s.mem.avail|)]
  }

  function FetchResult(s: System): (w: Walked) {
    Decode(s.mem.desc, TablesIn(s.ram), FetchHead(s))
  }

  /** The device takes the next chain off the available ring and decodes it. */
  ghost predicate FetchStep(s: System, s': System) {
    match s
    case System(pool, _, _, _, _, _, _, _, _, _, _, _, _, _, _, _) =>
      && s.devAvail != s.mem.availIdx
      && FetchResult(s).Buffers?
      && s'.devAvail == (s.devAvail + 1) % U16
      && s'.held == s.held[FetchHead(s) := FetchResult(s)]
      && s'.taken == s.taken + 1
      && s'.waiting == (if s.waiting == [] then [] else s.waiting[1..])
      && s'.place == s.place[FetchHead(s) := Held]
      && s'.pool == pool && s'.drvAvail == s.drvAvail && s'.drvUsed == s.drvUsed && s'.mem == s.mem
      && s'.ram == s.ram && s'.devUsed == s.devUsed && s'.available == s.available
      && s'.used == s.used && s'.popped == s.popped && s'.posted == s.posted
      && s'.results == s.results
  }

  /** The device writes to the first writable buffer of a chain it holds, if there is one, and posts
      the chain to the used ring. */
  ghost predicate ReturnStep(s: System, s': System, head: nat, bytes: seq<byte>) {
    match s
    case System(pool, _, _, _, _, _, _, _, _, _, _, _, _, _, _, _) =>
      && head in s.held && s.held[head].Buffers?
      && var writable := s.held[head].writable;
      && (if writable == [] then bytes == [] else |bytes| <= writable[0].len)
      && |bytes| < U32
      && Returns(s.mem, s'.mem, s.devUsed, UsedElem(head, |bytes|))
      && s'.ram == (if writable == [] then s.ram else WriteSegment(s.ram, writable[0], bytes))
      && s'.devUsed == (s.devUsed + 1) % U16
      && s'.held == s.held - {head}
      && s'.used == s.used + 1
      && s'.posted == s.posted + [UsedElem(head, |bytes|)]
      && s'.results == s.results + [bytes]
      && s'.place == s.place[head := Posted(s.used)]
      && s'.pool == pool && s'.drvAvail == s.drvAvail && s'.drvUsed == s.drvUsed
      && s'.devAvail == s.devAvail && s'.available == s.available && s'.taken == s.taken
      && s'.popped == s.popped && s'.waiting == s.waiting
  }

  /** The element that the driver reads from the used ring. */
  function PopElem(s: System): (e: UsedElem)
  {
    if s.mem.used == [] then UsedElem(0, 0) else s.mem.used[Slot(s.drvUsed, |s.mem.used|)]
  }

  /** The driver pops the next used element and recycles its chain. */
  ghost predicate PopStep(s: System, s': System) {
    match s
    case System(pool, _, _, _, _, _, _, _, _, _, _, _, _, _, _, _) =>
      && s.drvUsed != s.mem.usedIdx
      && var token := PopElem(s).id % U16;
      && token in pool.chains
      && Reclaims(s.mem, s'.mem, pool.chains[token], s'.mem.usedEvent)
      && s'.pool == Give(pool, token)
      && s'.drvUsed == (s.drvUsed + 1) % U16
      && s'.popped == s.popped + 1
      && s'.posted == (if s.posted == [] then [] else s.posted[1..])
      && s'.results == (if s.results == [] then [] else s.results[1..])
      && s'.place == s.place - {token}
      && s'.drvAvail == s.drvAvail && s'.ram == s.ram && s'.devAvail == s.devAvail
      && s'.devUsed == s.devUsed && s'.held == s.held && s'.available == s.available
      && s'.taken == s.taken && s'.used == s.used && s'.waiting == s.waiting
  }

  ghost predicate Next(s: System, s': System, step: Step) {
    match step
    case Add(inputs, outputs, addrs, listAddr) => AddStep(s, s', inputs, outputs, addrs, listAddr)
    case Fetch => FetchStep(s, s')
    case Return(head, bytes) => ReturnStep(s, s', head, bytes)
    case Pop => PopStep(s, s')
  }

  // ---------------------------------------------------------------------------------------
  // The invariant

  ghost predicate Counts(s: System) {
    match s
    case System(pool, _, _, _, _, _, _, _, _, _, _, _, _, _, _, _) =>
      && s.available == s.taken + |s.waiting|
      && s.used == s.popped + |s.posted|
      && CountKeys(s.held, pool.size) + s.used == s.taken
      && CountKeys(pool.chains, pool.size) + s.popped == s.available
  }

  /** Each 16-bit index is its count modulo 2^16. */
  ghost predicate Indices(s: System) {
    match s
    case System(pool, _, _, _, _, _, _, _, _, _, _, _, _, _, _, _) =>
      && s.drvAvail == s.mem.availIdx == s.available % U16
      && s.devAvail == s.taken % U16
      && s.devUsed == s.mem.usedIdx == s.used % U16
      && s.drvUsed == s.popped % U16
  }

  ghost predicate SlotHolds<T>(ring: seq<T>, lo: nat, live: seq<T>, i: nat)
    requires i < |live| && 0 < |ring|
  {
    ring[Slot(lo + i, |ring|)] == live[i]
  }

  /** A ring holds the live elements in the slots of the counts `lo`, `lo + 1`, ... */
  ghost predicate RingHolds<T>(ring: seq<T>, lo: nat, live: seq<T>) {
    0 < |ring| && forall i :: 0 <= i < |live| ==> SlotHolds(ring, lo, live, i)
  }

  ghost predicate SameKeys<S, T>(m: map<nat, S>, m': map<nat, T>) {
    forall h :: h in m <==> h in m'
  }

  /** `place` says of each chain in flight where it is. */
  ghost predicate PlaceOk(place: map<nat, Place>, taken: nat, waiting: seq<nat>, held: map<nat, Walked>,
                          popped: nat, posted: seq<UsedElem>, h: nat)
    requires h in place
  {
    match place[h]
    case Waiting(pos) => taken <= pos < taken + |waiting| && waiting[pos - taken] == h
    case Held => h in held
    case Posted(pos) => popped <= pos < popped + |posted| && posted[pos - popped].id == h
  }

  ghost predicate WaitingAt(place: map<nat, Place>, taken: nat, waiting: seq<nat>, i: nat)
    requires i < |waiting|
  {
    waiting[i] in place && place[waiting[i]] == Waiting(taken + i)
  }

  ghost predicate PostedAt(place: map<nat, Place>, popped: nat, posted: seq<UsedElem>, i: nat)
    requires i < |posted|
  {
    posted[i].id in place && place[posted[i].id] == Posted(popped + i)
  }

  /** Every chain in flight is in exactly one place: once among the waiting heads, or held by the
      device, or once among the posted elements. */
  ghost predicate Places(place: map<nat, Place>, taken: nat, waiting: seq<nat>, held: map<nat, Walked>,
                         popped: nat, posted: seq<UsedElem>) {
    && (forall h :: h in place ==> PlaceOk(place, taken, waiting, held, popped, posted, h))
    && (forall i :: 0 <= i < |waiting| ==> WaitingAt(place, taken, waiting, i))
    && (forall i :: 0 <= i < |posted| ==> PostedAt(place, popped, posted, i))
    && (forall h :: h in held ==> h in place && place[h] == Held)
  }

  function ReadCount(parts: seq<Part>): (n: nat)
    ensures n <= |parts|
  {
    if parts == [] || parts[0].dir != DriverToDevice then 0 else 1 + ReadCount(parts[1..])
  }

  /** The shared table and the bus memory hold a chain as it was published. */
  ghost predicate Intact(c: Chain, desc: seq<Descriptor>, ram: Ram) {
    Encodes(desc, c) && RamHolds(ram, c) && AddrsDiffer(c) && Ordered(c.parts, ReadCount(c.parts))
  }

  ghost predicate UsedBy(chains: map<nat, Chain>, h: nat, a: nat) {
    h in chains && Uses(chains[h], a)
  }

  /** All chains in flight are intact, and no two of them use the same address. */
  ghost predicate Memories(chains: map<nat, Chain>, desc: seq<Descriptor>, ram: Ram) {
    && (forall h :: h in chains ==> Intact(chains[h], desc, ram))
    && (forall h, h', a :: UsedBy(chains, h, a) && UsedBy(chains, h', a) ==> h == h')
  }

  /** What the device remembers of a chain it holds is what the driver published. */
  ghost predicate HeldOk(chains: map<nat, Chain>, held: map<nat, Walked>) {
    forall h :: h in held ==> h in chains && held[h] == SeenBy(chains[h].parts, ReadCount(chains[h].parts))
  }

  /** The first `len` bytes of the first writable buffer of a chain, if it has one. */
  function FirstWritten(ram: Ram, c: Chain, len: nat): (b: seq<byte>) {
    var n := ReadCount(c.parts);
    if n < |c.parts| && c.parts[n].addr in ram && ram[c.parts[n].addr].Bytes? && len <= |ram[c.parts[n].addr].bytes|
    then ram[c.parts[n].addr].bytes[..len] else []
  }

  ghost predicate ResultAt(chains: map<nat, Chain>, ram: Ram, posted: seq<UsedElem>, results: seq<seq<byte>>, i: nat)
    requires i < |posted| && i < |results|
  {
    && posted[i].len == |results[i]|
    && posted[i].id in chains
    && FirstWritten(ram, chains[posted[i].id], posted[i].len) == results[i]
  }

  /** The bytes the device wrote for a posted element are still there for the driver. */
  ghost predicate ResultsOk(chains: map<nat, Chain>, ram: Ram, posted: seq<UsedElem>, results: seq<seq<byte>>) {
    && |results| == |posted|
    && forall i :: 0 <= i < |posted| ==> ResultAt(chains, ram, posted, results, i)
  }

  ghost predicate Inv(s: System) {
    match s
    case System(pool, _, _, _, _, _, _, _, _, _, _, _, _, _, _, _) =>
      && Partitioned(pool)
      && Counts(s) && Indices(s)
      && Fits(s.mem, pool.size)
      && RingHolds(s.mem.avail, s.taken, s.waiting)
      && RingHolds(s.mem.used, s.popped, s.posted)
      && SameKeys(s.place, pool.chains)
      && Places(s.place, s.taken, s.waiting, s.held, s.popped, s.posted)
      && Memories(pool.chains, s.mem.desc, s.ram)
      && HeldOk(pool.chains, s.held)
      && ResultsOk(pool.chains, s.ram, s.posted, s.results)
  }
}
