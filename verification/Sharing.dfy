/** What the queue has shared with the device through the HAL and not yet taken back. */
module Sharing {
  import opened Wrappers
  import opened Descriptors
  import opened DescriptorPool

  /** A call of `H::share` (with the address it returned) or of `H::unshare`. */
  datatype Call = Shared(share: Share) | Unshared(share: Share)

  /** The calls made so far, the latest one outermost. */
  datatype Log = Start | Then(before: Log, call: Call)

  /** How often `s` has been shared and not yet unshared. */
  function Open(log: Log, s: Share): (n: int)
  {
    match log
    case Start => 0
    case Then(before, call) => Open(before, s) + Delta(call, s)
  }

  function Delta(call: Call, s: Share): (n: int) {
    if call.share != s then 0 else if call.Shared? then 1 else -1
  }

  /** Every `unshare` closes a share that is open at that moment: same address, buffer, direction. */
  predicate Sound(log: Log)
  {
    match log
    case Start => true
    case Then(before, Shared(_)) => Sound(before)
    case Then(before, Unshared(s)) => Sound(before) && Open(before, s) > 0
  }

  function PartShare(p: Part): (s: Share) {
    Share(p.addr, Data(p.buffer), p.dir)
  }

  function ListShare(addr: nat, parts: seq<Part>): (s: Share) {
    Share(addr, Table(IndirectTable(parts)), DriverToDevice)
  }

  /** How often `s` is among the first `n` buffers of a request. */
  function PartCount(parts: seq<Part>, n: nat, s: Share): (k: nat)
    requires n <= |parts|
  {
    if n == 0 then 0
    else PartCount(parts, n - 1, s) + if PartShare(parts[n - 1]) == s then 1 else 0
  }

  /** How often `s` is among the buffers of a chain and its table, if it is indirect. */
  function ChainCount(c: Chain, s: Share): (k: nat) {
    PartCount(c.parts, |c.parts|, s) +
    if c.list.Some? && ListShare(c.list.value, c.parts) == s then 1 else 0
  }

  /** How often `s` is among the buffers and tables of all the chains. */
  ghost function Total(chains: map<nat, Chain>, s: Share): (k: nat)
    decreases chains.Keys
  {
    if chains == map[] then 0
    else
      var h :| h in chains;
      ChainCount(chains[h], s) + Total(chains - {h}, s)
  }

  /** Sharing is conserved: what the HAL calls leave open is, as a multiset, exactly the buffers and
      the tables of the chains in flight, and no call ever took back something not open. */
  ghost predicate Balanced(log: Log, p: Pool) {
    match p
    case Pool(_, _, _, chains) =>
      && Sound(log)
      && forall s :: Open(log, s) == Total(chains, s)
  }

  // ---------------------------------------------------------------------------------------
  // The calls made by `add` and `recycle_descriptors`

  function AfterSharing(log: Log, parts: seq<Part>, n: nat): (log': Log)
    requires n <= |parts|
  {
    if n == 0 then log else Then(AfterSharing(log, parts, n - 1), Shared(PartShare(parts[n - 1])))
  }

  function AfterUnsharing(log: Log, parts: seq<Part>, n: nat): (log': Log)
    requires n <= |parts|
  {
    if n == 0 then log else Then(AfterUnsharing(log, parts, n - 1), Unshared(PartShare(parts[n - 1])))
  }

  /** The buffers are shared in order, and then the table that points to them. */
  function AfterAdd(log: Log, c: Chain): (log': Log) {
    match c.list
    case None => AfterSharing(log, c.parts, |c.parts|)
    case Some(addr) => Then(AfterSharing(log, c.parts, |c.parts|), Shared(ListShare(addr, c.parts)))
  }

  /** The table is unshared first, and then the buffers in order. */
  function AfterRecycle(log: Log, c: Chain): (log': Log) {
    match c.list
    case None => AfterUnsharing(log, c.parts, |c.parts|)
    case Some(addr) => AfterUnsharing(Then(log, Unshared(ListShare(addr, c.parts))), c.parts, |c.parts|)
  }

  lemma FreshBalanced(size: nat, indirect: bool)
    ensures Balanced(Start, Fresh(size, indirect))
  {
  }

  // ---------------------------------------------------------------------------------------

  lemma {:induction false} SharingOpens(log: Log, parts: seq<Part>, n: nat)
    requires Sound(log) && n <= |parts|
    ensures forall s :: Open(AfterSharing(log, parts, n), s) == Open(log, s) + PartCount(parts, n, s)
    ensures Sound(AfterSharing(log, parts, n))
  {
    if n > 0 {
      SharingOpens(log, parts, n - 1);
    }
  }

  lemma {:induction false} PrefixCount(parts: seq<Part>, n: nat, k: nat, s: Share)
    requires n <= k <= |parts|
    ensures PartCount(parts, n, s) <= PartCount(parts, k, s)
    decreases k
  {
    if n < k {
      PrefixCount(parts, n, k - 1, s);
    }
  }

  lemma {:induction false} UnsharingCloses(log: Log, parts: seq<Part>, n: nat)
    requires Sound(log) && n <= |parts|
    requires forall s :: PartCount(parts, |parts|, s) <= Open(log, s)
    ensures forall s :: Open(AfterUnsharing(log, parts, n), s) == Open(log, s) - PartCount(parts, n, s)
    ensures Sound(AfterUnsharing(log, parts, n))
  {
    if n > 0 {
      UnsharingCloses(log, parts, n - 1);
      PrefixCount(parts, n, |parts|, PartShare(parts[n - 1]));
    }
  }

  /** The total does not depend on the order in which it is added up. */
  lemma {:induction false} TotalSplit(chains: map<nat, Chain>, h: nat, s: Share)
    requires h in chains
    ensures Total(chains, s) == ChainCount(chains[h], s) + Total(chains - {h}, s)
    decreases chains.Keys
  {
    var g :| g in chains && Total(chains, s) == ChainCount(chains[g], s) + Total(chains - {g}, s);
    if g != h {
      assert chains - {g} - {h} == chains - {h} - {g};
      TotalSplit(chains - {g}, h, s);
      TotalSplit(chains - {h}, g, s);
    }
  }

  /** Publishing a chain keeps sharing balanced. */
  lemma AddBalanced(log: Log, p: Pool, c: Chain)
    requires Balanced(log, p) && 0 < |c.descs| <= |p.free| && p.free[0] !in p.chains
    ensures Balanced(AfterAdd(log, c), Take(p, c))
  {
    SharingOpens(log, c.parts, |c.parts|);
    var chains := Take(p, c).chains;
    assert chains - {p.free[0]} == p.chains;
    forall s
      ensures Open(AfterAdd(log, c), s) == Total(chains, s)
    {
      TotalSplit(chains, p.free[0], s);
    }
  }

  /** Recycling a chain keeps sharing balanced: each of its items is taken back exactly once. */
  lemma RecycleBalanced(log: Log, p: Pool, head: nat)
    requires Balanced(log, p) && head in p.chains
    ensures Balanced(AfterRecycle(log, p.chains[head]), Give(p, head))
  {
    var c := p.chains[head];
    forall s
      ensures Open(log, s) == ChainCount(c, s) + Total(p.chains - {head}, s)
    {
      TotalSplit(p.chains, head, s);
    }
    RecycleCloses(log, c);
  }

  lemma RecycleCloses(log: Log, c: Chain)
    requires Sound(log) && forall s :: ChainCount(c, s) <= Open(log, s)
    ensures forall s :: Open(AfterRecycle(log, c), s) == Open(log, s) - ChainCount(c, s)
    ensures Sound(AfterRecycle(log, c))
  {
    var n := |c.parts|;
    match c.list
    case None =>
      assert forall s :: ChainCount(c, s) == PartCount(c.parts, n, s);
      UnsharingCloses(log, c.parts, n);
    case Some(addr) =>
      var table := ListShare(addr, c.parts);
      assert ChainCount(c, table) > 0;
      var log' := Then(log, Unshared(table));
      assert forall s :: Open(log', s) == Open(log, s) - (ChainCount(c, s) - PartCount(c.parts, n, s));
      UnsharingCloses(log', c.parts, n);
  }

  // ---------------------------------------------------------------------------------------
  // In terms of the caller

  lemma {:induction false} CountedIff(parts: seq<Part>, n: nat, s: Share)
    requires n <= |parts|
    ensures PartCount(parts, n, s) > 0 <==> exists i :: 0 <= i < n && PartShare(parts[i]) == s
  {
    if n > 0 {
      CountedIff(parts, n - 1, s);
    }
  }

  /** `s` is an input of the request, which the device reads, or an output, which it writes. */
  ghost predicate OfRequest(s: Share, inputs: seq<Buffer>, outputs: seq<Buffer>, addrs: seq<nat>)
    requires |addrs| == |inputs| + |outputs|
  {
    || (exists i :: 0 <= i < |inputs| && s == Share(addrs[i], Data(inputs[i]), DriverToDevice))
    || (exists j :: 0 <= j < |outputs| && s == Share(addrs[|inputs| + j], Data(outputs[j]), DeviceToDriver))
  }

  /** The share of buffer `i` of a request. */
  lemma ShareOfPart(inputs: seq<Buffer>, outputs: seq<Buffer>, parts: seq<Part>, addrs: seq<nat>, i: nat)
    requires |addrs| == |inputs| + |outputs| == |parts| && i < |addrs|
    requires SameBuffers(parts, inputs, outputs) && forall k :: 0 <= k < |parts| ==> parts[k].addr == addrs[k]
    ensures OfRequest(PartShare(parts[i]), inputs, outputs, addrs)
    ensures i < |inputs| ==> PartShare(parts[i]) == Share(addrs[i], Data(inputs[i]), DriverToDevice)
    ensures i >= |inputs| ==> PartShare(parts[i]) == Share(addrs[i], Data(outputs[i - |inputs|]), DeviceToDriver)
  {
    assert (parts[i].buffer, parts[i].dir) == BufferAt(inputs, outputs, i);
    if i >= |inputs| {
      assert addrs[i] == addrs[|inputs| + (i - |inputs|)];
    }
  }

  /** The buffers counted are those of the request, each with the direction that its role asks for. */
  lemma CountedOfRequest(inputs: seq<Buffer>, outputs: seq<Buffer>, parts: seq<Part>, addrs: seq<nat>, s: Share)
    requires |addrs| == |inputs| + |outputs| == |parts|
    requires SameBuffers(parts, inputs, outputs) && forall k :: 0 <= k < |parts| ==> parts[k].addr == addrs[k]
    ensures PartCount(parts, |parts|, s) > 0 <==> OfRequest(s, inputs, outputs, addrs)
  {
    CountedIff(parts, |parts|, s);
    if i :| 0 <= i < |parts| && PartShare(parts[i]) == s {
      ShareOfPart(inputs, outputs, parts, addrs, i);
    }
    if i :| 0 <= i < |inputs| && s == Share(addrs[i], Data(inputs[i]), DriverToDevice) {
      ShareOfPart(inputs, outputs, parts, addrs, i);
    }
    if j :| 0 <= j < |outputs| && s == Share(addrs[|inputs| + j], Data(outputs[j]), DeviceToDriver) {
      ShareOfPart(inputs, outputs, parts, addrs, |inputs| + j);
    }
  }

  /** From `log` to `log'` the buffers of the request have been shared, the inputs for the device to read and the
      outputs for it to write, and the table of the chain, at this address and with these entries, if it has one; and
      nothing else. */
  ghost predicate Shares(log: Log, log': Log, inputs: seq<Buffer>, outputs: seq<Buffer>, addrs: seq<nat>,
                         table: Option<(nat, seq<Descriptor>)>) {
    && |addrs| == |inputs| + |outputs|
    && (forall i :: 0 <= i < |inputs| ==> Opened(log, log', Share(addrs[i], Data(inputs[i]), DriverToDevice)))
    && (forall j :: 0 <= j < |outputs| ==>
          Opened(log, log', Share(addrs[|inputs| + j], Data(outputs[j]), DeviceToDriver)))
    && (table.Some? ==> Opened(log, log', Share(table.value.0, Table(table.value.1), DriverToDevice)))
    && (forall s :: SameOrShared(log, log', s, inputs, outputs, addrs, table))
  }

  /** `s` is shared as often as it was, unless it is one of these. */
  ghost predicate SameOrShared(log: Log, log': Log, s: Share, inputs: seq<Buffer>, outputs: seq<Buffer>,
                               addrs: seq<nat>, table: Option<(nat, seq<Descriptor>)>)
    requires |addrs| == |inputs| + |outputs|
  {
    Open(log', s) != Open(log, s) ==>
      || OfRequest(s, inputs, outputs, addrs)
      || (table.Some? && s == Share(table.value.0, Table(table.value.1), DriverToDevice))
  }

  /** `s` is shared more often than it was. */
  predicate Opened(log: Log, log': Log, s: Share) {
    Open(log', s) > Open(log, s)
  }

  /** The table of an indirect chain, with its address. */
  function TableOf(c: Chain): (table: Option<(nat, seq<Descriptor>)>) {
    if c.list.Some? then Some((c.list.value, IndirectTable(c.parts))) else None
  }

  function AddrsOf(parts: seq<Part>): (addrs: seq<nat>) {
    seq(|parts|, i requires 0 <= i < |parts| => parts[i].addr)
  }

  lemma ChainCounted(c: Chain, inputs: seq<Buffer>, outputs: seq<Buffer>, addrs: seq<nat>, s: Share)
    requires |addrs| == |inputs| + |outputs| == |c.parts| && SameBuffers(c.parts, inputs, outputs)
    requires forall k :: 0 <= k < |c.parts| ==> c.parts[k].addr == addrs[k]
    ensures ChainCount(c, s) > 0 <==>
              || OfRequest(s, inputs, outputs, addrs)
              || (c.list.Some? && s == Share(c.list.value, Table(IndirectTable(c.parts)), DriverToDevice))
  {
    CountedOfRequest(inputs, outputs, c.parts, addrs, s);
  }

  /** Two logs that differ in what a chain has open. */
  lemma ChainShares(log: Log, log': Log, c: Chain, inputs: seq<Buffer>, outputs: seq<Buffer>, addrs: seq<nat>)
    requires |addrs| == |inputs| + |outputs| == |c.parts| && SameBuffers(c.parts, inputs, outputs)
    requires forall k :: 0 <= k < |c.parts| ==> c.parts[k].addr == addrs[k]
    requires forall s :: Open(log', s) == Open(log, s) + ChainCount(c, s)
    ensures Shares(log, log', inputs, outputs, addrs, TableOf(c))
  {
    forall i | 0 <= i < |inputs|
      ensures Opened(log, log', Share(addrs[i], Data(inputs[i]), DriverToDevice))
    {
      ChainOpened(log, log', c, inputs, outputs, addrs, Share(addrs[i], Data(inputs[i]), DriverToDevice));
    }
    forall j | 0 <= j < |outputs|
      ensures Opened(log, log', Share(addrs[|inputs| + j], Data(outputs[j]), DeviceToDriver))
    {
      ChainOpened(log, log', c, inputs, outputs, addrs, Share(addrs[|inputs| + j], Data(outputs[j]), DeviceToDriver));
    }
    forall s
      ensures SameOrShared(log, log', s, inputs, outputs, addrs, TableOf(c))
    {
      ChainCounted(c, inputs, outputs, addrs, s);
    }
  }

  lemma ChainOpened(log: Log, log': Log, c: Chain, inputs: seq<Buffer>, outputs: seq<Buffer>, addrs: seq<nat>, s: Share)
    requires |addrs| == |inputs| + |outputs| == |c.parts| && SameBuffers(c.parts, inputs, outputs)
    requires forall k :: 0 <= k < |c.parts| ==> c.parts[k].addr == addrs[k]
    requires Open(log', s) == Open(log, s) + ChainCount(c, s) && OfRequest(s, inputs, outputs, addrs)
    ensures Opened(log, log', s)
  {
    ChainCounted(c, inputs, outputs, addrs, s);
  }

  /** `add` shares the buffers of the request, and the table of the chain. */
  lemma AddShares(log: Log, c: Chain, inputs: seq<Buffer>, outputs: seq<Buffer>, addrs: seq<nat>)
    requires Sound(log) && |addrs| == |inputs| + |outputs| == |c.parts| && SameBuffers(c.parts, inputs, outputs)
    requires forall k :: 0 <= k < |c.parts| ==> c.parts[k].addr == addrs[k]
    ensures Shares(log, AfterAdd(log, c), inputs, outputs, addrs, TableOf(c))
  {
    SharingOpens(log, c.parts, |c.parts|);
    ChainShares(log, AfterAdd(log, c), c, inputs, outputs, addrs);
  }

  /** Recycling takes exactly these back. */
  lemma RecycleUnshares(log: Log, p: Pool, head: nat, inputs: seq<Buffer>, outputs: seq<Buffer>)
    requires Balanced(log, p) && head in p.chains && SameBuffers(p.chains[head].parts, inputs, outputs)
    ensures var c := p.chains[head];
            Shares(AfterRecycle(log, c), log, inputs, outputs, AddrsOf(c.parts), TableOf(c))
  {
    forall s
      ensures ChainCount(p.chains[head], s) <= Open(log, s)
    {
      InFlightOpen(log, p, head, s);
    }
    RecycleCloses(log, p.chains[head]);
    ChainShares(AfterRecycle(log, p.chains[head]), log, p.chains[head], inputs, outputs,
                AddrsOf(p.chains[head].parts));
  }

  /** Every buffer and table of a chain in flight is shared at this moment. */
  lemma InFlightOpen(log: Log, p: Pool, head: nat, s: Share)
    requires Balanced(log, p) && head in p.chains
    ensures Open(log, s) >= ChainCount(p.chains[head], s)
  {
    TotalSplit(p.chains, head, s);
  }
}
