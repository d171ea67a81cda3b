/** The driver's view of the descriptors as values: an ordered free list and the chains in flight.

    `VirtQueue` keeps this state spread over a shadow table, a list head and a counter; its
    methods are proved to follow the functions of this module. */
module DescriptorPool {
  import opened Wrappers
  import opened Words
  import opened Descriptors

  /** A published request: the descriptors it occupies in link order, its buffers, and the bus
      address of its table when it was published as an indirect chain. */
  datatype Chain = Chain(descs: seq<nat>, parts: seq<Part>, list: Option<nat>)

  datatype Pool = Pool(size: nat, indirect: bool, free: seq<nat>, chains: map<nat, Chain>)

  ghost predicate NoDup<T>(s: seq<T>) {
    forall i, j :: 0 <= i < j < |s| ==> s[i] != s[j]
  }

  ghost predicate Owns(p: Pool, head: nat, d: nat) {
    head in p.chains && d in p.chains[head].descs
  }

  ghost predicate ChainShape(size: nat, head: nat, c: Chain) {
    match c
    case Chain(descs, parts, list) =>
      && descs != [] && descs[0] == head
      && NoDup(descs)
      && (forall i :: 0 <= i < |descs| ==> descs[i] < size)
      && 0 < |parts| <= size
      && (forall i :: 0 <= i < |parts| ==> BufferOk(parts[i].buffer))
      && (if list.Some? then |descs| == 1 else |descs| == |parts|)
  }

  /** The free list and the chains in flight partition the descriptors. */
  ghost predicate Partitioned(p: Pool) {
    match p
    case Pool(size, _, free, chains) =>
      && IsQueueSize(size)
      && NoDup(free)
      && (forall i :: 0 <= i < |free| ==> free[i] < size)
      && (forall h :: h in chains ==> ChainShape(size, h, chains[h]))
      && (forall h, d :: Owns(p, h, d) ==> d !in free)
      && (forall h, h', d :: Owns(p, h, d) && Owns(p, h', d) ==> h == h')
      && (forall d :: 0 <= d < size ==> d in free || exists h :: Owns(p, h, d))
  }

  /** The pool of a new queue: every descriptor free, linked in index order. */
  function Fresh(size: nat, indirect: bool): (p: Pool) {
    Pool(size, indirect, seq(size, i => i), map[])
  }

  function NumUsed(p: Pool): (n: int) {
    p.size - |p.free|
  }

  /** `available_desc`. */
  function Available(p: Pool): (n: int) {
    if p.indirect then (if NumUsed(p) == p.size then 0 else p.size)
    else p.size - NumUsed(p)
  }

  /** The condition under which `add` answers `QueueFull`. */
  predicate Full(p: Pool, needed: nat) {
    || NumUsed(p) + 1 > p.size
    || needed > p.size
    || (!p.indirect && NumUsed(p) + needed > p.size)
  }

  /** A request is refused exactly if no descriptor is free, or it has more buffers than there are free descriptors, or,
      with indirect descriptors, than the queue has descriptors at all. */
  lemma FullExact(p: Pool, needed: nat)
    requires Partitioned(p)
    ensures Full(p, needed) <==> p.free == [] || needed > if p.indirect then p.size else |p.free|
  {
    RoomBeside(p.free, {}, p.size);
  }

  predicate GoesIndirect(p: Pool, needed: nat) {
    p.indirect && needed > 1
  }

  /** The chain that a request of `parts` gets, with `listAddr` the address of a possible table. */
  function ChainFor(p: Pool, parts: seq<Part>, listAddr: nat): (c: Chain)
    requires parts != [] && !Full(p, |parts|)
  {
    if GoesIndirect(p, |parts|) then Chain(p.free[..1], parts, Some(listAddr))
    else
      assert |parts| <= |p.free|;
      Chain(p.free[..|parts|], parts, None)
  }

  /** Takes the chain's descriptors off the front of the free list. */
  function Take(p: Pool, c: Chain): (p': Pool)
    requires 0 < |c.descs| <= |p.free|
  {
    p.(free := p.free[|c.descs|..], chains := p.chains[p.free[0] := c])
  }

  /** Puts the chain's descriptors back on the front of the free list, in chain order. */
  function Give(p: Pool, head: nat): (p': Pool)
    requires head in p.chains
  {
    p.(free := p.chains[head].descs + p.free, chains := p.chains - {head})
  }

  // ---------------------------------------------------------------------------------------

  lemma FreshPartitioned(size: nat, indirect: bool)
    requires IsQueueSize(size)
    ensures Partitioned(Fresh(size, indirect)) && NumUsed(Fresh(size, indirect)) == 0
  {
    var p := Fresh(size, indirect);
    forall d | 0 <= d < size
      ensures d in p.free
    {
      assert p.free[d] == d;
    }
  }

  lemma NeededFits(p: Pool, needed: nat)
    requires needed > 0 && !Full(p, needed)
    ensures 1 <= |p.free| && (!GoesIndirect(p, needed) ==> needed <= |p.free|)
  {
  }

  /** `add` answers `QueueFull` exactly when more descriptors are needed than `available_desc`
      reports, in direct and in indirect mode. */
  lemma FullIffMoreThanAvailable(p: Pool, needed: nat)
    requires IsQueueSize(p.size) && |p.free| <= p.size && needed > 0
    ensures Full(p, needed) <==> needed > Available(p)
  {
    var m := QueueSizeDivides(p.size);
  }

  lemma TakeOwns(p: Pool, c: Chain, h: nat, d: nat)
    requires 0 < |c.descs| <= |p.free|
    ensures Owns(Take(p, c), h, d) <==>
            if h == p.free[0] then d in c.descs else Owns(p, h, d)
  {
  }

  /** Taking a chain off the free list keeps the partition. */
  lemma TakePartitioned(p: Pool, c: Chain)
    requires Partitioned(p) && 0 < |c.descs| <= |p.free| && c.descs == p.free[..|c.descs|]
    requires ChainShape(p.size, p.free[0], c)
    ensures Partitioned(Take(p, c))
    ensures p.free[0] !in p.chains
  {
    var p' := Take(p, c);
    var n := |c.descs|;
    var head := p.free[0];
    if head in p.chains {
      assert Owns(p, head, p.chains[head].descs[0]);
      assert false;
    }
    assert p.free == c.descs + p'.free;
    assert forall d :: d in p.free <==> d in c.descs || d in p'.free;
    forall h, d | Owns(p', h, d)
      ensures d !in p'.free
    {
      TakeOwns(p, c, h, d);
    }
    forall h, h', d | Owns(p', h, d) && Owns(p', h', d)
      ensures h == h'
    {
      TakeOwns(p, c, h, d);
      TakeOwns(p, c, h', d);
    }
    forall d | 0 <= d < p.size
      ensures d in p'.free || exists h :: Owns(p', h, d)
    {
      if d in c.descs {
        assert Owns(p', head, d);
      } else if d !in p'.free {
        var h :| Owns(p, h, d);
        TakeOwns(p, c, h, d);
        assert Owns(p', h, d);
      }
    }
  }

  lemma ChainForShape(p: Pool, parts: seq<Part>, listAddr: nat)
    requires Partitioned(p) && parts != [] && !Full(p, |parts|)
    requires forall i :: 0 <= i < |parts| ==> BufferOk(parts[i].buffer)
    ensures var c := ChainFor(p, parts, listAddr);
            && 0 < |c.descs| <= |p.free| && c.descs == p.free[..|c.descs|]
            && ChainShape(p.size, p.free[0], c)
  {
    NeededFits(p, |parts|);
    var c := ChainFor(p, parts, listAddr);
    assert forall i :: 0 <= i < |c.descs| ==> c.descs[i] == p.free[i];
  }

  /** Returning a chain to the free list keeps the partition. */
  lemma GivePartitioned(p: Pool, head: nat)
    requires Partitioned(p) && head in p.chains
    ensures Partitioned(Give(p, head))
  {
    var p' := Give(p, head);
    var descs := p.chains[head].descs;
    forall d | d in descs
      ensures d !in p.free && Owns(p, head, d)
    {
      assert Owns(p, head, d);
    }
    NoDupConcat(descs, p.free);
    assert forall d :: d in p'.free <==> d in descs || d in p.free;
    forall h, d
      ensures Owns(p', h, d) <==> h != head && Owns(p, h, d)
    {
    }
    forall d | 0 <= d < p.size && d !in p'.free
      ensures exists h :: Owns(p', h, d)
    {
      var h :| Owns(p, h, d);
      assert Owns(p', h, d);
    }
  }

  lemma NoDupConcat<T>(a: seq<T>, b: seq<T>)
    requires NoDup(a) && NoDup(b) && forall x :: x in a ==> x !in b
    ensures NoDup(a + b)
  {
    forall i, j | 0 <= i < j < |a + b|
      ensures (a + b)[i] != (a + b)[j]
    {
      if i < |a| <= j {
        assert a[i] in a && b[j - |a|] in b;
      }
    }
  }

  // ---------------------------------------------------------------------------------------
  // Counting

  function Range(n: nat): (r: set<nat>)
    ensures |r| == n && forall i: nat :: i in r <==> i < n
  {
    if n == 0 then {} else Range(n - 1) + {n - 1}
  }

  lemma SubsetSize<T>(a: set<T>, b: set<T>)
    requires a <= b
    ensures |a| <= |b|
  {
    assert b == a + (b - a);
  }

  function Elems<T>(s: seq<T>): (r: set<T>) {
    set x | x in s
  }

  lemma {:induction false} NoDupSize<T>(s: seq<T>)
    requires NoDup(s)
    ensures |Elems(s)| == |s|
  {
    if s != [] {
      var last := |s| - 1;
      NoDupSize(s[..last]);
      assert s == s[..last] + [s[last]];
      assert Elems(s) == Elems(s[..last]) + {s[last]};
      assert s[last] !in s[..last];
    }
  }

  lemma RoomBeside(free: seq<nat>, others: set<nat>, size: nat)
    requires NoDup(free) && forall i :: 0 <= i < |free| ==> free[i] < size
    requires forall d :: d in others ==> d < size && d !in free
    ensures |others| + |free| <= size
  {
    var mine := Elems(free);
    NoDupSize(free);
    assert mine !! others;
    SubsetSize(mine + others, Range(size));
  }

  /** The number of keys of `m` that are less than `n`. */
  function CountKeys<T>(m: map<nat, T>, n: nat): (k: nat) {
    if n == 0 then 0 else CountKeys(m, n - 1) + if n - 1 in m then 1 else 0
  }

  ghost function KeysBelow<T>(m: map<nat, T>, n: nat): (r: set<nat>) {
    set k | k in m.Keys && k < n
  }

  lemma {:induction false} CountIsSize<T>(m: map<nat, T>, n: nat)
    ensures CountKeys(m, n) == |KeysBelow(m, n)|
  {
    if n > 0 {
      CountIsSize(m, n - 1);
      if n - 1 in m {
        assert KeysBelow(m, n) == KeysBelow(m, n - 1) + {n - 1};
      } else {
        assert KeysBelow(m, n) == KeysBelow(m, n - 1);
      }
    }
  }

  lemma {:induction false} CountInsert<T>(m: map<nat, T>, n: nat, k: nat, v: T)
    requires k < n
    ensures CountKeys(m[k := v], n) == CountKeys(m, n) + if k in m then 0 else 1
  {
    if k < n - 1 {
      CountInsert(m, n - 1, k, v);
    } else {
      CountSame(m, m[k := v], n - 1);
    }
  }

  lemma {:induction false} CountRemove<T>(m: map<nat, T>, n: nat, k: nat)
    requires k < n && k in m
    ensures CountKeys(m - {k}, n) == CountKeys(m, n) - 1
  {
    if k < n - 1 {
      CountRemove(m, n - 1, k);
    } else {
      CountSame(m, m - {k}, n - 1);
    }
  }

  lemma {:induction false} CountSame<T>(m: map<nat, T>, m': map<nat, T>, n: nat)
    requires forall k :: 0 <= k < n ==> (k in m <==> k in m')
    ensures CountKeys(m, n) == CountKeys(m', n)
  {
    if n > 0 {
      CountSame(m, m', n - 1);
    }
  }

  lemma {:induction false} CountNone<T>(m: map<nat, T>, n: nat)
    requires m == map[]
    ensures CountKeys(m, n) == 0
  {
    if n > 0 {
      CountNone(m, n - 1);
    }
  }

  /** With no chain in flight, all descriptors are free. */
  lemma AllFree(p: Pool)
    requires Partitioned(p) && p.chains == map[]
    ensures |p.free| == p.size
  {
    RoomBeside(p.free, {}, p.size);
    NoDupSize(p.free);
    SubsetSize(Range(p.size), Elems(p.free));
  }

  /** There is at least one used descriptor for each chain in flight. */
  lemma ChainsFit(p: Pool)
    requires Partitioned(p)
    ensures CountKeys(p.chains, p.size) <= NumUsed(p)
  {
    var heads := KeysBelow(p.chains, p.size);
    CountIsSize(p.chains, p.size);
    forall h | h in heads
      ensures h !in p.free
    {
      assert p.chains[h].descs[0] == h;
      assert Owns(p, h, h);
    }
    RoomBeside(p.free, heads, p.size);
  }

  /** The first free descriptor is the head of no chain. */
  lemma FreeHead(p: Pool)
    requires Partitioned(p) && p.free != []
    ensures p.free[0] < p.size && p.free[0] !in p.chains
  {
    if p.free[0] in p.chains {
      assert Owns(p, p.free[0], p.chains[p.free[0]].descs[0]);
      assert false;
    }
  }

  /** Recycling a chain subtracts no more from `num_used` than it holds. */
  lemma ChainFits(p: Pool, h: nat)
    requires Partitioned(p) && h in p.chains
    ensures |p.chains[h].descs| <= NumUsed(p)
  {
    var descs := p.chains[h].descs;
    NoDupSize(descs);
    forall d | d in descs
      ensures d < p.size && d !in p.free
    {
      assert Owns(p, h, d);
    }
    RoomBeside(p.free, Elems(descs), p.size);
  }

  // ---------------------------------------------------------------------------------------
  // Runs

  /** An operation of the driver, with everything that the caller and the HAL decide. */
  datatype Op = Add(parts: seq<Part>, listAddr: nat) | Recycle(head: nat)

  predicate OpOk(op: Op) {
    op.Add? ==> forall i :: 0 <= i < |op.parts| ==> BufferOk(op.parts[i].buffer)
  }

  /** One operation; a refused request and a token that is not outstanding change nothing. */
  function Apply(p: Pool, op: Op): (p': Pool)
  {
    match op
    case Add(parts, listAddr) =>
      if parts == [] || Full(p, |parts|) then p
      else Take(p, ChainFor(p, parts, listAddr))
    case Recycle(head) =>
      if head in p.chains then Give(p, head) else p
  }

  function Run(p: Pool, ops: seq<Op>): (p': Pool)
  {
    if ops == [] then p else Apply(Run(p, ops[..|ops| - 1]), ops[|ops| - 1])
  }

  lemma ApplyPartitioned(p: Pool, op: Op)
    requires Partitioned(p) && OpOk(op)
    ensures Partitioned(Apply(p, op))
  {
    match op
    case Add(parts, listAddr) =>
      if parts != [] && !Full(p, |parts|) {
        ChainForShape(p, parts, listAddr);
        TakePartitioned(p, ChainFor(p, parts, listAddr));
      }
    case Recycle(head) =>
      if head in p.chains {
        GivePartitioned(p, head);
      }
  }

  /** In every run the free list and the chains in flight partition the descriptors. */
  lemma {:induction false} RunPartitioned(size: nat, indirect: bool, ops: seq<Op>)
    requires IsQueueSize(size) && forall i :: 0 <= i < |ops| ==> OpOk(ops[i])
    ensures Partitioned(Run(Fresh(size, indirect), ops))
  {
    if ops == [] {
      FreshPartitioned(size, indirect);
    } else {
      var last := |ops| - 1;
      RunPartitioned(size, indirect, ops[..last]);
      ApplyPartitioned(Run(Fresh(size, indirect), ops[..last]), ops[last]);
    }
  }

  /** The free list is last-in first-out: a request of the same shape as the chain just recycled
      gets exactly that chain's descriptors again, and the free list is as it was before. */
  lemma RecycledIsNext(p: Pool, head: nat, parts: seq<Part>, listAddr: nat)
    requires Partitioned(p) && head in p.chains
    requires |parts| == |p.chains[head].parts|
    requires GoesIndirect(p, |parts|) == p.chains[head].list.Some?
    ensures !Full(Give(p, head), |parts|)
    ensures var c := ChainFor(Give(p, head), parts, listAddr);
            && c.descs == p.chains[head].descs
            && Take(Give(p, head), c) == p.(chains := p.chains[head := c])
  {
    ChainFits(p, head);
    var g := Give(p, head);
    var descs := p.chains[head].descs;
    var c := ChainFor(g, parts, listAddr);
    assert c.descs == descs;
    assert g.free[|descs|..] == p.free;
    assert Take(g, c).chains == p.chains[head := c];
  }
}
