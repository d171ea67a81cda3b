/** How a shadow table, a list head, a counter and the table pointers stand for a descriptor pool. */
module ShadowTable {
  import opened Wrappers
  import opened Descriptors
  import opened DescriptorPool
  import opened RingMemory

  ghost predicate LinkAt(shadow: seq<Descriptor>, free: seq<nat>, i: nat)
    requires i < |free|
  {
    free[i] < |shadow| && (i + 1 < |free| ==> shadow[free[i]].next == free[i + 1])
  }

  /** Following `next` from `head` visits `free` in order. */
  ghost predicate Linked(shadow: seq<Descriptor>, head: nat, free: seq<nat>) {
    && (free != [] ==> head == free[0])
    && (forall i :: 0 <= i < |free| ==> LinkAt(shadow, free, i))
  }

  /** `indirect_lists`: the table of exactly the indirect chains in flight. */
  ghost predicate Tables(p: Pool, lists: seq<Option<seq<Descriptor>>>) {
    && |lists| == p.size
    && forall i :: 0 <= i < p.size ==>
         lists[i] == (if i in p.chains && p.chains[i].list.Some?
                      then Some(IndirectTable(p.chains[i].parts)) else None)
  }

  ghost predicate Represents(p: Pool, shadow: seq<Descriptor>, freeHead: nat, numUsed: int,
                             lists: seq<Option<seq<Descriptor>>>)
  {
    match p
    case Pool(size, _, free, chains) =>
      && Partitioned(p)
      && |shadow| == size
      && numUsed == NumUsed(p)
      && Linked(shadow, freeHead, free)
      && (forall h :: h in chains ==> Encodes(shadow, chains[h]))
      && Tables(p, lists)
  }

  lemma TakeLinked(shadow: seq<Descriptor>, head: nat, free: seq<nat>, n: nat, shadow': seq<Descriptor>, head': nat)
    requires NoDup(free) && n <= |free| && Linked(shadow, head, free)
    requires SameOutside(shadow, shadow', free[..n])
    requires n < |free| ==> head' == free[n]
    ensures Linked(shadow', head', free[n..])
  {
    forall i | 0 <= i < |free[n..]|
      ensures LinkAt(shadow', free[n..], i)
    {
      assert LinkAt(shadow, free, n + i);
      assert free[n + i] !in free[..n];
    }
  }

  lemma TakeEncodes(p: Pool, n: nat, shadow: seq<Descriptor>, shadow': seq<Descriptor>, h: nat)
    requires Partitioned(p) && n <= |p.free| && h in p.chains
    requires SameOutside(shadow, shadow', p.free[..n]) && Encodes(shadow, p.chains[h])
    ensures Encodes(shadow', p.chains[h])
  {
    forall i | 0 <= i < |p.chains[h].descs|
      ensures p.chains[h].descs[i] !in p.free[..n]
    {
      assert Owns(p, h, p.chains[h].descs[i]);
    }
    EncodesOutside(shadow, shadow', p.free[..n], p.chains[h]);
  }

  lemma TakeTables(p: Pool, lists: seq<Option<seq<Descriptor>>>, c: Chain, lists': seq<Option<seq<Descriptor>>>)
    requires Tables(p, lists) && 0 < |c.descs| <= |p.free| && p.free[0] < p.size && p.free[0] !in p.chains
    requires lists' == if c.list.Some? then lists[p.free[0] := Some(IndirectTable(c.parts))] else lists
    ensures Tables(Take(p, c), lists')
  {
  }

  /** The shadow table after a chain was written over the front of the free list. */
  lemma TakeRepresents(p: Pool, shadow: seq<Descriptor>, freeHead: nat, numUsed: int,
                       lists: seq<Option<seq<Descriptor>>>,
                       c: Chain, shadow': seq<Descriptor>, freeHead': nat, lists': seq<Option<seq<Descriptor>>>)
    requires Represents(p, shadow, freeHead, numUsed, lists)
    requires 0 < |c.descs| <= |p.free| && c.descs == p.free[..|c.descs|]
    requires ChainShape(p.size, p.free[0], c)
    requires SameOutside(shadow, shadow', c.descs) && Encodes(shadow', c)
    requires |c.descs| < |p.free| ==> freeHead' == p.free[|c.descs|]
    requires lists' == if c.list.Some? then lists[freeHead := Some(IndirectTable(c.parts))] else lists
    ensures Represents(Take(p, c), shadow', freeHead', numUsed + |c.descs|, lists')
    ensures p.free[0] !in p.chains
  {
    var p' := Take(p, c);
    TakePartitioned(p, c);
    TakeLinked(shadow, freeHead, p.free, |c.descs|, shadow', freeHead');
    TakeTables(p, lists, c, lists');
    forall h | h in p'.chains
      ensures Encodes(shadow', p'.chains[h])
    {
      if h != p.free[0] {
        TakeEncodes(p, |c.descs|, shadow, shadow', h);
      }
    }
  }

  /** The shadow table after a chain was linked in front of the free list. */
  lemma GiveRepresents(p: Pool, shadow: seq<Descriptor>, freeHead: nat, numUsed: int,
                       lists: seq<Option<seq<Descriptor>>>,
                       head: nat, shadow': seq<Descriptor>, lists': seq<Option<seq<Descriptor>>>)
    requires Represents(p, shadow, freeHead, numUsed, lists) && head in p.chains
    requires SameOutside(shadow, shadow', p.chains[head].descs)
    requires var descs := p.chains[head].descs;
             && (forall i :: 0 <= i < |descs| ==> LinkAt(shadow', descs, i))
             && (descs != [] ==> descs[|descs| - 1] < |shadow'| && shadow'[descs[|descs| - 1]].next == freeHead)
    requires |lists'| == |lists| && forall i :: 0 <= i < |lists| ==> lists'[i] == if i == head then None else lists[i]
    ensures Represents(Give(p, head), shadow', head, numUsed - |p.chains[head].descs|, lists')
  {
    var p' := Give(p, head);
    var descs := p.chains[head].descs;
    GivePartitioned(p, head);
    GiveLinked(shadow, freeHead, p.free, shadow', descs) by {
      forall i | 0 <= i < |p.free|
        ensures p.free[i] !in descs
      {
        if p.free[i] in descs {
          assert Owns(p, head, p.free[i]);
        }
      }
    }
    forall h | h in p'.chains
      ensures Encodes(shadow', p'.chains[h])
    {
      forall i | 0 <= i < |p.chains[h].descs|
        ensures p.chains[h].descs[i] !in descs
      {
        assert Owns(p, h, p.chains[h].descs[i]);
        if p.chains[h].descs[i] in descs {
          assert Owns(p, head, p.chains[h].descs[i]);
        }
      }
      EncodesOutside(shadow, shadow', descs, p.chains[h]);
    }
  }

  lemma GiveLinked(shadow: seq<Descriptor>, freeHead: nat, free: seq<nat>, shadow': seq<Descriptor>, descs: seq<nat>)
    requires Linked(shadow, freeHead, free) && descs != []
    requires SameOutside(shadow, shadow', descs)
    requires forall i :: 0 <= i < |free| ==> free[i] !in descs
    requires forall i :: 0 <= i < |descs| ==> LinkAt(shadow', descs, i)
    requires descs[|descs| - 1] < |shadow'| && shadow'[descs[|descs| - 1]].next == freeHead
    ensures Linked(shadow', descs[0], descs + free)
  {
    var all := descs + free;
    forall i | 0 <= i < |all|
      ensures LinkAt(shadow', all, i)
    {
      if i < |descs| {
        assert LinkAt(shadow', descs, i);
      } else {
        assert LinkAt(shadow, free, i - |descs|);
        assert all[i] == free[i - |descs|];
      }
    }
  }

  // ---------------------------------------------------------------------------------------
  // The loop of `add_direct`

  ghost predicate PlacedAt(now: seq<Descriptor>, free: seq<nat>, parts: seq<Part>, j: nat)
    requires j < |free| && j < |parts|
  {
    free[j] < |now| && Holds(now[free[j]], parts[j], true)
  }

  /** The first `n` descriptors of `free` hold the first `n` buffers, all with the `NEXT` flag. */
  ghost predicate Placed(was: seq<Descriptor>, now: seq<Descriptor>, free: seq<nat>, parts: seq<Part>, n: nat)
    requires n <= |free| && n <= |parts|
  {
    && SameOutside(was, now, free[..n])
    && (forall d :: 0 <= d < |now| ==> now[d].next == was[d].next)
    && (forall j :: 0 <= j < n ==> PlacedAt(now, free, parts, j))
  }

  function PlacePart(d: Descriptor, part: Part): (r: Descriptor) {
    SetBuf(d, part.addr, |part.buffer.bytes|, Flags(true, part.dir == DeviceToDriver, false))
  }

  lemma PlaceOne(was: seq<Descriptor>, now: seq<Descriptor>, free: seq<nat>, parts: seq<Part>, n: nat)
    requires n < |free| && n < |parts| && NoDup(free)
    requires Placed(was, now, free, parts, n) && free[n] < |now|
    ensures Placed(was, now[free[n] := PlacePart(now[free[n]], parts[n])], free, parts, n + 1)
  {
    assert free[..n + 1] == free[..n] + [free[n]];
    var now' := now[free[n] := PlacePart(now[free[n]], parts[n])];
    forall j | 0 <= j < n + 1
      ensures PlacedAt(now', free, parts, j)
    {
      assert j < n ==> PlacedAt(now, free, parts, j);
    }
  }

  /** The shared table holds what the shadow table holds on `descs`, and what it held elsewhere. */
  ghost predicate Mirrors(was: seq<Descriptor>, now: seq<Descriptor>, shadow: seq<Descriptor>, descs: seq<nat>) {
    && |now| == |was| == |shadow|
    && forall d :: 0 <= d < |now| ==> now[d] == if d in descs then shadow[d] else was[d]
  }

  lemma MirrorOne(was: seq<Descriptor>, now: seq<Descriptor>, shadow: seq<Descriptor>, free: seq<nat>, n: nat,
                  d: Descriptor)
    requires n < |free| && NoDup(free) && Mirrors(was, now, shadow, free[..n]) && free[n] < |now|
    ensures Mirrors(was, now[free[n] := d], shadow[free[n] := d], free[..n + 1])
  {
    assert free[..n + 1] == free[..n] + [free[n]];
  }

  /** Clearing the last `NEXT` flag completes the chain, in the shadow and in the shared table. */
  lemma CloseChain(was: seq<Descriptor>, now: seq<Descriptor>, free: seq<nat>, parts: seq<Part>, c: Chain, head: nat,
                   wasDesc: seq<Descriptor>, desc: seq<Descriptor>)
    requires 0 < |parts| <= |free| && NoDup(free) && Linked(was, head, free)
    requires Placed(was, now, free, parts, |parts|) && Mirrors(wasDesc, desc, now, free[..|parts|])
    requires c == Chain(free[..|parts|], parts, None)
    ensures var last := free[|parts| - 1];
            && last < |now| && last < |desc|
            && var d := ClearNext(now[last]);
            && SameOutside(was, now[last := d], c.descs) && Encodes(now[last := d], c)
            && SameOutside(wasDesc, desc[last := d], c.descs) && Encodes(desc[last := d], c)
  {
    var n := |parts|;
    var last := free[n - 1];
    assert PlacedAt(now, free, parts, n - 1);
    var d := ClearNext(now[last]);
    assert last in c.descs by {
      assert c.descs[n - 1] == last;
    }
    var now', desc' := now[last := d], desc[last := d];
    forall i | 0 <= i < n
      ensures EncodesAt(now', c.descs, parts, i)
      ensures EncodesAt(desc', c.descs, parts, i)
    {
      assert c.descs[i] == free[i] && free[i] in c.descs;
      assert PlacedAt(now, free, parts, i);
      assert LinkAt(was, free, i);
    }
  }

  function ClearNext(d: Descriptor): (r: Descriptor) {
    d.(flags := d.flags.(next := false))
  }

  /** All of `add_direct`: after the loop and the closing of the chain, the driver's tables stand
      for the pool without the chain's descriptors, and the shared table holds the chain. */
  lemma DirectRepresents(p: Pool, was: seq<Descriptor>, head: nat, numUsed: int, lists: seq<Option<seq<Descriptor>>>,
                         parts: seq<Part>, now: seq<Descriptor>, freeHead': nat,
                         wasDesc: seq<Descriptor>, desc: seq<Descriptor>)
    requires Represents(p, was, head, numUsed, lists)
    requires parts != [] && !Full(p, |parts|) && !GoesIndirect(p, |parts|) && |parts| <= |p.free|
    requires forall i :: 0 <= i < |parts| ==> BufferOk(parts[i].buffer)
    requires Placed(was, now, p.free, parts, |parts|) && Mirrors(wasDesc, desc, now, p.free[..|parts|])
    requires |parts| < |p.free| ==> freeHead' == p.free[|parts|]
    ensures var c := ChainFor(p, parts, 0);
            var last := p.free[|parts| - 1];
            && |c.descs| == |parts| && head == p.free[0] && last < |now| && last < |desc|
            && Represents(Take(p, c), now[last := ClearNext(now[last])], freeHead', numUsed + |parts|, lists)
            && SameOutside(wasDesc, desc[last := ClearNext(now[last])], c.descs)
            && Encodes(desc[last := ClearNext(now[last])], c)
  {
    var c := ChainFor(p, parts, 0);
    var last := p.free[|parts| - 1];
    ChainForShape(p, parts, 0);
    CloseChain(was, now, p.free, parts, c, head, wasDesc, desc);
    TakeRepresents(p, was, head, numUsed, lists, c, now[last := ClearNext(now[last])], freeHead', lists);
  }

  // ---------------------------------------------------------------------------------------
  // `add_indirect`

  lemma IndirectRepresents(p: Pool, was: seq<Descriptor>, head: nat, numUsed: int, lists: seq<Option<seq<Descriptor>>>,
                           parts: seq<Part>, listAddr: nat, wasDesc: seq<Descriptor>)
    requires Represents(p, was, head, numUsed, lists) && |wasDesc| == |was|
    requires parts != [] && !Full(p, |parts|) && GoesIndirect(p, |parts|)
    requires forall i :: 0 <= i < |parts| ==> BufferOk(parts[i].buffer)
    ensures head < |was| == |lists| && lists[head].None?
    ensures var c := ChainFor(p, parts, listAddr);
            var d := SetBuf(was[head], listAddr, DESCRIPTOR_SIZE * |parts|, Flags(false, false, true));
            && |c.descs| == 1 <= |p.free| && head == p.free[0]
            && Represents(Take(p, c), was[head := d], was[head].next, numUsed + 1,
                          lists[head := Some(IndirectTable(parts))])
            && SameOutside(wasDesc, wasDesc[head := d], c.descs)
            && Encodes(wasDesc[head := d], c)
  {
    var c := ChainFor(p, parts, listAddr);
    ChainForShape(p, parts, listAddr);
    TakePartitioned(p, c);
    assert LinkAt(was, p.free, 0);
    var d := SetBuf(was[head], listAddr, DESCRIPTOR_SIZE * |parts|, Flags(false, false, true));
    assert c.descs == [head];
    TakeRepresents(p, was, head, numUsed, lists, c, was[head := d], was[head].next,
                   lists[head := Some(IndirectTable(parts))]);
  }

  // ---------------------------------------------------------------------------------------
  // `recycle_descriptors`

  /** No address is left in these descriptors. */
  ghost predicate Cleared(table: seq<Descriptor>, descs: seq<nat>) {
    forall i :: 0 <= i < |descs| ==> descs[i] < |table| && table[descs[i]].addr == table[descs[i]].len == 0
  }

  ghost predicate RecycledAt(now: seq<Descriptor>, descs: seq<nat>, tail: nat, j: nat)
    requires j < |descs|
  {
    && descs[j] < |now| && now[descs[j]].addr == now[descs[j]].len == 0
    && now[descs[j]].next == if j + 1 < |descs| then descs[j + 1] else tail
  }

  /** The first `n` descriptors of a chain are back in the free list, which ends at `tail`. */
  ghost predicate Recycled(was: seq<Descriptor>, now: seq<Descriptor>, descs: seq<nat>, tail: nat, n: nat)
    requires n <= |descs|
  {
    && SameOutside(was, now, descs[..n])
    && (forall j :: 0 <= j < n ==> RecycledAt(now, descs, tail, j))
  }

  lemma RecycledCleared(was: seq<Descriptor>, now: seq<Descriptor>, descs: seq<nat>, tail: nat)
    requires Recycled(was, now, descs, tail, |descs|)
    ensures Cleared(now, descs)
  {
    forall i | 0 <= i < |descs|
      ensures descs[i] < |now| && now[descs[i]].addr == now[descs[i]].len == 0
    {
      assert RecycledAt(now, descs, tail, i);
    }
  }

  /** No address of the chain is left in the driver's table, nor, if it was a direct one, in the device's. */
  ghost predicate Wiped(c: Chain, shadow: seq<Descriptor>, desc: seq<Descriptor>) {
    Cleared(shadow, c.descs) && (c.list.None? ==> Cleared(desc, c.descs))
  }

  function RecycleDesc(d: Descriptor, tail: nat): (r: Descriptor) {
    if d.flags.next then UnsetBuf(d) else UnsetBuf(d).(next := tail)
  }

  lemma RecycleOne(was: seq<Descriptor>, now: seq<Descriptor>, c: Chain, tail: nat, n: nat)
    requires c.list.None? && Encodes(was, c) && NoDup(c.descs) && n < |c.descs|
    requires Recycled(was, now, c.descs, tail, n)
    ensures c.descs[n] < |now| && Holds(now[c.descs[n]], c.parts[n], n + 1 < |c.descs|)
    ensures n + 1 < |c.descs| ==> now[c.descs[n]].next == c.descs[n + 1]
    ensures Recycled(was, now[c.descs[n] := RecycleDesc(now[c.descs[n]], tail)], c.descs, tail, n + 1)
  {
    var descs := c.descs;
    assert EncodesAt(was, descs, c.parts, n);
    assert descs[..n + 1] == descs[..n] + [descs[n]];
    assert descs[n] !in descs[..n];
    var now' := now[descs[n] := RecycleDesc(now[descs[n]], tail)];
    forall j | 0 <= j < n + 1
      ensures RecycledAt(now', descs, tail, j)
    {
      assert j < n ==> RecycledAt(now, descs, tail, j);
    }
  }

  /** The `INDIRECT` flag of the shadow entry tells which kind of chain starts there. */
  lemma IndirectFlag(p: Pool, shadow: seq<Descriptor>, freeHead: nat, numUsed: int,
                     lists: seq<Option<seq<Descriptor>>>, head: nat)
    requires Represents(p, shadow, freeHead, numUsed, lists) && head in p.chains
    ensures head < |shadow| && (shadow[head].flags.indirect <==> p.chains[head].list.Some?)
  {
    var c := p.chains[head];
    assert ChainShape(p.size, head, c) && Encodes(shadow, c);
    if c.list.None? {
      assert EncodesAt(shadow, c.descs, c.parts, 0);
    }
  }

  /** All of the direct branch of `recycle_descriptors`. */
  lemma RecycleRepresents(p: Pool, was: seq<Descriptor>, freeHead: nat, numUsed: int,
                          lists: seq<Option<seq<Descriptor>>>, head: nat, now: seq<Descriptor>)
    requires Represents(p, was, freeHead, numUsed, lists) && head in p.chains && p.chains[head].list.None?
    requires Recycled(was, now, p.chains[head].descs, freeHead, |p.chains[head].descs|)
    ensures Represents(Give(p, head), now, head, numUsed - |p.chains[head].descs|, lists)
  {
    var descs := p.chains[head].descs;
    var n := |descs|;
    assert descs[..n] == descs;
    assert ChainShape(p.size, head, p.chains[head]);
    forall i | 0 <= i < n
      ensures LinkAt(now, descs, i)
    {
      assert RecycledAt(now, descs, freeHead, i);
    }
    assert RecycledAt(now, descs, freeHead, n - 1);
    GiveRepresents(p, was, freeHead, numUsed, lists, head, now, lists);
  }

  /** All of the indirect branch of `recycle_descriptors`. */
  lemma RecycleIndirectRepresents(p: Pool, was: seq<Descriptor>, freeHead: nat, numUsed: int,
                                  lists: seq<Option<seq<Descriptor>>>, head: nat)
    requires Represents(p, was, freeHead, numUsed, lists) && head in p.chains && p.chains[head].list.Some?
    ensures head < |was| && head < |lists|
    ensures lists[head] == Some(IndirectTable(p.chains[head].parts))
    ensures was[head].addr == p.chains[head].list.value
    ensures Represents(Give(p, head), was[head := UnsetBuf(was[head]).(next := freeHead)], head, numUsed - 1,
                       lists[head := None])
  {
    var c := p.chains[head];
    assert ChainShape(p.size, head, c);
    assert Encodes(was, c);
    var now := was[head := UnsetBuf(was[head]).(next := freeHead)];
    assert LinkAt(now, c.descs, 0);
    GiveRepresents(p, was, freeHead, numUsed, lists, head, now, lists[head := None]);
  }
}
