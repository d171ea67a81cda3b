/** The memory that driver and device share for one queue (section 2.6 of VirtIO v1.1), and what
    the driver's steps may do to it. */
module RingMemory {
  import opened Words
  import opened Descriptors
  import opened DescriptorPool

  datatype UsedElem = UsedElem(id: nat, len: nat)

  /** The contents of the shared memory at one moment: descriptor table, available ring, used ring. */
  datatype Memory = Memory(
    desc: seq<Descriptor>,
    availFlags: nat, availIdx: nat, avail: seq<nat>, usedEvent: nat,
    usedFlags: nat, usedIdx: nat, used: seq<UsedElem>, availEvent: nat)

  /** The shared memory itself. Either side may write any part of it between two steps. */
  class Shared {
    var m: Memory

    /** Zeroed DMA memory for a queue of the given size. */
    constructor (size: nat)
      ensures Fits(m, size)
      ensures m.availFlags == m.availIdx == m.usedEvent == m.usedFlags == m.usedIdx == m.availEvent == 0
    {
      m := Memory(seq(size, _ => Descriptor(0, 0, Flags(false, false, false), 0)),
                  0, 0, seq(size, _ => 0), 0,
                  0, 0, seq(size, _ => UsedElem(0, 0)), 0);
    }
  }

  ghost predicate Fits(m: Memory, size: nat) {
    |m.desc| == |m.avail| == |m.used| == size
  }

  /** Descriptor `i` of a direct chain describes buffer `i` and links to descriptor `i + 1`. */
  ghost predicate EncodesAt(table: seq<Descriptor>, descs: seq<nat>, parts: seq<Part>, i: nat)
    requires i < |descs| == |parts|
  {
    && descs[i] < |table|
    && Holds(table[descs[i]], parts[i], i + 1 < |descs|)
    && (i + 1 < |descs| ==> table[descs[i]].next == descs[i + 1])
  }

  /** `table` holds the published descriptors of `c`. */
  ghost predicate Encodes(table: seq<Descriptor>, c: Chain) {
    match c
    case Chain(descs, parts, Some(addr)) =>
      && |descs| == 1 && descs[0] < |table|
      && table[descs[0]].addr == addr
      && table[descs[0]].len == DESCRIPTOR_SIZE * |parts|
      && table[descs[0]].flags == Flags(false, false, true)
    case Chain(descs, parts, None) =>
      && |descs| == |parts|
      && (forall i :: 0 <= i < |descs| ==> EncodesAt(table, descs, parts, i))
  }

  /** Two tables agree on every descriptor that is not in `descs`. */
  ghost predicate SameOutside(t: seq<Descriptor>, t': seq<Descriptor>, descs: seq<nat>) {
    && |t| == |t'|
    && forall d :: 0 <= d < |t| && d !in descs ==> t'[d] == t[d]
  }

  /** What a successful `add` does to the shared memory. */
  ghost predicate Publishes(m: Memory, m': Memory, idx: nat, c: Chain, head: nat) {
    && 0 < |m.avail|
    && m' == m.(desc := m'.desc, avail := m.avail[Slot(idx, |m.avail|) := head], availIdx := (idx + 1) % U16)
    && SameOutside(m.desc, m'.desc, c.descs)
    && Encodes(m'.desc, c)
  }

  /** What a successful `pop_used` does to the shared memory. */
  ghost predicate Reclaims(m: Memory, m': Memory, c: Chain, usedEvent: nat) {
    && m' == m.(desc := m'.desc, usedEvent := usedEvent)
    && SameOutside(m.desc, m'.desc, c.descs)
  }

  /** `should_notify` on the driver side. */
  predicate NeedsNotify(eventIdx: bool, availIdx: nat, availEvent: nat, usedFlags: nat) {
    if eventIdx then availIdx >= (availEvent + 1) % U16 else usedFlags % 2 == 0
  }

  lemma EncodesOutside(t: seq<Descriptor>, t': seq<Descriptor>, descs: seq<nat>, c: Chain)
    requires Encodes(t, c) && SameOutside(t, t', descs)
    requires forall i :: 0 <= i < |c.descs| ==> c.descs[i] !in descs
    ensures Encodes(t', c)
  {
    if c.list.None? {
      forall i | 0 <= i < |c.descs|
        ensures EncodesAt(t', c.descs, c.parts, i)
      {
        assert EncodesAt(t, c.descs, c.parts, i);
      }
    }
  }
}
