/** How a device decodes a descriptor chain, and what it sees of the chains this driver publishes. */
module ChainWalk {
  import opened Wrappers
  import opened Words
  import opened Descriptors
  import opened DescriptorPool
  import opened RingMemory

  /** A piece of bus memory that a descriptor points to. */
  datatype Segment = Segment(addr: nat, len: nat)

  /** `Endless` stands for a walk that has not come to an end within the steps allowed. */
  datatype Walked =
    | Buffers(readable: seq<Segment>, writable: seq<Segment>)
    | Bad(error: Error)
    | Endless

  /** The loop of `pop_avail` from `token` on, for at most `steps` descriptors. */
  function Walk(table: seq<Descriptor>, token: nat, readable: seq<Segment>, writable: seq<Segment>,
                steps: nat): (r: Walked)
    decreases steps
  {
    if steps == 0 then Endless
    else if token >= |table| then Bad(WrongToken)
    else
      var d := table[token];
      if d.flags.indirect then Bad(Panicked)
      else if !d.flags.write && writable != [] then Bad(InvalidDescriptor)
      else
        var here := Segment(d.addr, d.len);
        var readable' := if d.flags.write then readable else readable + [here];
        var writable' := if d.flags.write then writable + [here] else writable;
        if d.flags.next then Walk(table, d.next, readable', writable', steps - 1) else Buffers(readable', writable')
  }

  /** Enough steps for every walk that ends at all. */
  function WalkBound(table: seq<Descriptor>): (n: nat) {
    2 * |table| + 1
  }

  /** The bytes of a descriptor in memory: its address, its length, its flags and its link (section 2.6.5 of
      VirtIO v1.1). */
  const ENTRY_BYTES: nat := 8 + 4 + 2 + 2

  /** The table that an indirect descriptor of this length announces, where memory holds `stored`: none if the length
      is not that of whole entries, or goes beyond what is there. */
  function Announced(len: nat, stored: seq<Descriptor>): (table: Option<seq<Descriptor>>) {
    if len % ENTRY_BYTES != 0 || len / ENTRY_BYTES > |stored| then None else Some(stored[..len / ENTRY_BYTES])
  }

  /** How a device that negotiated `VIRTIO_F_INDIRECT_DESC` decodes the chain at `head`: an indirect descriptor sends it
      to the table found in bus memory, of which it sees as much as the descriptor's length covers (section 2.6.5.3 of
      VirtIO v1.1). */
  function Decode(table: seq<Descriptor>, tables: map<nat, seq<Descriptor>>, head: nat): (r: Walked)
  {
    if head >= |table| then Bad(WrongToken)
    else if !table[head].flags.indirect then Walk(table, head, [], [], WalkBound(table))
    else if table[head].addr !in tables then Bad(InvalidDescriptor)
    else
      match Announced(table[head].len, tables[table[head].addr])
      case None => Bad(InvalidDescriptor)
      case Some(seen) => Walk(seen, 0, [], [], WalkBound(seen))
  }

  // ---------------------------------------------------------------------------------------
  // Chains published by the driver

  function SegmentOf(p: Part): (s: Segment) {
    Segment(p.addr, |p.buffer.bytes|)
  }

  function Segments(parts: seq<Part>, lo: nat, hi: nat): (ss: seq<Segment>)
    requires hi <= |parts|
    ensures |ss| == if lo <= hi then hi - lo else 0
    ensures forall i :: 0 <= i < |ss| ==> ss[i] == SegmentOf(parts[lo + i])
  {
    if hi <= lo then [] else Segments(parts, lo, hi - 1) + [SegmentOf(parts[hi - 1])]
  }

  /** The first `n` buffers are for reading and the others for writing. */
  ghost predicate Ordered(parts: seq<Part>, n: nat) {
    n <= |parts| && forall i :: 0 <= i < |parts| ==> (parts[i].dir == DriverToDevice <==> i < n)
  }

  ghost function SeenBy(parts: seq<Part>, n: nat): (r: Walked)
    requires n <= |parts|
  {
    Buffers(Segments(parts, 0, n), Segments(parts, n, |parts|))
  }

  /** The buffers found so far, the next one included. */
  lemma SegmentsGrow(parts: seq<Part>, n: nat, k: nat)
    requires n <= |parts| && k < |parts|
    ensures Segments(parts, 0, Min(k + 1, n))
            == Segments(parts, 0, Min(k, n)) + (if k < n then [SegmentOf(parts[k])] else [])
    ensures Segments(parts, n, k + 1) == Segments(parts, n, k) + (if k < n then [] else [SegmentOf(parts[k])])
  {
  }

  lemma {:induction false} WalkFrom(table: seq<Descriptor>, descs: seq<nat>, parts: seq<Part>, n: nat, i: nat,
                                    steps: nat)
    requires |descs| == |parts| && i < |parts| && Ordered(parts, n)
    requires forall j :: 0 <= j < |descs| ==> EncodesAt(table, descs, parts, j)
    requires steps >= |parts| - i
    ensures Walk(table, descs[i], Segments(parts, 0, if i < n then i else n), Segments(parts, n, i), steps)
            == SeenBy(parts, n)
    decreases |parts| - i
  {
    assert EncodesAt(table, descs, parts, i);
    SegmentsGrow(parts, n, i);
    assert parts[i].dir == DriverToDevice <==> i < n;
    if i + 1 < |parts| {
      WalkFrom(table, descs, parts, n, i + 1, steps - 1);
    }
  }

  /** The descriptors that a walk of so many steps reads, in order. */
  function Path(table: seq<Descriptor>, token: nat, steps: nat): (ds: seq<nat>)
    decreases steps
  {
    if steps == 0 || token >= |table| then []
    else [token] + if table[token].flags.next then Path(table, table[token].next, steps - 1) else []
  }

  lemma {:induction false} PathFrom(table: seq<Descriptor>, descs: seq<nat>, parts: seq<Part>, i: nat, steps: nat)
    requires |descs| == |parts| && i < |parts|
    requires forall j :: 0 <= j < |descs| ==> EncodesAt(table, descs, parts, j)
    ensures Path(table, descs[i], steps) == descs[i..Min(i + steps, |descs|)]
    decreases |parts| - i
  {
    assert EncodesAt(table, descs, parts, i);
    if steps > 0 {
      var end := Min(i + steps, |descs|);
      if i + 1 < |parts| {
        PathFrom(table, descs, parts, i + 1, steps - 1);
      }
      assert descs[i..end] == [descs[i]] + descs[i + 1..end];
    }
  }

  /** The walk of a direct chain reads the descriptors of the chain, one for each buffer, and ends; it finds the
      buffers in order. With fewer steps it has not ended. The descriptors of a chain are distinct. */
  lemma WalkDirect(table: seq<Descriptor>, c: Chain, n: nat, steps: nat)
    requires c.list.None? && c.parts != [] && Encodes(table, c) && Ordered(c.parts, n)
    ensures Walk(table, c.descs[0], [], [], steps)
            == if steps < |c.parts| then Endless else SeenBy(c.parts, n)
    ensures Path(table, c.descs[0], steps) == c.descs[..Min(steps, |c.parts|)]
    ensures NoDup(c.descs) ==> NoDup(Path(table, c.descs[0], steps))
  {
    PathFrom(table, c.descs, c.parts, 0, steps);
    if steps < |c.parts| {
      WalkUnfinished(table, c.descs, c.parts, n, 0, steps);
    } else {
      WalkFrom(table, c.descs, c.parts, n, 0, steps);
    }
  }

  lemma {:induction false} WalkUnfinished(table: seq<Descriptor>, descs: seq<nat>, parts: seq<Part>, n: nat, i: nat,
                                          steps: nat)
    requires |descs| == |parts| && i < |parts| && Ordered(parts, n)
    requires forall j :: 0 <= j < |descs| ==> EncodesAt(table, descs, parts, j)
    requires steps < |parts| - i
    ensures Walk(table, descs[i], Segments(parts, 0, if i < n then i else n), Segments(parts, n, i), steps) == Endless
    decreases steps
  {
    if steps > 0 {
      assert EncodesAt(table, descs, parts, i);
      WalkUnfinished(table, descs, parts, n, i + 1, steps - 1);
    }
  }

  /** The table of an indirect chain is itself a direct chain over the descriptors 0, 1, 2, ... */
  lemma TableEncodes(parts: seq<Part>)
    ensures Encodes(IndirectTable(parts), Chain(seq(|parts|, i => i), parts, None))
  {
    var c := Chain(seq(|parts|, i => i), parts, None);
    forall i | 0 <= i < |parts|
      ensures EncodesAt(IndirectTable(parts), c.descs, parts, i)
    {
    }
  }

  /** Direct and indirect publication mean the same: whichever form the driver chose, the device
      sees the same readable and writable buffers, in the order of the request. */
  lemma DecodeChain(table: seq<Descriptor>, tables: map<nat, seq<Descriptor>>, size: nat, head: nat, c: Chain, n: nat)
    requires ChainShape(size, head, c) && |table| == size && Encodes(table, c) && Ordered(c.parts, n)
    requires c.list.Some? ==> c.list.value in tables && tables[c.list.value] == IndirectTable(c.parts)
    ensures Decode(table, tables, head) == SeenBy(c.parts, n)
  {
    if c.list.None? {
      assert EncodesAt(table, c.descs, c.parts, 0);
      WalkDirect(table, c, n, WalkBound(table));
    } else {
      var t := IndirectTable(c.parts);
      assert t[..|c.parts|] == t;
      TableEncodes(c.parts);
      WalkDirect(t, Chain(seq(|c.parts|, i => i), c.parts, None), n, WalkBound(t));
    }
  }

  /** In terms of the caller: the readable buffers are the inputs and the writable ones the outputs. */
  lemma SeenInputsOutputs(inputs: seq<Buffer>, outputs: seq<Buffer>, addrs: seq<nat>)
    requires |addrs| == |inputs| + |outputs|
    ensures var parts := Parts(inputs, outputs, addrs);
            && Ordered(parts, |inputs|)
            && var seen := SeenBy(parts, |inputs|);
            && |seen.readable| == |inputs| && |seen.writable| == |outputs|
            && (forall i :: 0 <= i < |inputs| ==> seen.readable[i] == Segment(addrs[i], |inputs[i].bytes|))
            && (forall i :: 0 <= i < |outputs| ==> seen.writable[i] == Segment(addrs[|inputs| + i], |outputs[i].bytes|))
  {
    var parts := Parts(inputs, outputs, addrs);
    var seen := SeenBy(parts, |inputs|);
    forall i | 0 <= i < |inputs|
      ensures seen.readable[i] == Segment(addrs[i], |inputs[i].bytes|)
    {
      assert parts[i] == PartAt(inputs, outputs, addrs, i);
    }
    forall i | 0 <= i < |outputs|
      ensures seen.writable[i] == Segment(addrs[|inputs| + i], |outputs[i].bytes|)
    {
      assert parts[|inputs| + i] == PartAt(inputs, outputs, addrs, |inputs| + i);
    }
  }

  // ---------------------------------------------------------------------------------------
  // Arbitrary memory: a walk either ends within the bound or never ends

  /** Whether the walk is still going after `steps` descriptors; all that matters of the buffers
      collected so far is whether a writable one was among them. */
  predicate Going(table: seq<Descriptor>, token: nat, wrote: bool, steps: nat)
    decreases steps
  {
    steps == 0 ||
    (&& token < |table|
     && !table[token].flags.indirect
     && (table[token].flags.write || !wrote)
     && table[token].flags.next
     && Going(table, table[token].next, wrote || table[token].flags.write, steps - 1))
  }

  lemma {:induction false} EndlessIsGoing(table: seq<Descriptor>, token: nat, readable: seq<Segment>,
                                          writable: seq<Segment>, steps: nat)
    ensures Walk(table, token, readable, writable, steps) == Endless <==> Going(table, token, writable != [], steps)
    decreases steps
  {
    if steps > 0 && token < |table| {
      var d := table[token];
      var here := Segment(d.addr, d.len);
      EndlessIsGoing(table, d.next, if d.flags.write then readable else readable + [here],
                     if d.flags.write then writable + [here] else writable, steps - 1);
    }
  }

  function States(n: nat): (r: set<(nat, bool)>)
    ensures |r| <= 2 * n
    ensures forall token: nat, wrote: bool :: (token, wrote) in r <==> token < n
  {
    if n == 0 then {} else States(n - 1) + {(n - 1, false), (n - 1, true)}
  }

  predicate StillGoing(table: seq<Descriptor>, s: (nat, bool), steps: nat) {
    Going(table, s.0, s.1, steps)
  }

  /** The states from which the walk goes on for `steps` more descriptors. */
  ghost function Survivors(table: seq<Descriptor>, steps: nat): (r: set<(nat, bool)>) {
    set s | s in States(|table|) && StillGoing(table, s, steps)
  }

  lemma {:induction false} GoingLess(table: seq<Descriptor>, token: nat, wrote: bool, steps: nat)
    requires Going(table, token, wrote, steps + 1)
    ensures Going(table, token, wrote, steps)
    decreases steps
  {
    if steps > 0 {
      GoingLess(table, table[token].next, wrote || table[token].flags.write, steps - 1);
    }
  }

  lemma SurvivorsShrink(table: seq<Descriptor>, steps: nat)
    ensures Survivors(table, steps + 1) <= Survivors(table, steps)
  {
    var more := Survivors(table, steps + 1);
    forall s | s in more
      ensures s in Survivors(table, steps)
    {
      GoingLess(table, s.0, s.1, steps);
    }
  }

  /** Once no state drops out, none ever will. */
  lemma SurvivorsStay(table: seq<Descriptor>, steps: nat)
    requires steps > 0 && Survivors(table, steps) == Survivors(table, steps + 1)
    ensures Survivors(table, steps + 1) == Survivors(table, steps + 2)
  {
    SurvivorsShrink(table, steps + 1);
    var more := Survivors(table, steps + 1);
    forall s | s in more
      ensures s in Survivors(table, steps + 2)
    {
      var (token, wrote) := s;
      assert token < |table| && StillGoing(table, s, steps + 1);
      var t := (table[token].next, wrote || table[token].flags.write);
      assert StillGoing(table, t, steps) && t.0 < |table|;
      assert t in States(|table|);
      assert t in more && StillGoing(table, t, steps + 1);
      assert StillGoing(table, s, steps + 2);
    }
  }

  /** At every length either the survivors have become fewer, or their number no longer changes. */
  lemma {:induction false} SurvivorsSettle(table: seq<Descriptor>, steps: nat)
    requires steps > 0
    ensures || |Survivors(table, steps)| + steps <= 2 * |table| + 1
            || Survivors(table, steps) == Survivors(table, steps + 1)
  {
    if steps == 1 {
      SubsetSize(Survivors(table, 1), States(|table|));
    } else {
      SurvivorsSettle(table, steps - 1);
      if Survivors(table, steps - 1) == Survivors(table, steps) {
        SurvivorsStay(table, steps - 1);
      } else {
        SurvivorsShrink(table, steps - 1);
        FewerElements(Survivors(table, steps), Survivors(table, steps - 1));
      }
    }
  }

  lemma FewerElements<T>(a: set<T>, b: set<T>)
    requires a < b
    ensures |a| < |b|
  {
    assert b - a != {};
    var x :| x in b - a;
    SubsetSize(a, b - {x});
  }

  lemma {:induction false} SurvivorsForever(table: seq<Descriptor>, steps: nat)
    requires steps > 0 && Survivors(table, WalkBound(table)) != {}
    ensures Survivors(table, WalkBound(table)) <= Survivors(table, steps)
  {
    var bound := WalkBound(table);
    if steps == bound {
    } else if steps < bound {
      ShrinkTo(table, steps, bound);
    } else {
      SurvivorsForever(table, steps - 1);
      assert Survivors(table, bound) == Survivors(table, bound + 1) by {
        SurvivorsSettle(table, bound);
        var s :| s in Survivors(table, bound);
        SubsetSize({s}, Survivors(table, bound));
      }
      StayTo(table, bound, steps - 1);
    }
  }

  lemma {:induction false} ShrinkTo(table: seq<Descriptor>, lo: nat, hi: nat)
    requires lo <= hi
    ensures Survivors(table, hi) <= Survivors(table, lo)
    decreases hi
  {
    if lo < hi {
      ShrinkTo(table, lo, hi - 1);
      SurvivorsShrink(table, hi - 1);
    }
  }

  lemma {:induction false} StayTo(table: seq<Descriptor>, lo: nat, hi: nat)
    requires 0 < lo <= hi && Survivors(table, lo) == Survivors(table, lo + 1)
    ensures Survivors(table, hi) == Survivors(table, hi + 1) == Survivors(table, lo)
    decreases hi
  {
    if lo < hi {
      StayTo(table, lo, hi - 1);
      SurvivorsStay(table, hi - 1);
    }
  }

  /** Whatever the memory holds, a walk that has not ended within the bound never ends: the source's
      unbounded loop and the bounded one differ in nothing else. */
  lemma BoundSuffices(table: seq<Descriptor>, token: nat, steps: nat)
    requires Walk(table, token, [], [], WalkBound(table)) == Endless
    ensures Walk(table, token, [], [], steps) == Endless
  {
    var bound := WalkBound(table);
    EndlessIsGoing(table, token, [], [], bound);
    EndlessIsGoing(table, token, [], [], steps);
    if steps > 0 {
      assert StillGoing(table, (token, false), bound);
      assert (token, false) in Survivors(table, bound);
      SurvivorsForever(table, steps);
    }
  }

  /** More steps do not change a walk that has ended. */
  lemma {:induction false} MoreSteps(table: seq<Descriptor>, token: nat, readable: seq<Segment>, writable: seq<Segment>,
                                     steps: nat, more: nat)
    requires steps <= more && Walk(table, token, readable, writable, steps) != Endless
    ensures Walk(table, token, readable, writable, more) == Walk(table, token, readable, writable, steps)
    decreases steps
  {
    if token < |table| {
      var d := table[token];
      var here := Segment(d.addr, d.len);
      if !d.flags.indirect && (d.flags.write || writable == []) && d.flags.next {
        MoreSteps(table, d.next, if d.flags.write then readable else readable + [here],
                  if d.flags.write then writable + [here] else writable, steps - 1, more - 1);
      }
    }
  }

  // ---------------------------------------------------------------------------------------
  // What comes out of a walk in arbitrary memory

  /** The descriptor that the walk has come to after `k` others, and whether one of those was for writing. */
  function Comes(table: seq<Descriptor>, token: nat, wrote: bool, k: nat): (s: (nat, bool))
    requires Going(table, token, wrote, k)
    decreases k
  {
    if k == 0 then (token, wrote) else Comes(table, table[token].next, wrote || table[token].flags.write, k - 1)
  }

  /** After `k` descriptors the walk comes to one that is answered with this error: one outside the table, an indirect
      one, which stops the program, or one for reading behind one for writing. */
  predicate FaultAt(table: seq<Descriptor>, token: nat, wrote: bool, k: nat, error: Error) {
    && Going(table, token, wrote, k)
    && var (at, before) := Comes(table, token, wrote, k);
    match error
    case WrongToken => at >= |table|
    case Panicked => at < |table| && table[at].flags.indirect
    case InvalidDescriptor => at < |table| && !table[at].flags.indirect && !table[at].flags.write && before
    case _ => false
  }

  lemma {:induction false} FaultFound(table: seq<Descriptor>, token: nat, readable: seq<Segment>,
                                      writable: seq<Segment>, steps: nat, error: Error) returns (k: nat)
    requires Walk(table, token, readable, writable, steps) == Bad(error)
    ensures k < steps && FaultAt(table, token, writable != [], k, error)
    decreases steps
  {
    k := 0;
    if Going(table, token, writable != [], 1) {
      var d := table[token];
      var here := Segment(d.addr, d.len);
      var writable' := if d.flags.write then writable + [here] else writable;
      var rest := FaultFound(table, d.next, if d.flags.write then readable else readable + [here], writable', steps - 1,
                             error);
      assert (writable' != []) == (writable != [] || d.flags.write);
      k := rest + 1;
    }
  }

  lemma {:induction false} FaultFails(table: seq<Descriptor>, token: nat, readable: seq<Segment>,
                                      writable: seq<Segment>, steps: nat, k: nat, error: Error)
    requires k < steps && FaultAt(table, token, writable != [], k, error)
    ensures Walk(table, token, readable, writable, steps) == Bad(error)
    decreases k
  {
    if k > 0 {
      var d := table[token];
      var here := Segment(d.addr, d.len);
      var writable' := if d.flags.write then writable + [here] else writable;
      assert (writable' != []) == (writable != [] || d.flags.write);
      FaultFails(table, d.next, if d.flags.write then readable else readable + [here], writable', steps - 1, k - 1,
                 error);
    }
  }

  /** A walk answers an error exactly if it comes to a descriptor that calls for it, within its steps. */
  lemma WalkFails(table: seq<Descriptor>, token: nat, steps: nat, error: Error)
    ensures Walk(table, token, [], [], steps) == Bad(error) <==>
              exists k: nat :: k < steps && FaultAt(table, token, false, k, error)
  {
    if Walk(table, token, [], [], steps) == Bad(error) {
      var k := FaultFound(table, token, [], [], steps, error);
    }
    if k: nat :| k < steps && FaultAt(table, token, false, k, error) {
      FaultFails(table, token, [], [], steps, k, error);
    }
  }

  /** The buffers for reading, or for writing, of the descriptors from `token` on, in order. */
  function Along(table: seq<Descriptor>, token: nat, write: bool, steps: nat): (ss: seq<Segment>)
    decreases steps
  {
    if steps == 0 || token >= |table| then []
    else
      var d := table[token];
      var rest := if d.flags.next then Along(table, d.next, write, steps - 1) else [];
      if d.flags.write == write then [Segment(d.addr, d.len)] + rest else rest
  }

  /** A walk that ends has found the buffers of the descriptors on its way, in order. */
  lemma {:induction false} WalkFinds(table: seq<Descriptor>, token: nat, readable: seq<Segment>, writable: seq<Segment>,
                                     steps: nat)
    requires Walk(table, token, readable, writable, steps).Buffers?
    ensures Walk(table, token, readable, writable, steps)
            == Buffers(readable + Along(table, token, false, steps), writable + Along(table, token, true, steps))
    decreases steps
  {
    var d := table[token];
    var here := Segment(d.addr, d.len);
    if !d.flags.next {
      assert Along(table, token, !d.flags.write, steps) == [];
    } else if d.flags.write {
      WalkFinds(table, d.next, readable, writable + [here], steps - 1);
      Regroup(writable, [here], Along(table, d.next, true, steps - 1));
    } else {
      WalkFinds(table, d.next, readable + [here], writable, steps - 1);
      Regroup(readable, [here], Along(table, d.next, false, steps - 1));
    }
  }
}
