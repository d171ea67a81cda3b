/** The device side of a split virtqueue. */
module DeviceVirtQueue {
  import opened Wrappers
  import opened Words
  import opened Descriptors
  import opened RingMemory
  import opened ChainWalk

  /** What the device finds in bus memory: bytes, or the table of an indirect chain. */
  datatype Cell = Bytes(bytes: seq<byte>) | Entries(table: seq<Descriptor>)

  type Ram = map<nat, Cell>

  /** The bytes of a segment. Mapping a bus address is taken to succeed: memory that nobody shared
      reads as zeros. */
  function ReadSegment(ram: Ram, s: Segment): (b: seq<byte>)
    ensures |b| == s.len
  {
    if s.addr in ram && ram[s.addr].Bytes? && s.len <= |ram[s.addr].bytes| then ram[s.addr].bytes[..s.len]
    else seq(s.len, _ => 0)
  }

  function Pieces(ram: Ram, ss: seq<Segment>): (ps: seq<seq<byte>>) {
    seq(|ss|, i requires 0 <= i < |ss| => ReadSegment(ram, ss[i]))
  }

  /** The bytes of several segments, one after the other. */
  function Gather(ram: Ram, ss: seq<Segment>): (b: seq<byte>) {
    Concat(Pieces(ram, ss))
  }

  /** A segment after `bytes` were copied to its start. */
  function WriteSegment(ram: Ram, s: Segment, bytes: seq<byte>): (ram': Ram)
    requires |bytes| <= s.len
  {
    ram[s.addr := Bytes(bytes + ReadSegment(ram, s)[|bytes|..])]
  }

  datatype Popped = Popped(readable: seq<Segment>, writable: seq<Segment>, head: nat)

  /** What `pop_avail` answers when the available ring holds `head` in the next slot. */
  function PopResult(table: seq<Descriptor>, head: nat): (r: Result<Option<Popped>, Error>) {
    match Walk(table, head, [], [], WalkBound(table))
    case Buffers(readable, writable) => Ok(Some(Popped(readable, writable, head)))
    case Bad(error) => Err(error)
    case Endless => Err(Diverges)
  }

  /** What `add_used` does to the shared memory. */
  ghost predicate Returns(m: Memory, m': Memory, idx: nat, elem: UsedElem) {
    && 0 < |m.used|
    && m' == m.(used := m.used[Slot(idx, |m.used|) := elem], usedIdx := (idx + 1) % U16)
  }

  /** What `wait_pop_add_notify` answers to a chain with these buffers: the bytes go into the first writable
      buffer, and slicing beyond its end stops the program. */
  function WriteAnswer(readable: seq<Segment>, writable: seq<Segment>, bytes: seq<byte>): (r: Result<(), Error>)
    ensures r.Ok? <==> writable != [] && readable == [] && |bytes| <= writable[0].len
  {
    if writable == [] then Err(NotReady)
    else if readable != [] then Err(Unsupported)
    else if |bytes| > writable[0].len then Err(Panicked)
    else Ok(())
  }

  class DeviceVirtQueue {
    const size: nat
    const mem: Shared
    var availIdx: nat
    var lastUsedIdx: nat

    ghost predicate Valid()
      reads this, mem
    {
      && IsQueueSize(size) && Fits(mem.m, size)
      && availIdx < U16 && lastUsedIdx < U16
    }

    constructor (mem: Shared, size: nat)
      requires IsQueueSize(size) && Fits(mem.m, size)
      ensures Valid() && this.mem == mem && this.size == size && availIdx == 0 && lastUsedIdx == 0
    {
      this.mem := mem;
      this.size := size;
      availIdx, lastUsedIdx := 0, 0;
    }

    /** The head that the available ring holds in the next slot, if it holds one. */
    ghost function NextAvail(): (r: Option<nat>)
      requires Valid()
      reads this, mem
    {
      if availIdx == mem.m.availIdx then None
      else
        MaskedSlot(availIdx, size);
        Some(mem.m.avail[Slot(availIdx, size)])
    }

    /** The answer of `pop_avail` in the current state. */
    ghost function NextPop(): (r: Result<Option<Popped>, Error>)
      requires Valid()
      reads this, mem
    {
      if NextAvail().None? then Ok(None) else PopResult(mem.m.desc, NextAvail().value)
    }

    method CanPop() returns (r: bool)
      ensures r <==> availIdx != mem.m.availIdx
    {
      r := availIdx != mem.m.availIdx;
    }

    method PeekAvail() returns (r: Option<nat>)
      requires Valid()
      ensures r == NextAvail()
    {
      var canPop := CanPop();
      if canPop {
        MaskedSlot(availIdx, size);
        r := Some(mem.m.avail[BitAnd(availIdx, size - 1)]);
      } else {
        r := None;
      }
    }

    /** Pops a chain from the available ring. Only a chain that decodes advances the index. */
    method PopAvail() returns (r: Result<Option<Popped>, Error>)
      requires Valid()
      modifies this`availIdx
      ensures Valid()
      ensures r == old(NextPop())
      ensures availIdx == if r.Ok? && r.value.Some? then (old(availIdx) + 1) % U16 else old(availIdx)
    {
      var peeked := PeekAvail();
      if peeked.None? {
        return Ok(None);
      }
      var head := peeked.value;
      var table := mem.m.desc;
      var readable: seq<Segment>, writable: seq<Segment> := [], [];
      var token: nat := head;
      for steps := 0 to WalkBound(table)
        invariant availIdx == old(availIdx)
        invariant Walk(table, token, readable, writable, WalkBound(table) - steps)
                  == Walk(table, head, [], [], WalkBound(table))
      {
        if token >= |table| {
          return Err(WrongToken);
        }
        var d := table[token];
        if d.flags.indirect {
          return Err(Panicked);
        }
        if d.flags.write {
          writable := writable + [Segment(d.addr, d.len)];
        } else {
          if writable != [] {
            return Err(InvalidDescriptor);
          }
          readable := readable + [Segment(d.addr, d.len)];
        }
        if !d.flags.next {
          availIdx := (availIdx + 1) % U16;
          return Ok(Some(Popped(readable, writable, head)));
        }
        token := d.next;
      }
      r := Err(Diverges);
    }

    /** Posts a chain to the used ring. */
    method AddUsed(head: nat, len: nat)
      requires Valid()
      modifies this`lastUsedIdx, mem
      ensures Valid()
      ensures Returns(old(mem.m), mem.m, old(lastUsedIdx), UsedElem(head, len % U32))
      ensures lastUsedIdx == (old(lastUsedIdx) + 1) % U16
    {
      MaskedSlot(lastUsedIdx, size);
      mem.m := mem.m.(used := mem.m.used[BitAnd(lastUsedIdx, size - 1) := UsedElem(head, len % U32)]);
      lastUsedIdx := (lastUsedIdx + 1) % U16;
      mem.m := mem.m.(usedIdx := lastUsedIdx);
    }

    /** Pops a chain, passes the bytes of its buffers to the handler and returns the chain. The driver is
        notified of every chain returned, unless it asked not to be. */
    method Poll<T>(ram: Ram, handler: seq<byte> -> Result<Option<T>, Error>)
      returns (r: Result<Option<T>, Error>, notified: bool)
      requires Valid()
      modifies this, mem
      ensures Valid()
      ensures notified <==> lastUsedIdx != old(lastUsedIdx) && mem.m.availFlags % 2 == 0
      ensures old(NextPop()).Err? ==> r == Err(old(NextPop()).error) && unchanged(this, mem)
      ensures old(NextPop()) == Ok(None) ==> r == Ok(None) && unchanged(this, mem)
      ensures old(NextPop()).Ok? && old(NextPop()).value.Some? ==>
                var popped := old(NextPop()).value.value;
                && availIdx == (old(availIdx) + 1) % U16
                && (popped.writable != [] ==> r == Err(Unsupported) && unchanged(this`lastUsedIdx, mem))
                && (popped.writable == [] ==>
                      && r == handler(Gather(ram, popped.readable))
                      && Returns(old(mem.m), mem.m, old(lastUsedIdx), UsedElem(popped.head, 0))
                      && lastUsedIdx == (old(lastUsedIdx) + 1) % U16)
    {
      var p := PopAvail();
      if p.Err? {
        return Err(p.error), false;
      }
      if p.value.None? {
        return Ok(None), false;
      }
      var popped := p.value.value;
      if popped.writable != [] {
        return Err(Unsupported), false;
      }
      var tmp := Collect(ram, popped.readable);
      r := handler(tmp);
      AddUsed(popped.head, 0);
      notified := ShouldNotify();
    }

    /** Writes the given pieces into the first buffer of the next chain and returns the chain, once
        the driver has made one available; the driver is notified unless it asked not to be. */
    method WaitPopAddNotify(inputs: seq<seq<byte>>, ram: Ram) returns (r: Result<(), Error>, ram': Ram, notified: bool)
      requires Valid() && NextAvail().Some?
      modifies this, mem
      ensures Valid()
      ensures notified <==> r.Ok? && mem.m.availFlags % 2 == 0
      ensures r.Err? ==> ram' == ram && mem.m == old(mem.m) && lastUsedIdx == old(lastUsedIdx)
      ensures old(NextPop()).Err? ==> r == Err(old(NextPop()).error) && availIdx == old(availIdx)
      ensures old(NextPop()).Ok? ==>
                var popped := old(NextPop()).value.value;
                && availIdx == (old(availIdx) + 1) % U16
                && r == WriteAnswer(popped.readable, popped.writable, Concat(inputs))
                && (r == Err(NotReady) <==> popped.writable == [])
                && (r == Err(Unsupported) <==> popped.writable != [] && popped.readable != [])
                && (r == Err(Panicked) <==>
                      popped.writable != [] && popped.readable == [] && |Concat(inputs)| > popped.writable[0].len)
                && (r.Ok? ==>
                      && ram' == WriteSegment(ram, popped.writable[0], Concat(inputs))
                      && Returns(old(mem.m), mem.m, old(lastUsedIdx), UsedElem(popped.head, |Concat(inputs)| % U32))
                      && lastUsedIdx == (old(lastUsedIdx) + 1) % U16)
    {
      ram' := ram;
      var p := PopAvail();
      if p.Err? {
        return Err(p.error), ram, false;
      }
      var popped := p.value.value;
      if popped.writable == [] {
        return Err(NotReady), ram, false;
      }
      if popped.readable != [] {
        return Err(Unsupported), ram, false;
      }
      var out := popped.writable[0];
      var buffer, copied := CopyPieces(inputs, ReadSegment(ram, out));
      if copied.None? {
        return Err(Panicked), ram, false;
      }
      ram' := ram[out.addr := Bytes(buffer)];
      AddUsed(popped.head, copied.value);
      notified := ShouldNotify();
      r := Ok(());
    }

    /** Returns whether the driver wants to be told about used buffers. */
    method ShouldNotify() returns (r: bool)
      ensures r <==> mem.m.availFlags % 2 == 0
    {
      r := mem.m.availFlags % 2 == 0;
    }
  }

  /** The head that `pop_avail` looks at is in the slot of the index modulo the queue's size. */
  lemma NextAvailExact(q: DeviceVirtQueue)
    requires q.Valid()
    ensures 0 < q.size == |q.mem.m.avail|
    ensures q.NextAvail() == if q.availIdx == q.mem.m.availIdx then None else Some(q.mem.m.avail[q.availIdx % q.size])
  {
    MaskedSlot(q.availIdx, q.size);
    SlotIsMod(q.availIdx, q.size);
  }

  lemma Splice<T>(done: seq<T>, rest: seq<T>, x: seq<T>)
    requires |x| <= |rest|
    ensures (done + rest)[..|done|] + x + (done + rest)[|done| + |x|..] == done + x + rest[|x|..]
  {
  }

  /** Collects the bytes of the buffers that the driver filled, in the order of the chain. */
  method Collect(ram: Ram, readable: seq<Segment>) returns (tmp: seq<byte>)
    ensures tmp == Gather(ram, readable)
  {
    tmp := [];
    for i := 0 to |readable|
      invariant tmp == Concat(Pieces(ram, readable)[..i])
    {
      assert Pieces(ram, readable)[..i + 1][..i] == Pieces(ram, readable)[..i];
      tmp := tmp + ReadSegment(ram, readable[i]);
    }
    assert Pieces(ram, readable)[..|readable|] == Pieces(ram, readable);
  }

  /** Copies the pieces one after the other to the start of the buffer; a piece that reaches past
      the end of it stops the program. */
  method CopyPieces(inputs: seq<seq<byte>>, start: seq<byte>) returns (buffer: seq<byte>, copied: Option<nat>)
    ensures copied == if |Concat(inputs)| <= |start| then Some(|Concat(inputs)|) else None
    ensures copied.Some? ==> buffer == Concat(inputs) + start[copied.value..]
  {
    buffer := start;
    var n := 0;
    for i := 0 to |inputs|
      invariant n == |Concat(inputs[..i])| <= |start|
      invariant buffer == Concat(inputs[..i]) + start[n..]
    {
      assert inputs[..i + 1][..i] == inputs[..i];
      if n + |inputs[i]| > |start| {
        ConcatPrefix(inputs, i + 1);
        return buffer, None;
      }
      Splice(Concat(inputs[..i]), start[n..], inputs[i]);
      assert start[n..][|inputs[i]|..] == start[n + |inputs[i]|..];
      buffer := buffer[..n] + inputs[i] + buffer[n + |inputs[i]|..];
      n := n + |inputs[i]|;
    }
    assert inputs[..|inputs|] == inputs;
    copied := Some(n);
  }
}
