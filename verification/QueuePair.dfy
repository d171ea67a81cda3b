/** The two classes at work on the same memory: what they do is what the two-party protocol says.

    Each method runs one operation of the driver's or the device's class and is proved to be one or two steps
    of `RingProtocol`, so that everything proved of the protocol's runs holds of the code's. The device's
    class stops at an indirect chain; the protocol's device decodes it. */
module QueuePair {
  import opened Wrappers
  import opened Words
  import opened Descriptors
  import opened DescriptorPool
  import opened RingMemory
  import opened ChainWalk
  import opened DeviceVirtQueue
  import opened VirtQueue
  import opened RingProtocol
  import opened RingSafety
  import opened RingProgress

  /** What the HAL promises when a request is published: fresh addresses, at which the device finds the
      request's buffers and table. */
  ghost predicate HalShares(s: System, inputs: seq<Buffer>, outputs: seq<Buffer>, addrs: seq<nat>, listAddr: nat,
                            ram: Ram) {
    AddOk(s, inputs, outputs, addrs) ==>
      var c := ChainFor(s.pool, Parts(inputs, outputs, addrs), listAddr);
      AddrsDiffer(c) && SharedIn(s.ram, ram, c) && forall h, a :: UsedBy(s.pool.chains, h, a) ==> !Uses(c, a)
  }

  // ---------------------------------------------------------------------------------------

  /** The oldest waiting chain has no table. */
  ghost predicate NextDirect(s: System) {
    s.waiting != [] && s.waiting[0] in s.pool.chains && s.pool.chains[s.waiting[0]].list.None?
  }

  function WalkResult(s: System): (w: Walked) {
    Walk(s.mem.desc, FetchHead(s), [], [], WalkBound(s.mem.desc))
  }

  /** On direct chains the walk of `pop_avail` is the device's whole decoding; it stops the program at an
      indirect one. */
  lemma WalkOrPanic(desc: seq<Descriptor>, tables: map<nat, seq<Descriptor>>, size: nat, head: nat, c: Chain)
    requires Encodes(desc, c) && ChainShape(size, head, c) && size <= |desc|
    ensures Walk(desc, head, [], [], WalkBound(desc))
            == if c.list.None? then Decode(desc, tables, head) else Bad(Panicked)
  {
    if c.list.None? {
      assert EncodesAt(desc, c.descs, c.parts, 0);
    }
  }

  lemma FetchIsWalk(s: System)
    requires Inv(s) && s.devAvail != s.mem.availIdx
    ensures s.waiting != [] && FetchHead(s) == s.waiting[0] && FetchResult(s).Buffers?
    ensures WalkResult(s) == if NextDirect(s) then FetchResult(s) else Bad(Panicked)
    ensures FetchResult(s).writable != [] ==> FetchResult(s).writable[0].len < U32
  {
    FetchSees(s);
    var c := s.pool.chains[s.waiting[0]];
    assert Intact(c, s.mem.desc, s.ram);
    assert ChainShape(s.pool.size, s.waiting[0], c);
    WalkOrPanic(s.mem.desc, TablesIn(s.ram), s.pool.size, s.waiting[0], c);
  }

  lemma FetchFacts(r: Run)
    requires IsRun(r)
    ensures var s := r.state;
            && (s.devAvail != s.mem.availIdx <==> s.waiting != [])
            && (s.waiting != [] ==>
                  && FetchHead(s) == s.waiting[0] && FetchResult(s).Buffers?
                  && WalkResult(s) == (if NextDirect(s) then FetchResult(s) else Bad(Panicked))
                  && (FetchResult(s).writable != [] ==> FetchResult(s).writable[0].len < U32))
  {
    RunInv(r);
    WaitingIff(r.state);
    if r.state.waiting != [] {
      FetchIsWalk(r.state);
    }
  }

  /** The given buffers are those of the chain that is next on the used ring. */
  ghost predicate PassesBack(s: System, inputs: seq<Buffer>, outputs: seq<Buffer>) {
    && s.posted != [] && s.posted[0].id in s.pool.chains
    && SameBuffers(s.pool.chains[s.posted[0].id].parts, inputs, outputs)
  }

  lemma PopFacts(r: Run)
    requires IsRun(r)
    ensures var s := r.state;
            && (s.drvUsed != s.mem.usedIdx <==> s.posted != [])
            && (s.posted != [] ==>
                  && PopElem(s).id % U16 == s.posted[0].id && s.posted[0].id in s.pool.chains
                  && s.results != [] && PopElem(s).len == |s.results[0]|)
  {
    RunInv(r);
    WaitingIff(r.state);
    if r.state.posted != [] {
      PopSees(r.state);
    }
  }

  // ---------------------------------------------------------------------------------------

  /** What the driver stores is what the state of the protocol says, and the device works on the same memory. */
  ghost predicate DriverSide(driver: VirtQueue, device: DeviceVirtQueue, s: System)
    reads driver, driver.mem, device, device.mem
  {
    && driver.Valid() && device.Valid() && device.mem == driver.mem && device.size == driver.size
    && s.pool == driver.pool && s.drvAvail == driver.availIdx && s.drvUsed == driver.lastUsedIdx
  }

  /** What both sides store is what the state of the protocol says. */
  ghost predicate Coupled(driver: VirtQueue, device: DeviceVirtQueue, s: System)
    reads driver, driver.mem, device, device.mem
  {
    && DriverSide(driver, device, s) && s.mem == driver.mem.m
    && s.devAvail == device.availIdx && s.devUsed == device.lastUsedIdx
  }

  /** The driver's `add`. */
  method Publish(driver: VirtQueue, device: DeviceVirtQueue, ghost s: System,
                 inputs: seq<Buffer>, outputs: seq<Buffer>, addrs: seq<nat>, listAddr: nat, ghost ram: Ram)
    returns (r: Result<nat, Error>, ghost s': System)
    requires Coupled(driver, device, s) && |addrs| == |inputs| + |outputs|
    requires forall i :: 0 <= i < |addrs| ==> BufferOk(BufferAt(inputs, outputs, i).0)
    requires HalShares(s, inputs, outputs, addrs, listAddr, ram)
    modifies driver, driver.mem
    ensures Coupled(driver, device, s')
    ensures r.Ok? <==> AddOk(s, inputs, outputs, addrs)
    ensures if r.Ok? then AddStep(s, s', inputs, outputs, addrs, listAddr) else s' == s
  {
    r := driver.Add(inputs, outputs, addrs, listAddr);
    s' := s;
    if r.Ok? {
      AddIsStep(s, inputs, outputs, addrs, listAddr, driver.mem.m, ram);
      s' := Added(s, driver.pool, driver.mem.m, ram, r.value);
    }
  }

  /** What the walk of the next chain comes to. */
  ghost predicate Walkable(s: System) {
    s.devAvail != s.mem.availIdx ==>
      FetchResult(s).Buffers? && WalkResult(s) == if NextDirect(s) then FetchResult(s) else Bad(Panicked)
  }

  /** The device's `pop_avail`. */
  method TakeNext(driver: VirtQueue, device: DeviceVirtQueue, ghost s: System)
    returns (r: Result<Option<Popped>, Error>, ghost s': System)
    requires Coupled(driver, device, s) && Walkable(s)
    modifies device
    ensures Coupled(driver, device, s')
    ensures s.devAvail == s.mem.availIdx ==> r == Ok(None) && s' == s
    ensures s.devAvail != s.mem.availIdx && !NextDirect(s) ==> r == Err(Panicked) && s' == s
    ensures s.devAvail != s.mem.availIdx && NextDirect(s) ==>
              && r == Ok(Some(Popped(FetchResult(s).readable, FetchResult(s).writable, FetchHead(s))))
              && FetchStep(s, s')
  {
    r := device.PopAvail();
    s' := s;
    if r.Ok? && r.value.Some? {
      FetchIsStep(s);
      s' := AfterFetch(s);
    }
  }

  /** The device's `poll`. */
  method PollNext<T>(driver: VirtQueue, device: DeviceVirtQueue, ghost s: System, ram: Ram,
                     handler: seq<byte> -> Result<Option<T>, Error>)
    returns (r: Result<Option<T>, Error>, notified: bool)
    requires Coupled(driver, device, s) && Walkable(s)
    modifies device, device.mem
    ensures DriverSide(driver, device, s)
    ensures s.devAvail == s.mem.availIdx || !NextDirect(s) ==>
              Coupled(driver, device, s) && r == if s.devAvail == s.mem.availIdx then Ok(None) else Err(Panicked)
    ensures s.devAvail != s.mem.availIdx && NextDirect(s) ==>
              && Moved(s, FetchResult(s).writable == [], device.availIdx, device.lastUsedIdx)
              && if FetchResult(s).writable != [] then r == Err(Unsupported) && device.mem.m == s.mem
                 else
                   && r == handler(Gather(ram, FetchResult(s).readable))
                   && Returns(s.mem, device.mem.m, s.devUsed, UsedElem(FetchHead(s), 0))
  {
    r, notified := device.Poll(ram, handler);
  }

  /** The memory after the answer of `wait_pop_add_notify`. */
  ghost predicate Wrote(s: System, mem: Memory, ram: Ram, answer: Result<(), Error>, head: nat, bytes: seq<byte>) {
    if answer.Err? then ram == s.ram && mem == s.mem
    else
      && FetchResult(s).Buffers? && FetchResult(s).writable != [] && |bytes| <= FetchResult(s).writable[0].len
      && ram == WriteSegment(s.ram, FetchResult(s).writable[0], bytes)
      && Returns(s.mem, mem, s.devUsed, UsedElem(head, |bytes|))
  }

  lemma PopIsFetch(device: DeviceVirtQueue, s: System)
    requires device.Valid() && s.mem == device.mem.m && s.devAvail == device.availIdx
    requires Walkable(s) && s.devAvail != s.mem.availIdx
    ensures device.NextAvail() == Some(FetchHead(s))
    ensures device.NextPop()
            == if NextDirect(s) then Ok(Some(Popped(FetchResult(s).readable, FetchResult(s).writable, FetchHead(s))))
               else Err(Panicked)
  {
  }

  lemma WroteBytes(s: System, mem: Memory, ram: Ram, answer: Result<(), Error>, bytes: seq<byte>)
    requires FetchResult(s).Buffers? && answer == WriteAnswer(FetchResult(s).readable, FetchResult(s).writable, bytes)
    requires FetchResult(s).writable != [] ==> FetchResult(s).writable[0].len < U32
    requires answer.Err? ==> ram == s.ram && mem == s.mem
    requires answer.Ok? ==>
               && ram == WriteSegment(s.ram, FetchResult(s).writable[0], bytes)
               && Returns(s.mem, mem, s.devUsed, UsedElem(FetchHead(s), |bytes| % U32))
    ensures Wrote(s, mem, ram, answer, FetchHead(s), bytes)
  {
  }

  /** The device's `wait_pop_add_notify`. */
  method WriteNext(driver: VirtQueue, device: DeviceVirtQueue, ghost s: System, ram: Ram, inputs: seq<seq<byte>>)
    returns (r: Result<(), Error>, ram': Ram, notified: bool)
    requires Coupled(driver, device, s) && Walkable(s) && s.devAvail != s.mem.availIdx && ram == s.ram
    requires FetchResult(s).writable != [] ==> FetchResult(s).writable[0].len < U32
    modifies device, device.mem
    ensures DriverSide(driver, device, s)
    ensures !NextDirect(s) ==> r == Err(Panicked) && ram' == ram && Coupled(driver, device, s)
    ensures NextDirect(s) ==>
              && Moved(s, r.Ok?, device.availIdx, device.lastUsedIdx)
              && r == WriteAnswer(FetchResult(s).readable, FetchResult(s).writable, Concat(inputs))
              && Wrote(s, device.mem.m, ram', r, FetchHead(s), Concat(inputs))
  {
    PopIsFetch(device, s);
    r, ram', notified := device.WaitPopAddNotify(inputs, ram);
    if NextDirect(s) {
      WroteBytes(s, device.mem.m, ram', r, Concat(inputs));
    }
  }

  /** The device's `add_used`, after it has written `bytes` to the first writable buffer of the chain. */
  method Post(driver: VirtQueue, device: DeviceVirtQueue, ghost s: System, head: nat, ghost bytes: seq<byte>, len: nat)
    returns (ghost s': System)
    requires Coupled(driver, device, s) && CanReturn(s, head, bytes) && len == |bytes|
    modifies device, device.mem
    ensures Coupled(driver, device, s') && ReturnStep(s, s', head, bytes)
  {
    device.AddUsed(head, len);
    s' := Given(s, device.mem.m, Written(s, head, bytes), head, bytes);
    ReturnIsStep(s, head, bytes, device.mem.m);
  }

  /** The driver's `pop_used` for the token that is next on the used ring. */
  method TakeBack(driver: VirtQueue, device: DeviceVirtQueue, ghost s: System, inputs: seq<Buffer>,
                  outputs: seq<Buffer>)
    returns (r: Result<nat, Error>, ghost s': System)
    requires Coupled(driver, device, s)
    requires s.drvUsed != s.mem.usedIdx ==>
               && PopElem(s).id % U16 in s.pool.chains
               && SameBuffers(s.pool.chains[PopElem(s).id % U16].parts, inputs, outputs)
    modifies driver, driver.mem
    ensures Coupled(driver, device, s')
    ensures s.drvUsed == s.mem.usedIdx ==> r == Err(NotReady) && s' == s
    ensures s.drvUsed != s.mem.usedIdx ==> r == Ok(PopElem(s).len) && PopStep(s, s')
  {
    s' := s;
    var token := driver.PeekUsed();
    if token.None? {
      return Err(NotReady), s';
    }
    r := driver.PopUsed(token.value, inputs, outputs);
    PopIsStep(s, driver.mem.m);
    s' := Dropped(s, driver.pool, driver.mem.m, token.value);
  }

  /** From `r` to `r'` the device took the next chain and returned it with these bytes. */
  ghost predicate FetchedAndReturned(r: Run, r': Run, head: nat, bytes: seq<byte>) {
    && r'.Then? && r'.before.Then?
    && r' == Then(Then(r, RingProtocol.Fetch, r'.before.state), RingProtocol.Return(head, bytes), r'.state)
  }

  ghost predicate DriverKept(s: System, s': System) {
    s'.pool == s.pool && s'.drvAvail == s.drvAvail && s'.drvUsed == s.drvUsed
  }

  /** The device's indices after it has taken a chain and, where `answered`, returned one. */
  ghost predicate Moved(s: System, answered: bool, devAvail: nat, devUsed: nat) {
    devAvail == (s.devAvail + 1) % U16 && devUsed == if answered then (s.devUsed + 1) % U16 else s.devUsed
  }

  ghost predicate FitsFirst(w: Walked, bytes: seq<byte>)
    requires w.Buffers?
  {
    if w.writable == [] then bytes == [] else |bytes| <= w.writable[0].len
  }

  ghost function WrittenTo(w: Walked, ram: Ram, bytes: seq<byte>): (ram': Ram)
    requires w.Buffers? && FitsFirst(w, bytes)
  {
    if w.writable == [] then ram else WriteSegment(ram, w.writable[0], bytes)
  }

  /** There is a chain to take. */
  ghost predicate Ready(s: System) {
    s.devAvail != s.mem.availIdx && s.waiting != [] && FetchHead(s) == s.waiting[0] && FetchResult(s).Buffers?
  }

  lemma FetchRun(r: Run) returns (r': Run)
    requires IsRun(r) && Ready(r.state)
    ensures IsRun(r') && r' == Then(r, RingProtocol.Fetch, r'.state)
    ensures DriverKept(r.state, r'.state) && r'.state.mem == r.state.mem && r'.state.ram == r.state.ram
    ensures r'.state.devAvail == (r.state.devAvail + 1) % U16 && r'.state.devUsed == r.state.devUsed
    ensures r.state.waiting[0] in r'.state.held && r'.state.held[r.state.waiting[0]] == FetchResult(r.state)
  {
    FetchIsStep(r.state);
    r' := Then(r, RingProtocol.Fetch, AfterFetch(r.state));
  }

  lemma ReturnRun(r: Run, mem: Memory, head: nat, bytes: seq<byte>) returns (r': Run)
    requires IsRun(r) && CanReturn(r.state, head, bytes)
    requires Returns(r.state.mem, mem, r.state.devUsed, UsedElem(head, |bytes|))
    ensures IsRun(r') && r' == Then(r, RingProtocol.Return(head, bytes), r'.state)
    ensures DriverKept(r.state, r'.state) && r'.state.mem == mem && r'.state.ram == Written(r.state, head, bytes)
    ensures r'.state.devAvail == r.state.devAvail && r'.state.devUsed == (r.state.devUsed + 1) % U16
  {
    ReturnIsStep(r.state, head, bytes, mem);
    r' := Then(r, RingProtocol.Return(head, bytes), Given(r.state, mem, Written(r.state, head, bytes), head, bytes));
  }

  /** Taking the next chain and, where `answered`, returning it with these bytes. */
  lemma AnswerRun(r: Run, mem: Memory, answered: bool, bytes: seq<byte>, devAvail: nat, devUsed: nat) returns (r': Run)
    requires IsRun(r) && Ready(r.state)
    requires !answered ==> mem == r.state.mem
    requires answered ==>
               && |bytes| < U32 && Returns(r.state.mem, mem, r.state.devUsed, UsedElem(r.state.waiting[0], |bytes|))
               && FitsFirst(FetchResult(r.state), bytes)
    requires Moved(r.state, answered, devAvail, devUsed)
    ensures IsRun(r') && DriverKept(r.state, r'.state) && r'.state.mem == mem
    ensures r'.state.devAvail == devAvail && r'.state.devUsed == devUsed
    ensures if answered then FetchedAndReturned(r, r', r.state.waiting[0], bytes)
            else r' == Then(r, RingProtocol.Fetch, r'.state)
    ensures r'.state.ram == if answered then WrittenTo(FetchResult(r.state), r.state.ram, bytes) else r.state.ram
  {
    r' := FetchRun(r);
    if answered {
      r' := ReturnRun(r', mem, r.state.waiting[0], bytes);
    }
  }

  /** The same for `wait_pop_add_notify`. */
  lemma WriteRun(r: Run, mem: Memory, ram: Ram, answer: Result<(), Error>, bytes: seq<byte>, devAvail: nat,
                 devUsed: nat)
    returns (r': Run)
    requires IsRun(r) && Ready(r.state)
    requires answer == WriteAnswer(FetchResult(r.state).readable, FetchResult(r.state).writable, bytes)
    requires FetchResult(r.state).writable != [] ==> FetchResult(r.state).writable[0].len < U32
    requires Wrote(r.state, mem, ram, answer, r.state.waiting[0], bytes)
    requires Moved(r.state, answer.Ok?, devAvail, devUsed)
    ensures IsRun(r') && DriverKept(r.state, r'.state) && r'.state.mem == mem && r'.state.ram == ram
    ensures r'.state.devAvail == devAvail && r'.state.devUsed == devUsed
    ensures if answer.Ok? then FetchedAndReturned(r, r', r.state.waiting[0], bytes)
            else r' == Then(r, RingProtocol.Fetch, r'.state)
  {
    r' := AnswerRun(r, mem, answer.Ok?, bytes, devAvail, devUsed);
  }

  // ---------------------------------------------------------------------------------------

  /** Driver and device of one queue, from newly allocated memory on: whatever operations they run, and in
      whatever order, what they go through is a run of the protocol. */
  class QueuePair {
    const driver: VirtQueue
    const device: DeviceVirtQueue
    ghost var run: Run

    ghost predicate Valid()
      reads this, driver, driver.mem, device, device.mem
    {
      Coupled(driver, device, run.state) && IsRun(run)
    }

    constructor (driver: VirtQueue, device: DeviceVirtQueue)
      requires driver.Valid() && device.Valid() && device.mem == driver.mem && device.size == driver.size
      requires driver.pool == Fresh(driver.size, driver.indirect)
      requires driver.availIdx == driver.lastUsedIdx == device.availIdx == device.lastUsedIdx == 0
      requires driver.mem.m.availIdx == driver.mem.m.usedIdx == 0
      ensures Valid() && this.driver == driver && this.device == device && run.Start?
    {
      this.driver, this.device := driver, device;
      run := Start(System(driver.pool, 0, 0, driver.mem.m, map[], 0, 0, map[], 0, 0, 0, 0, [], [], [], map[]));
    }

    /** The driver adds a request. */
    method Add(inputs: seq<Buffer>, outputs: seq<Buffer>, addrs: seq<nat>, listAddr: nat, ghost ram: Ram)
      returns (r: Result<nat, Error>)
      requires Valid() && |addrs| == |inputs| + |outputs|
      requires forall i :: 0 <= i < |addrs| ==> BufferOk(BufferAt(inputs, outputs, i).0)
      requires HalShares(run.state, inputs, outputs, addrs, listAddr, ram)
      modifies this, driver, driver.mem
      ensures Valid()
      ensures r.Ok? <==> AddOk(old(run).state, inputs, outputs, addrs)
      ensures if r.Ok? then run == Then(old(run), RingProtocol.Add(inputs, outputs, addrs, listAddr), run.state)
              else run == old(run)
    {
      ghost var s';
      r, s' := Publish(driver, device, run.state, inputs, outputs, addrs, listAddr, ram);
      if r.Ok? {
        run := Then(run, RingProtocol.Add(inputs, outputs, addrs, listAddr), s');
      }
    }

    /** The device takes the oldest chain; it only ever stops at an indirect one. */
    method PopAvail() returns (r: Result<Option<Popped>, Error>)
      requires Valid()
      modifies this, device
      ensures Valid()
      ensures old(run).state.waiting == [] ==> r == Ok(None) && run == old(run)
      ensures old(run).state.waiting != [] && !NextDirect(old(run).state) ==> r == Err(Panicked) && run == old(run)
      ensures NextDirect(old(run).state) ==>
                && r.Ok? && r.value.Some?
                && FetchResult(old(run).state) == Buffers(r.value.value.readable, r.value.value.writable)
                && r.value.value.head == old(run).state.waiting[0]
                && run == Then(old(run), RingProtocol.Fetch, run.state)
    {
      FetchFacts(run);
      ghost var s';
      r, s' := TakeNext(driver, device, run.state);
      if r.Ok? && r.value.Some? {
        run := Then(run, RingProtocol.Fetch, s');
      }
    }

    /** The device polls: where the oldest chain has only readable buffers, the handler gets the concatenation of
        the request's inputs as they are in memory, and the chain is returned. */
    method Poll<T>(ram: Ram, handler: seq<byte> -> Result<Option<T>, Error>)
      returns (r: Result<Option<T>, Error>, notified: bool)
      requires Valid() && ram == run.state.ram
      modifies this, device, device.mem
      ensures Valid()
      ensures old(run).state.waiting == [] ==> r == Ok(None) && run == old(run)
      ensures old(run).state.waiting != [] && !NextDirect(old(run).state) ==> r == Err(Panicked) && run == old(run)
      ensures NextDirect(old(run).state) ==>
                && FetchResult(old(run).state).Buffers?
                && if FetchResult(old(run).state).writable != [] then
                     r == Err(Unsupported) && run == Then(old(run), RingProtocol.Fetch, run.state)
                   else
                     && r == handler(Gather(ram, FetchResult(old(run).state).readable))
                     && FetchedAndReturned(old(run), run, old(run).state.waiting[0], [])
    {
      FetchFacts(run);
      ghost var s := run.state;
      r, notified := PollNext(driver, device, s, ram, handler);
      if NextDirect(s) {
        ghost var run' := AnswerRun(run, device.mem.m, FetchResult(s).writable == [], [], device.availIdx,
                                    device.lastUsedIdx);
        assert Coupled(driver, device, run'.state);
        run := run';
      }
    }

    /** The device sends, once there is a chain: the pieces, one after the other, are in the chain's first buffer
        when it is returned. */
    method WaitPopAddNotify(inputs: seq<seq<byte>>, ram: Ram) returns (r: Result<(), Error>, ram': Ram, notified: bool)
      requires Valid() && ram == run.state.ram && run.state.waiting != []
      modifies this, device, device.mem
      ensures Valid() && ram' == run.state.ram
      ensures !NextDirect(old(run).state) ==> r == Err(Panicked) && run == old(run)
      ensures NextDirect(old(run).state) ==>
                && FetchResult(old(run).state).Buffers?
                && r == WriteAnswer(FetchResult(old(run).state).readable, FetchResult(old(run).state).writable,
                                    Concat(inputs))
                && if r.Ok? then FetchedAndReturned(old(run), run, old(run).state.waiting[0], Concat(inputs))
                   else run == Then(old(run), RingProtocol.Fetch, run.state)
    {
      FetchFacts(run);
      ghost var s := run.state;
      r, ram', notified := WriteNext(driver, device, s, ram, inputs);
      if NextDirect(s) {
        ghost var run' := WriteRun(run, device.mem.m, ram', r, Concat(inputs), device.availIdx, device.lastUsedIdx);
        assert Coupled(driver, device, run'.state);
        run := run';
      }
    }

    /** The device returns a chain that it holds. */
    method AddUsed(head: nat, ghost bytes: seq<byte>, len: nat)
      requires Valid() && CanReturn(run.state, head, bytes) && len == |bytes|
      modifies this, device, device.mem
      ensures Valid() && run == Then(old(run), RingProtocol.Return(head, bytes), run.state)
    {
      ghost var s' := Post(driver, device, run.state, head, bytes, len);
      run := Then(run, RingProtocol.Return(head, bytes), s');
    }

    /** The driver pops the next used element, for which the client passes the buffers that it added. It is
        never the wrong token, and the length is that of the bytes the device wrote. */
    method PopUsed(inputs: seq<Buffer>, outputs: seq<Buffer>) returns (r: Result<nat, Error>)
      requires Valid()
      requires run.state.posted != [] ==> PassesBack(run.state, inputs, outputs)
      modifies this, driver, driver.mem
      ensures Valid()
      ensures old(run).state.posted == [] ==> r == Err(NotReady) && run == old(run)
      ensures old(run).state.posted != [] ==>
                && old(run).state.results != [] && r == Ok(|old(run).state.results[0]|)
                && run == Then(old(run), RingProtocol.Pop, run.state)
    {
      PopFacts(run);
      ghost var s';
      r, s' := TakeBack(driver, device, run.state, inputs, outputs);
      if r.Ok? {
        run := Then(run, RingProtocol.Pop, s');
      }
    }
  }
}
