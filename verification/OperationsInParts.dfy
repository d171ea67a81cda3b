/** Every operation of the two-party protocol can be done access by access, so that `SingleAccesses` leaves out none of
    the protocol's runs. */
module OperationsInParts {
  import opened Wrappers
  import opened Words
  import opened DescriptorPool
  import opened RingMemory
  import opened RingProtocol
  import opened RingSafety
  import opened RingProgress
  import opened SingleAccesses

  lemma Accesses(f: State, f': State, access: Access)
    requires Accessible(f) && SingleAccesses.Next(f, f', access)
    ensures Accessible(f')
  {
    var r :| IsHistory(r) && r.state == f;
    assert IsHistory(Later(r, access, f'));
  }

  /** Both sides are between two operations. */
  function Between(s: System): (f: State) {
    State(s, Idle, Resting)
  }

  /** The queue when everything is written and the index is not stored. */
  ghost function BeforeStore(s: System, s': System): (f: System) {
    s.(mem := s'.mem.(availIdx := s.mem.availIdx, usedIdx := s.mem.usedIdx), ram := s'.ram)
  }

  lemma AllDrafted(s: System, s': System, c: Chain)
    requires 0 < |c.descs| <= |s.pool.free| && c.descs[0] == s.pool.free[0]
    requires Publishes(s.mem, s'.mem, s.drvAvail, c, s.pool.free[0]) && SharedIn(s.ram, s'.ram, c)
    ensures Drafts(s, BeforeStore(s, s'), c) && FullyDrafted(BeforeStore(s, s'), c)
  {
  }

  lemma AddIsPublished(s: System, s': System, q: Request)
    requires CanAdd(s, q) && AddStep(s, s', q.inputs, q.outputs, q.addrs, q.listAddr)
    ensures Published(BeforeStore(s, s'), ChainOf(s.pool, q)) == s'
  {
  }

  lemma AddCanBegin(s: System, s': System, q: Request)
    requires Partitioned(s.pool) && AddStep(s, s', q.inputs, q.outputs, q.addrs, q.listAddr)
    ensures CanAdd(s, q)
  {
    var c := AddChain(s, s', q.inputs, q.outputs, q.addrs, q.listAddr);
  }

  lemma AddInParts(s: System, s': System, q: Request)
    requires Accessible(Between(s)) && CanAdd(s, q) && AddStep(s, s', q.inputs, q.outputs, q.addrs, q.listAddr)
    ensures Accessible(Between(s'))
  {
    var written := BeforeStore(s, s');
    AllDrafted(s, s', ChainOf(s.pool, q));
    AddIsPublished(s, s', q);
    Accesses(Between(s), State(s, Adding(q), Resting), BeginAdd(q));
    Accesses(State(s, Adding(q), Resting), State(written, Adding(q), Resting), WriteRequest);
    Accesses(State(written, Adding(q), Resting), Between(s'), StoreAvail);
  }

  lemma {:induction false} WalkToTheEnd(s: System, scan: Scan)
    requires Memories(s.pool.chains, s.mem.desc, s.ram) && ScanOk(s, scan) && Accessible(State(s, Idle, Scanning(scan)))
    ensures exists done :: WalkedAll(s, done)
    decreases if scan.head in s.pool.chains then ToRead(s.pool.chains[scan.head], scan) else 0
  {
    if scan.next.None? {
      assert WalkedAll(s, scan);
    } else {
      ScanReads(s, scan);
      ReadOn(s, scan);
      WalkToTheEnd(s, WalkOn(scan, ReadAt(s.mem.desc, s.ram, scan).value).value);
    }
  }

  lemma ReadOn(s: System, scan: Scan)
    requires Accessible(State(s, Idle, Scanning(scan))) && ReadAt(s.mem.desc, s.ram, scan).Some?
             && WalkOn(scan, ReadAt(s.mem.desc, s.ram, scan).value).Some?
    ensures Accessible(State(s, Idle, Scanning(WalkOn(scan, ReadAt(s.mem.desc, s.ram, scan).value).value)))
  {
    var scan' := WalkOn(scan, ReadAt(s.mem.desc, s.ram, scan).value).value;
    Accesses(State(s, Idle, Scanning(scan)), State(s, Idle, Scanning(scan')), ReadDescriptor);
  }

  ghost predicate WalkedAll(s: System, scan: Scan) {
    scan.next.None? && ScanOk(s, scan) && Accessible(State(s, Idle, Scanning(scan)))
  }

  lemma LookAndRead(s: System)
    requires Accessible(Between(s)) && s.devAvail != s.mem.availIdx
    ensures Accessible(State(s, Idle, Scanning(Scan(FetchHead(s), None, 0, Some(FetchHead(s)), [], []))))
  {
    var scan := Scan(FetchHead(s), None, 0, Some(FetchHead(s)), [], []);
    Accesses(Between(s), State(s, Idle, SawChain), LookAvail);
    Accesses(State(s, Idle, SawChain), State(s, Idle, Scanning(scan)), ReadSlot);
  }

  /** Taking a chain has one outcome. */
  lemma SameFetch(s: System, s': System, s'': System)
    requires FetchStep(s, s') && FetchStep(s, s'')
    ensures s' == s''
  {
  }

  lemma WalkInParts(s: System)
    requires Memories(s.pool.chains, s.mem.desc, s.ram) && Accessible(Between(s)) && s.devAvail != s.mem.availIdx
    requires ScanOk(s, Scan(FetchHead(s), None, 0, Some(FetchHead(s)), [], []))
    ensures exists done :: WalkedAll(s, done)
  {
    LookAndRead(s);
    WalkToTheEnd(s, Scan(FetchHead(s), None, 0, Some(FetchHead(s)), [], []));
  }

  lemma WalkKept(s: System, s': System, done: Scan)
    requires WalkedAll(s, done) && FetchStep(s, s') && FetchStep(s, Kept(s, done))
    ensures Accessible(Between(s'))
  {
    SameFetch(s, s', Kept(s, done));
    Accesses(State(s, Idle, Scanning(done)), Between(s'), EndScan);
  }

  lemma FetchInParts(s: System, s': System)
    requires Inv(s) && Accessible(Between(s)) && FetchStep(s, s')
    ensures Accessible(Between(s'))
  {
    WaitingIff(s);
    ScanBegins(s);
    WalkInParts(s);
    var done :| WalkedAll(s, done);
    ScanIsFetch(s, done);
    WalkKept(s, s', done);
  }

  lemma AllAnswered(s: System, s': System, head: nat, bytes: seq<byte>)
    requires ReturnStep(s, s', head, bytes)
    ensures var written := BeforeStore(s, s');
            DraftsAnswer(s, written, head) && Answered(written, head, bytes) && Handed(written, head, bytes) == s'
  {
  }

  lemma ReturnInParts(s: System, s': System, head: nat, bytes: seq<byte>)
    requires Accessible(Between(s)) && ReturnStep(s, s', head, bytes)
    ensures Accessible(Between(s'))
  {
    var written := BeforeStore(s, s');
    AllAnswered(s, s', head, bytes);
    Accesses(Between(s), State(s, Idle, Returning(head, bytes)), BeginReturn(head, bytes));
    Accesses(State(s, Idle, Returning(head, bytes)), State(written, Idle, Returning(head, bytes)), WriteResult);
    Accesses(State(written, Idle, Returning(head, bytes)), Between(s'), StoreUsed);
  }

  /** The driver has read which chain to take back, and has not cleared its descriptors yet. */
  ghost function NotCleared(s: System): (f: State)
    requires PopElem(s).id % U16 in s.pool.chains
  {
    var token := PopElem(s).id % U16;
    State(Dropped(s, Give(s.pool, token), s.mem, token), Clearing(s.pool.chains[token].descs), Resting)
  }

  lemma PopReads(s: System)
    requires Accessible(Between(s)) && s.drvUsed != s.mem.usedIdx && PopElem(s).id % U16 in s.pool.chains
    ensures Accessible(NotCleared(s))
  {
    var id := PopElem(s).id;
    Accesses(Between(s), State(s, Saw, Resting), LookUsed);
    Accesses(State(s, Saw, Resting), State(s, Peeked(id), Resting), ReadId);
    Accesses(State(s, Peeked(id), Resting), NotCleared(s), ReadLength);
  }

  lemma PopClears(s: System, s': System)
    requires PopStep(s, s')
    ensures Clears(NotCleared(s).sys, s', NotCleared(s).driver.descs)
  {
  }

  lemma PopInParts(s: System, s': System)
    requires Accessible(Between(s)) && PopStep(s, s')
    ensures Accessible(Between(s'))
  {
    PopReads(s);
    PopClears(s, s');
    var descs := NotCleared(s).driver.descs;
    Accesses(NotCleared(s), State(s', Clearing(descs), Resting), Clear);
    Accesses(State(s', Clearing(descs), Resting), Between(s'), EndPop);
  }

  lemma {:induction false} RunInParts(r: RingSafety.Run)
    requires RingSafety.IsRun(r)
    ensures Accessible(Between(r.state))
  {
    match r
    case Start(s) => assert IsHistory(Opening(Between(s)));
    case Then(before, step, s) =>
      RunInParts(before);
      RingSafety.RunInv(before);
      match step
      case Add(inputs, outputs, addrs, listAddr) =>
        var q := Request(inputs, outputs, addrs, listAddr);
        AddCanBegin(before.state, s, q);
        AddInParts(before.state, s, q);
      case Fetch => FetchInParts(before.state, s);
      case Return(head, bytes) => ReturnInParts(before.state, s, head, bytes);
      case Pop => PopInParts(before.state, s);
  }

  /** Conversely, every state of the protocol comes about by single accesses. */
  lemma Realized(s: System)
    requires Attained(s)
    ensures Accessible(Between(s))
  {
    var r: RingSafety.Run :| RingSafety.IsRun(r) && r.state == s;
    RunInParts(r);
  }
}
