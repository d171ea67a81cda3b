/** A queue as two first-in first-out channels of messages.

    Towards the device a message is the concatenation of a request's inputs; towards the driver it is
    what the device writes to the first writable buffer of a chain. */
module QueueChannel {
  import opened Wrappers
  import opened Words
  import opened Descriptors
  import opened DescriptorPool
  import opened RingMemory
  import opened ChainWalk
  import opened DeviceVirtQueue
  import opened RingProtocol
  import RingSafety

  /** The bytes of the first `n` buffers of a request. */
  function PartBytes(parts: seq<Part>, n: nat): (ss: seq<seq<byte>>)
    requires n <= |parts|
  {
    seq(n, i requires 0 <= i < n => parts[i].buffer.bytes)
  }

  /** What a chain carries to the device. */
  function Message(c: Chain): (b: seq<byte>) {
    Concat(PartBytes(c.parts, ReadCount(c.parts)))
  }

  ghost predicate CarriesAt(chains: map<nat, Chain>, waiting: seq<nat>, msgs: seq<seq<byte>>, i: nat)
    requires i < |waiting| == |msgs|
  {
    waiting[i] in chains && Message(chains[waiting[i]]) == msgs[i]
  }

  /** The messages published and not yet taken, oldest first. */
  ghost predicate Carries(chains: map<nat, Chain>, waiting: seq<nat>, msgs: seq<seq<byte>>) {
    && |waiting| == |msgs|
    && forall i :: 0 <= i < |msgs| ==> CarriesAt(chains, waiting, msgs, i)
  }

  /** What `poll` of the device copies together. */
  function Fetched(s: System): (b: seq<byte>) {
    match FetchResult(s)
    case Buffers(readable, _) => Gather(s.ram, readable)
    case _ => []
  }

  /** What the driver finds in the buffer that it pops, up to the length reported. */
  function PoppedBytes(s: System): (b: seq<byte>) {
    var token := PopElem(s).id % U16;
    if token in s.pool.chains then FirstWritten(s.ram, s.pool.chains[token], PopElem(s).len) else []
  }

  // ---------------------------------------------------------------------------------------

  /** The message of a new chain is the concatenation of its inputs. */
  lemma MessageOfInputs(p: Pool, inputs: seq<Buffer>, outputs: seq<Buffer>, addrs: seq<nat>, listAddr: nat)
    requires |addrs| == |inputs| + |outputs| && addrs != [] && !Full(p, |addrs|)
    ensures Message(ChainFor(p, Parts(inputs, outputs, addrs), listAddr)) == Concat(BytesOf(inputs))
  {
    var parts := Parts(inputs, outputs, addrs);
    RingSafety.OrderedReadCount(parts, |inputs|);
    assert PartBytes(parts, |inputs|) == BytesOf(inputs);
  }

  /** Publishing a request sends its inputs. */
  lemma AddSends(s: System, s': System, msgs: seq<seq<byte>>, inputs: seq<Buffer>, outputs: seq<Buffer>,
                 addrs: seq<nat>, listAddr: nat)
    requires Partitioned(s.pool) && Carries(s.pool.chains, s.waiting, msgs)
             && AddStep(s, s', inputs, outputs, addrs, listAddr)
    ensures Carries(s'.pool.chains, s'.waiting, msgs + [Concat(BytesOf(inputs))])
  {
    MessageOfInputs(s.pool, inputs, outputs, addrs, listAddr);
    FreeHead(s.pool);
    var msgs' := msgs + [Concat(BytesOf(inputs))];
    forall i | 0 <= i < |msgs'|
      ensures CarriesAt(s'.pool.chains, s'.waiting, msgs', i)
    {
      if i < |msgs| {
        assert CarriesAt(s.pool.chains, s.waiting, msgs, i);
      }
    }
  }

  /** The device reads the message of a chain that is intact. */
  lemma MessageRead(ram: Ram, desc: seq<Descriptor>, c: Chain)
    requires Intact(c, desc, ram)
    ensures Gather(ram, Segments(c.parts, 0, ReadCount(c.parts))) == Message(c)
  {
    var n := ReadCount(c.parts);
    var segments := Segments(c.parts, 0, n);
    forall i | 0 <= i < n
      ensures Pieces(ram, segments)[i] == PartBytes(c.parts, n)[i]
    {
      assert CellHolds(ram, c.parts[i]);
    }
    assert Pieces(ram, segments) == PartBytes(c.parts, n);
  }

  lemma CarriesRest(chains: map<nat, Chain>, waiting: seq<nat>, msgs: seq<seq<byte>>)
    requires Carries(chains, waiting, msgs) && waiting != []
    ensures CarriesAt(chains, waiting, msgs, 0) && Carries(chains, waiting[1..], msgs[1..])
  {
    forall i | 0 <= i < |msgs[1..]|
      ensures CarriesAt(chains, waiting[1..], msgs[1..], i)
    {
      var j := i + 1;
      assert CarriesAt(chains, waiting, msgs, j);
    }
  }

  /** Taking a chain receives the oldest message. */
  lemma FetchReceives(s: System, s': System, msgs: seq<seq<byte>>)
    requires Inv(s) && Carries(s.pool.chains, s.waiting, msgs) && FetchStep(s, s')
    ensures msgs != [] && Fetched(s) == msgs[0] && Carries(s'.pool.chains, s'.waiting, msgs[1..])
  {
    RingSafety.FetchSees(s);
    CarriesRest(s.pool.chains, s.waiting, msgs);
    MessageRead(s.ram, s.mem.desc, s.pool.chains[s.waiting[0]]);
  }

  /** Returning a chain sends what was written for it to the driver, who finds it in the chain's first
      writable buffer, and disturbs no message to the device. */
  lemma ReturnSends(s: System, s': System, msgs: seq<seq<byte>>, head: nat, bytes: seq<byte>)
    requires Inv(s) && Carries(s.pool.chains, s.waiting, msgs) && ReturnStep(s, s', head, bytes)
    ensures Carries(s'.pool.chains, s'.waiting, msgs)
    ensures s'.results == s.results + [bytes]
    ensures head in s'.pool.chains && FirstWritten(s'.ram, s'.pool.chains[head], |bytes|) == bytes
  {
    forall i | 0 <= i < |msgs|
      ensures CarriesAt(s'.pool.chains, s'.waiting, msgs, i)
    {
      assert CarriesAt(s.pool.chains, s.waiting, msgs, i);
    }
    RingSafety.ReturnKeeps(s, s', head, bytes);
    LastResult(s'.pool.chains, s'.ram, s'.posted, s'.results);
  }

  lemma LastResult(chains: map<nat, Chain>, ram: Ram, posted: seq<UsedElem>, results: seq<seq<byte>>)
    requires ResultsOk(chains, ram, posted, results) && posted != []
    ensures ResultAt(chains, ram, posted, results, |posted| - 1)
  {
  }

  lemma CarriesWithout(chains: map<nat, Chain>, waiting: seq<nat>, msgs: seq<seq<byte>>, token: nat)
    requires Carries(chains, waiting, msgs) && token !in waiting
    ensures Carries(chains - {token}, waiting, msgs)
  {
    forall i | 0 <= i < |msgs|
      ensures CarriesAt(chains - {token}, waiting, msgs, i)
    {
      assert CarriesAt(chains, waiting, msgs, i);
    }
  }

  lemma PostedNotWaiting(place: map<nat, Place>, taken: nat, waiting: seq<nat>, held: map<nat, Walked>,
                         popped: nat, posted: seq<UsedElem>)
    requires Places(place, taken, waiting, held, popped, posted) && posted != []
    ensures posted[0].id !in waiting
  {
    assert PostedAt(place, popped, posted, 0);
    forall i | 0 <= i < |waiting|
      ensures waiting[i] != posted[0].id
    {
      assert WaitingAt(place, taken, waiting, i);
    }
  }

  /** Popping a used element receives the oldest message from the device. */
  lemma PopReceives(s: System, s': System)
    requires Inv(s) && PopStep(s, s')
    ensures s.results != [] && PoppedBytes(s) == s.results[0] && s'.results == s.results[1..]
  {
    RingSafety.PopSees(s);
  }

  lemma PopQuiet(s: System, s': System, msgs: seq<seq<byte>>)
    requires Inv(s) && Carries(s.pool.chains, s.waiting, msgs) && PopStep(s, s')
    ensures Carries(s'.pool.chains, s'.waiting, msgs)
  {
    RingSafety.PopSees(s);
    PostedNotWaiting(s.place, s.taken, s.waiting, s.held, s.popped, s.posted);
    CarriesWithout(s.pool.chains, s.waiting, msgs, s.posted[0].id);
  }
}
