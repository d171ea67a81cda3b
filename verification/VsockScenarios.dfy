/** Runs over the queues that do something: two endpoints meet; a client that sends after shutting down loses its
    data although it is told that all went well; one that sends nothing stops its peer; two sides that send at the same
    time wait for each other for ever; and so does a driver that sends data with indirect descriptors. */
module VsockScenarios {
  import opened Wrappers
  import opened Words
  import opened Descriptors
  import opened DescriptorPool
  import opened RingMemory
  import opened VsockPacket
  import opened ConnectionInfo
  import opened VsockOverQueues
  import opened VsockEnding
  import opened VsockDeadlock
  import opened VsockProgress

  // ---------------------------------------------------------------------------------------
  // Starting

  function NewQueue(size: nat, indirect: bool): (s: Queue.System) {
    var mem := Memory(seq(size, _ => Descriptor(0, 0, Flags(false, false, false), 0)), 0, 0, seq(size, _ => 0), 0,
                      0, 0, seq(size, _ => UsedElem(0, 0)), 0);
    Queue.System(Fresh(size, indirect), 0, 0, mem, map[], 0, 0, map[], 0, 0, 0, 0, [], [], [], map[])
  }

  /** A receive queue with its first `k` buffers added. */
  ghost predicate Filling(s: Queue.System, size: nat, rxSize: nat, k: nat) {
    && s.pool.size == size && |s.pool.free| == size - k && s.held == map[] && s.posted == [] && s.results == []
    && forall h :: h in s.pool.chains ==> OneWritable(s.pool.chains[h], rxSize)
  }

  lemma {:induction false} Fill(size: nat, indirect: bool, rxSize: nat, k: nat) returns (r: RingSafety.Run)
    requires IsQueueSize(size) && 0 < rxSize < U32 && k <= size
    ensures RingSafety.IsRun(r) && Filling(r.state, size, rxSize, k)
  {
    if k == 0 {
      r := RingSafety.Start(NewQueue(size, indirect));
    } else {
      var before := Fill(size, indirect, rxSize, k - 1);
      RingSafety.RunInv(before);
      var s := before.state;
      var buffer := Buffer(k, seq(rxSize, _ => 0));
      var addrs, listAddr, s' := RingProgress.FreshAdd(s, [], [buffer]);
      var h, c := AddedShape(s, s', [], [buffer], addrs, listAddr);
      r := RingSafety.Then(before, Queue.Add([], [buffer], addrs, listAddr), s');
    }
  }

  datatype Setup = Setup(
    size: nat, indirect: bool, rxSize: nat, cids: (nat, nat), ports: (nat, nat), allowances: (nat, nat))

  ghost predicate SetupOk(c: Setup) {
    && IsQueueSize(c.size) && c.size >= 2 && HEADER_SIZE < c.rxSize < U32
    && c.cids.0 < Pow256(8) && c.cids.1 < Pow256(8) && c.ports.0 < Pow256(4) && c.ports.1 < Pow256(4)
    && c.allowances.0 < U32 && c.allowances.1 < U32
  }

  /** Two endpoints that have never met, a new transmit queue and a filled receive queue, of any size from two on. */
  lemma NewWorld(c: Setup) returns (w: World)
    requires SetupOk(c)
    ensures WorldInit(w) && w.tx.pool.size == c.size && w.tx.pool.indirect == c.indirect
    ensures w.a.info.bufAlloc == c.allowances.0 && w.b.info.bufAlloc == c.allowances.1
  {
    var a := NewInfo(Addr(c.cids.1, c.ports.1), c.ports.0, c.allowances.0);
    var b := NewInfo(Addr(c.cids.0, c.ports.0), c.ports.1, c.allowances.1);
    var filled := Fill(c.size, c.indirect, c.rxSize, c.size);
    RingSafety.RunInv(filled);
    w := World(Stream.NewEnd(c.cids.0, a, Stream.Unborn), Stream.NewEnd(c.cids.1, b, Stream.Unborn),
               NewQueue(c.size, c.indirect), filled.state, None, None, c.rxSize, [], []);
  }

  // ---------------------------------------------------------------------------------------
  // A packet to the device and back

  /** The run has got to `w'`. */
  ghost predicate Gets(w: World, w': World) {
    Reaches(w, w') && WorldInv(w') && w'.tx.pool.indirect == w.tx.pool.indirect
  }

  /** What was negotiated stays as it is. */
  lemma SameFeatures(w: World, w': World)
    requires Moves(w, w')
    ensures w'.tx.pool.indirect == w.tx.pool.indirect
  {
    var step :| WorldNext(w, w', step);
    match step {
      case Connect(at) =>
      case DriverDoes(op, at) =>
      case DriverPops =>
      case _ =>
    }
  }

  lemma GetsOn(w: World, w': World, w'': World)
    requires Gets(w, w') && Moves(w', w'')
    ensures Gets(w, w'')
  {
    Paths.OneMove(w', w'', Moves);
    Paths.Onward(w, w', w'', Moves);
    MoveKeeps(w', w'');
    SameFeatures(w', w'');
  }

  /** The device takes the packet on the transmit queue and returns it, and the driver, which waits for it, pops it. */
  lemma Exchange(start: World, w: World) returns (w': World)
    requires Gets(start, w) && DeviceFree(w) && w.b.due.None? && w.ab != [] && !Barred(w)
             && !Stream.Panics(w.b, w.ab[0])
    ensures Gets(start, w') && Stream.TakeStep(w.b, w.ab, true, w'.b, []) && w' == w.(b := w'.b, ab := [], tx := w'.tx)
    ensures w'.tx.pool.chains == map[]
  {
    var taken := DeviceCanPoll(w);
    GetsOn(start, w, taken);
    assert Queue.FetchHead(w.tx) in taken.tx.held;
    var given := GiveBack(taken);
    GetsOn(start, taken, given);
    w' := PopBack(given);
    GetsOn(start, given, w');
  }

  // ---------------------------------------------------------------------------------------
  // The endpoints meet

  /** The driver asks for the connection. */
  lemma Asks(w: World) returns (w': World)
    requires WorldInit(w)
    ensures Gets(w, w') && w' == w.(a := w.a.(status := Stream.Open), ab := w'.ab, tx := w'.tx)
    ensures w'.ab == [Stream.MakeFlight(w'.a, OP_REQUEST, [])] && DeviceFree(w')
  {
    WorldInitInv(w);
    var a := w.a.(status := Stream.Open);
    var f := Stream.MakeFlight(a, OP_REQUEST, []);
    var at, tx := CanTransmit(w.tx, f);
    w' := w.(a := a, tx := tx, ab := w.ab + [f]);
    assert WorldNext(w, w', Connect(at));
    Paths.OneMove(w, w', Moves);
    MoveKeeps(w, w');
    SameFeatures(w, w');
  }

  /** With nothing under way to the driver, all receive buffers are with the device. */
  lemma AllBuffers(w: World)
    requires WorldInv(w) && w.back.None? && w.ba == []
    ensures |w.rx.waiting| == w.rx.pool.size > 0
  {
    BuffersAndPackets(w);
    var m := QueueSizeDivides(w.rx.pool.size);
  }

  /** The device, which is free, does what its endpoint allows, and sends the packet at once. */
  lemma Emits(start: World, w: World, op: Stream.Op) returns (w': World)
    requires Gets(start, w) && DeviceFree(w) && w.rx.waiting != [] && Stream.Allowed(w.b, op)
    requires var f := Stream.Attempt(w.b, op); f.Some? && |Stream.Wire(f.value)| <= w.rxSize
    ensures Gets(start, w') && Stream.ActStep(w.b, w.ba, op, true, w'.b, w'.ba) && w'.rx.waiting == w.rx.waiting[1..]
    ensures w' == w.(b := w'.b, ba := w'.ba, rx := w'.rx)
  {
    var made := DeviceCanDo(w, op);
    GetsOn(start, w, made);
    w' := DeviceCanSend(made);
    GetsOn(start, made, w');
  }

  /** The device sends the answer that it owes. */
  lemma Answers(start: World, w: World) returns (w': World)
    requires Gets(start, w) && DeviceFree(w) && w.b.due.Some? && w.rx.waiting != []
    ensures Gets(start, w') && w' == w.(b := w.b.(due := None), rx := w'.rx, ba := w'.ba)
    ensures w'.ba == w.ba + [Stream.MakeFlight(w.b, w.b.due.value, [])]
  {
    RepliesAreHeaders(w.b);
    w' := Emits(start, w, Stream.DoReply);
  }

  /** An endpoint takes the response, and with it the credit. */
  lemma ResponseTaken(x: Stream.End, y: Stream.End, xy: seq<Stream.Flight>, yx: seq<Stream.Flight>, y': Stream.End)
    requires Stream.EndOk(x) && Stream.EndOk(y) && Stream.Peers(x, y) && Stream.Flow(x, y, xy, yx)
    requires y.status.Open? && xy != [] && xy[0].header.op == OP_RESPONSE && Stream.TakeStep(y, xy, true, y', xy[1..])
    ensures y' == y.(info := y'.info, learned := y'.learned)
    ensures y'.info == y.info.(peerBufAlloc := x.info.bufAlloc, peerFwdCnt := xy[0].forwarded % U32)
  {
    Stream.ReceiveSucceeds(y, x, xy, yx, true);
    assert Stream.FlightOk(xy[0], x);
    Stream.WireDecodes(xy[0], y, x);
  }

  /** The driver takes the response and adds the buffer again. */
  lemma Hears(start: World, w: World) returns (w': World)
    requires Gets(start, w) && DriverFree(w) && w.a.status.Open? && w.a.due.None? && w.rx.posted != []
    requires |w.ba| == 1 && w.ba[0].header.op == OP_RESPONSE && w.ba[0].forwarded == 0
    ensures Gets(start, w') && w' == w.(a := w'.a, ba := [], rx := w'.rx)
    ensures w'.a == w.a.(info := w'.a.info, learned := w'.a.learned)
    ensures w'.a.info == w.a.info.(peerBufAlloc := w.b.info.bufAlloc, peerFwdCnt := 0)
  {
    Begun(w);
    var popped := DriverCanPoll(w);
    ResponseTaken(w.b, w.a, w.ba, w.ab, popped.a);
    GetsOn(start, w, popped);
    w' := Refill(popped);
    GetsOn(start, popped, w');
  }

  /** The connection stands, nothing is under way or owed or unread, and the driver has credit for as much as the
      device's buffer holds. */
  ghost predicate Met(w: World) {
    && w.a.status.Open? && w.b.status.Open? && w.a.due.None? && w.b.due.None? && DriverFree(w) && DeviceFree(w)
    && w.ab == [] && w.ba == [] && w.b.contents == []
    && w.a.sent == [] && w.b.drained == [] && PeerFree(w.a.info) == w.b.info.bufAlloc
  }

  /** The device takes the request. */
  lemma Welcomed(start: World, w: World) returns (w': World)
    requires WorldInit(start) && Gets(start, w) && DeviceFree(w) && w.b.status.Unborn? && w.b.due.None?
    requires w.a == start.a.(status := Stream.Open) && w.ab != [] && w.ab[0].body == [] && w.b == start.b
    ensures Gets(start, w') && w'.tx.pool.chains == map[] && w' == w.(b := w'.b, ab := [], tx := w'.tx)
    ensures w'.b == w.b.(info := w'.b.info, status := Stream.Open, due := Some(OP_RESPONSE), learned := w'.b.learned)
    ensures w'.b.info.bufAlloc == w.b.info.bufAlloc
  {
    Begun(w);
    Stream.RequestTaken(w.b, w.a, w.ab, w.ba);
    w' := Exchange(start, w);
  }

  /** What was asked for and taken is answered and heard of. */
  lemma Settled(start: World, w: World) returns (w': World)
    requires Gets(start, w) && DriverFree(w) && w.outbox.None? && w.a.status.Open? && w.a.due.None? && w.ab == []
             && w.ba == []
    requires w.b.due == Some(OP_RESPONSE) && w.b.drained == []
    ensures Gets(start, w') && w' == w.(a := w'.a, b := w.b.(due := None), rx := w'.rx)
    ensures w'.a == w.a.(info := w'.a.info, learned := w'.a.learned)
    ensures w'.a.info == w.a.info.(peerBufAlloc := w.b.info.bufAlloc, peerFwdCnt := 0)
  {
    NothingOnTx(w);
    AllBuffers(w);
    var answered := Answers(start, w);
    BuffersAndPackets(answered);
    w' := Hears(start, answered);
  }

  /** From a new world the two endpoints come to meet. */
  lemma Meet(w: World) returns (w': World)
    requires WorldInit(w)
    ensures Gets(w, w') && Met(w') && w'.b.info.bufAlloc == w.b.info.bufAlloc && w'.a.info.bufAlloc == w.a.info.bufAlloc
  {
    var asked := Asks(w);
    var taken := Welcomed(w, asked);
    w' := Settled(w, taken);
    NothingOnTx(w');
  }

  lemma Meets(c: Setup) returns (start: World, met: World)
    requires SetupOk(c)
    ensures WorldInit(start) && Gets(start, met) && Met(met) && met.tx.pool.indirect == c.indirect
    ensures met.a.info.bufAlloc == c.allowances.0 && met.b.info.bufAlloc == c.allowances.1
  {
    start := NewWorld(c);
    met := Meet(start);
  }

  lemma Reached(start: World, w: World)
    requires WorldInit(start) && Reaches(start, w)
    ensures Reachable(w)
  {
  }

  // ---------------------------------------------------------------------------------------
  // Sending after a shutdown

  lemma ShutdownCloses(x: Stream.End, y: Stream.End, xy: seq<Stream.Flight>, yx: seq<Stream.Flight>, y': Stream.End)
    requires Stream.EndOk(x) && Stream.EndOk(y) && Stream.Peers(x, y) && Stream.Flow(x, y, xy, yx)
    requires Stream.Listed(y) && y.contents == [] && xy != [] && xy[0].header.op == OP_SHUTDOWN
    requires Stream.TakeStep(y, xy, true, y', xy[1..])
    ensures y'.status.Closed? && y'.drained == y.drained && y'.due == Some(OP_RST)
  {
    Stream.ReceiveSucceeds(y, x, xy, yx, true);
    assert Stream.FlightOk(xy[0], x);
    Stream.WireDecodes(xy[0], y, x);
    Stream.ReceivedSame(y, xy[0], true);
  }

  /** The driver's client shuts the connection down, and the device, which has nothing unread, closes it and answers
      with a reset. */
  lemma ShutsDown(start: World, w: World) returns (w': World)
    requires Gets(start, w) && Met(w)
    ensures Gets(start, w') && w' == w.(b := w'.b, tx := w'.tx, rx := w'.rx, ba := w'.ba) && w'.tx.pool.chains == map[]
    ensures w'.b.status.Closed? && w'.b.drained == [] && w'.b.due.None?
  {
    var sent := DriverActs(start, w, Stream.DoEmit(OP_SHUTDOWN));
    var taken := TakesShutdown(start, sent);
    NothingOnTx(taken);
    AllBuffers(taken);
    w' := Answers(start, taken);
  }

  lemma TakesShutdown(start: World, w: World) returns (w': World)
    requires Gets(start, w) && w.b.status.Open? && w.b.due.None? && w.b.contents == [] && w.b.drained == []
    requires w.outbox.None? && |w.ab| == 1 && w.ab[0].header.op == OP_SHUTDOWN && w.ab[0].body == []
    ensures Gets(start, w') && w' == w.(b := w'.b, ab := [], tx := w'.tx) && w'.tx.pool.chains == map[]
    ensures w'.b.status.Closed? && w'.b.drained == [] && w'.b.due.Some?
  {
    LoneWaits(w.tx);
    Begun(w);
    w' := Exchange(start, w);
    ShutdownCloses(w.a, w.b, w.ab, w.ba, w'.b);
  }

  /** A packet to a connection that is gone is ignored. */
  lemma ClosedIgnores(x: Stream.End, y: Stream.End, xy: seq<Stream.Flight>, yx: seq<Stream.Flight>, y': Stream.End)
    requires Stream.EndOk(x) && Stream.EndOk(y) && Stream.Peers(x, y) && Stream.Flow(x, y, xy, yx)
    requires y.status.Closed? && xy != [] && Stream.TakeStep(y, xy, true, y', xy[1..])
    ensures y'.status.Closed? && y'.drained == y.drained
  {
    Stream.ReceiveSucceeds(y, x, xy, yx, true);
    assert Stream.FlightOk(xy[0], x);
    Stream.WireDecodes(xy[0], y, x);
    Stream.ReceivedSame(y, xy[0], true);
  }

  lemma ExchangeIgnored(start: World, w: World) returns (w': World)
    requires Gets(start, w) && w.outbox.None? && w.b.due.None? && w.ab != [] && !Barred(w) && w.b.status.Closed?
    ensures Gets(start, w') && w'.a == w.a && w'.back == w.back && w'.tx.pool.chains == map[]
    ensures w'.b.status.Closed? && w'.b.drained == w.b.drained
  {
    LoneWaits(w.tx);
    Begun(w);
    w' := Exchange(start, w);
    ClosedIgnores(w.a, w.b, w.ab, w.ba, w'.b);
  }

  /** The driver's client sends all the same. The packet is taken and returned, so that `send` answers Ok. */
  lemma SendsInVain(start: World, w: World, bytes: seq<byte>) returns (w': World)
    requires Gets(start, w) && w.a.status.Open? && w.a.due.None? && DriverFree(w) && w.ab == [] && !w.tx.pool.indirect
    requires w.b.status.Closed? && w.b.due.None? && w.outbox.None? && 0 < |bytes| <= PeerFree(w.a.info)
    ensures Gets(start, w') && DriverFree(w') && Sends(w.a, bytes, w'.a)
    ensures w'.b.status.Closed? && w'.b.drained == w.b.drained
  {
    var sent := SendsData(start, w, bytes);
    w' := ExchangeIgnored(start, sent);
  }

  /** `send` with these bytes answers Ok, and leaves the endpoint so. */
  ghost predicate Sends(me: Stream.End, bytes: seq<byte>, me': Stream.End) {
    && Stream.Send(me, bytes, true).0 == me' && Stream.Send(me, bytes, true).2 == Ok(())
    && me'.sent == me.sent + bytes && me'.due == me.due && me'.status == me.status
  }

  /** The driver's client calls `send`, and waits. */
  lemma SendsData(start: World, w: World, bytes: seq<byte>) returns (w': World)
    requires Gets(start, w) && w.a.status.Open? && w.a.due.None? && DriverFree(w) && w.ab == []
    requires 0 < |bytes| <= PeerFree(w.a.info)
    ensures Gets(start, w') && w' == w.(a := w'.a, ab := w'.ab, tx := w'.tx) && Sends(w.a, bytes, w'.a)
    ensures w'.ab == [Stream.MakeFlight(w.a, OP_RW, bytes)] && w'.tx.waiting != []
  {
    DataMade(w.a, bytes);
    w' := DriverActs(start, w, Stream.DoSend(bytes));
    UnderWay(w');
  }

  lemma DriverActs(start: World, w: World, op: Stream.Op) returns (w': World)
    requires Gets(start, w) && DriverFree(w) && Stream.Allowed(w.a, op)
    ensures Gets(start, w') && w' == w.(a := Stream.After(w.a, op, true), ab := w'.ab, tx := w'.tx)
    ensures w'.ab == Stream.Put(w.ab, Stream.Attempt(w.a, op), true)
  {
    w' := DriverCanDo(w, op);
    GetsOn(start, w, w');
  }

  lemma DataMade(me: Stream.End, bytes: seq<byte>)
    requires me.status.Open? && me.due.None? && 0 < |bytes| <= PeerFree(me.info)
    ensures var op := Stream.DoSend(bytes); Stream.Allowed(me, op) && Sends(me, bytes, Stream.After(me, op, true))
    ensures var f := Stream.Attempt(me, Stream.DoSend(bytes));
            f == Some(Stream.MakeFlight(me, OP_RW, bytes)) && Stream.Put([], f, true) == [f.value]
  {
  }

  lemma UnderWay(w: World)
    requires OnQueues(w) && w.ab != []
    ensures w.tx.waiting != []
  {
  }

  /** A client that shuts a connection down and then sends is told that its data was accepted, and nobody can ever read
      it: in every setup with direct descriptors, and for all data that the credit covers. `before` is the state in
      which it calls `send`, `w` the one in which `send` has returned. */
  lemma LosingRun(c: Setup, bytes: seq<byte>) returns (before: World, w: World)
    requires SetupOk(c) && !c.indirect && 0 < |bytes| <= c.allowances.1
    ensures Reachable(before) && Reachable(w) && DriverFree(w) && Sends(before.a, bytes, w.a) && w.a.sent == bytes
    ensures !DriverCanBeHeard(w)
  {
    var start, met := Meets(c);
    before := ShutsDown(start, met);
    w := SendsInVain(start, before, bytes);
    Gone(w);
    Reached(start, before);
    Reached(start, w);
  }

  lemma Gone(w: World)
    requires WorldInv(w) && |w.b.drained| < |w.a.sent| && w.b.status.Closed?
    ensures !DriverCanBeHeard(w)
  {
    DriverNeverHeard(w);
  }

  // ---------------------------------------------------------------------------------------
  // A buffer without capacity

  lemma EmptySend(x: Stream.End, out: seq<Stream.Flight>)
    requires Stream.Listed(x) && x.due.None?
    ensures var op, f := Stream.DoSend([]), Stream.MakeFlight(x, OP_RW, []);
            && Stream.Allowed(x, op) && Stream.Attempt(x, op) == Some(f) && |Stream.Wire(f)| == HEADER_SIZE
            && Stream.Send(x, [], true) == (Stream.After(x, op, true), Some(f), Ok(()))
            && Stream.Put(out, Some(f), true) == out + [f]
  {
  }

  /** When the driver's buffers have no capacity, the device's client can send nothing at all, is told that this went
      well, and the driver's next poll stops the program. */
  lemma EmptyDataStops(c: Setup) returns (before: World, w: World)
    requires SetupOk(c) && c.allowances.0 == 0
    ensures Reachable(before) && Reachable(w) && DeviceFree(w) && Sends(before.b, [], w.b)
    ensures DriverFree(w) && w.a.due.None? && w.ba != [] && Stream.Panics(w.a, w.ba[0])
  {
    var start;
    start, before := Meets(c);
    w := SendsNothing(start, before);
    Reached(start, before);
    Reached(start, w);
  }

  lemma SendsNothing(start: World, w: World) returns (w': World)
    requires Gets(start, w) && Met(w) && w.a.info.bufAlloc == 0
    ensures Gets(start, w') && DriverFree(w') && DeviceFree(w') && w'.a == w.a && Sends(w.b, [], w'.b)
    ensures w'.ba != [] && Stream.Panics(w'.a, w'.ba[0])
  {
    AllBuffers(w);
    EmptySend(w.b, w.ba);
    w' := Emits(start, w, Stream.DoSend([]));
  }

  // ---------------------------------------------------------------------------------------
  // Waiting for each other

  /** The device's client sends credit updates, one after the other. */
  lemma {:induction false} Emptied(start: World, w: World, k: nat) returns (w': World)
    requires Gets(start, w) && DeviceFree(w) && w.b.status.Open? && w.b.due.None? && k <= |w.rx.waiting|
    ensures Gets(start, w') && w' == w.(ba := w'.ba, rx := w'.rx) && |w'.rx.waiting| == |w.rx.waiting| - k
  {
    if k == 0 {
      w' := w;
    } else {
      var before := Emptied(start, w, k - 1);
      UpdateMade(before.b);
      w' := Emits(start, before, Stream.DoEmit(OP_CREDIT_UPDATE));
    }
  }

  /** A credit update is a header, and changes nothing at its sender. */
  lemma UpdateMade(me: Stream.End)
    requires Stream.EndOk(me) && me.status.Open? && me.due.None?
    ensures var op := Stream.DoEmit(OP_CREDIT_UPDATE); Stream.Allowed(me, op) && Stream.After(me, op, true) == me
    ensures var f := Stream.Attempt(me, Stream.DoEmit(OP_CREDIT_UPDATE));
            f.Some? && |Stream.Wire(f.value)| == HEADER_SIZE
  {
  }

  /** It has used up the receive buffers, and sends once more: it waits for a buffer. */
  lemma WaitsForBuffer(start: World, w: World) returns (w': World)
    requires Gets(start, w) && Met(w)
    ensures Gets(start, w') && w' == w.(ba := w'.ba, rx := w'.rx, outbox := w'.outbox)
    ensures w'.rx.waiting == [] && w'.outbox.Some?
  {
    var empty := Emptied(start, w, |w.rx.waiting|);
    UpdateMade(empty.b);
    w' := DeviceCanDo(empty, Stream.DoEmit(OP_CREDIT_UPDATE));
    GetsOn(start, empty, w');
  }

  /** When the device's client has used up the receive buffers and sends once more, and the driver's client sends at the
      same time, the two wait for each other for ever. Nobody has ended the connection, and yet the data is never
      read. */
  lemma DeadlockingRun(c: Setup, bytes: seq<byte>) returns (w: World)
    requires SetupOk(c) && 0 < |bytes| <= c.allowances.1
    ensures Reachable(w) && Deadlocked(w) && w.a.sent == bytes && !Doomed(w.b, w.ab, |bytes|)
    ensures !DriverCanBeHeard(w)
  {
    var start, met := Meets(c);
    w := BothSend(start, met, bytes);
    Reached(start, w);
  }

  lemma BothSend(start: World, w: World, bytes: seq<byte>) returns (w': World)
    requires Gets(start, w) && Met(w) && 0 < |bytes| <= w.b.info.bufAlloc
    ensures Gets(start, w') && Deadlocked(w') && !DriverCanBeHeard(w')
    ensures w'.a.sent == bytes && !Doomed(w'.b, w'.ab, |bytes|)
  {
    var waits := WaitsForBuffer(start, w);
    w' := SendsData(start, waits, bytes);
    Locked(w');
    StillOpen(w'.b, w'.ab, |bytes|);
  }

  /** Nothing is lost yet while the connection stands and nothing under way ends it. */
  lemma StillOpen(me: Stream.End, fs: seq<Stream.Flight>, n: nat)
    requires me.status.Open? && |fs| == 1 && fs[0].header.op == OP_RW
    ensures !Doomed(me, fs, n)
  {
  }

  lemma Locked(w: World)
    requires WorldInv(w) && |w.b.drained| < |w.a.sent| && w.back.None? && w.tx.waiting != []
    requires w.outbox.Some? && w.rx.waiting == []
    ensures Deadlocked(w) && !DriverCanBeHeard(w)
  {
    DriverNeverHeard(w);
  }

  // ---------------------------------------------------------------------------------------
  // Indirect descriptors

  /** With indirect descriptors, which the driver offers, the first data that it sends stops the device's `poll`, and is
      never read. */
  lemma IndirectRun(c: Setup, bytes: seq<byte>, listening: bool) returns (w: World)
    requires SetupOk(c) && c.indirect && 0 < |bytes| <= c.allowances.1
    ensures Reachable(w) && w.a.sent == bytes && !Doomed(w.b, w.ab, |bytes|) && !Deadlocked(w)
    ensures DeviceFree(w) && w.b.due.None? && DeviceAnswer(w, listening) == Err(Panicked)
    ensures !DriverCanBeHeard(w)
  {
    var start, met := Meets(c);
    w := SendsIndirect(start, met, bytes, listening);
    Reached(start, w);
  }

  lemma SendsIndirect(start: World, w: World, bytes: seq<byte>, listening: bool) returns (w': World)
    requires Gets(start, w) && Met(w) && w.tx.pool.indirect && 0 < |bytes| <= w.b.info.bufAlloc
    ensures Gets(start, w') && w'.a.sent == bytes && !Doomed(w'.b, w'.ab, |bytes|) && !Deadlocked(w')
    ensures DeviceFree(w') && w'.b.due.None? && DeviceAnswer(w', listening) == Err(Panicked)
    ensures !DriverCanBeHeard(w')
  {
    AllBuffers(w);
    w' := SendsData(start, w, bytes);
    StopsAt(w', listening);
    StillOpen(w'.b, w'.ab, |bytes|);
    NotBusy(w');
  }

  lemma NotBusy(w: World)
    requires DeviceFree(w) && w.b.due.None? && w.rx.waiting != []
    ensures !Deadlocked(w)
  {
  }

  lemma StopsAt(w: World, listening: bool)
    requires WorldInv(w) && Barred(w) && |w.b.drained| < |w.a.sent|
    ensures DeviceAnswer(w, listening) == Err(Panicked) && w.tx.held == map[] && !DriverCanBeHeard(w)
  {
    DriverNeverHeard(w);
    BarredWaits(w);
    RingProgress.FetchEnabled(w.tx);
    DevicePollSucceeds(w, RingProgress.AfterFetch(w.tx), listening);
  }
}
