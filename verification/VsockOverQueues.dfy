/** One vsock connection between a driver and a device, end to end over their two queues.

    The driver's endpoint `a` sends through the transmit queue and receives from the receive queue; the
    device's endpoint `b` does the opposite. Every byte goes through the rings and the bus memory.

    Either side has one thread. The driver's waits after sending until the device has returned the packet, and the
    device's waits before sending until it has a receive buffer; what a side does while it waits is nothing. */
module VsockOverQueues {
  import opened Wrappers
  import opened Words
  import opened Descriptors
  import opened DescriptorPool
  import opened VsockPacket
  import opened DeviceVirtQueue
  import opened QueueChannel
  import Queue = RingProtocol
  import RingProgress
  import QueuePair
  import Paths
  import opened Stream = VsockStream

  /** The two endpoints and the two queues. `back` is the receive buffer that the driver's `poll` has popped
      and not yet added again, `outbox` the packet for which the device waits to get a receive buffer, and `rxSize` the
      length of every receive buffer. `ab` and `ba` are history: the packets under way, that in the outbox last,
      which the steps below only follow to keep the histories of the endpoints. */
  datatype World = World(
    a: Stream.End, b: Stream.End, tx: Queue.System, rx: Queue.System, back: Option<Buffer>, outbox: Option<Flight>,
    rxSize: nat, ab: seq<Stream.Flight>, ba: seq<Stream.Flight>)

  function StreamOf(w: World): (s: Stream.Stream) {
    Stream.Stream(w.a, w.b, w.ab, w.ba)
  }

  /** The buffers that are passed to the queue for a packet: the body only if there is one. */
  ghost predicate BuffersOf(inputs: seq<Buffer>, f: Flight) {
    && |inputs| == (if f.body == [] then 1 else 2)
    && inputs[0].bytes == EncodeHeader(f.header)
    && (f.body != [] ==> inputs[1].bytes == f.body)
  }

  // ---------------------------------------------------------------------------------------
  // Steps

  /** The buffers of a request and where the HAL puts them. */
  datatype Placement = Placement(inputs: seq<Buffer>, addrs: seq<nat>, listAddr: nat)

  datatype WorldStep =
    | Connect(at: Placement)
    | DriverDoes(op: Stream.Op, at: Placement)
    | DriverPops
    | DriverPolls(listening: bool)
    | DriverRefills(addr: nat)
    | DeviceDoes(op: Stream.Op)
    | DeviceSends
    | DevicePolls(listening: bool)
    | DeviceReturns(head: nat)

  /** The driver is not in the middle of `poll`, and does not wait in `add_notify_wait_pop`. */
  predicate DriverFree(w: World) {
    w.back.None? && w.tx.pool.chains == map[]
  }

  /** The device is not in the middle of `poll`, and does not wait in `wait_pop_add_notify`. */
  predicate DeviceFree(w: World) {
    w.outbox.None? && w.tx.held == map[]
  }

  /** `add` on the transmit queue, if there is a packet to send. The caller then waits until it can pop it. */
  ghost predicate Transmit(tx: Queue.System, tx': Queue.System, f: Option<Flight>, at: Placement) {
    if f.None? then tx' == tx
    else
      && tx.pool.chains == map[] && BuffersOf(at.inputs, f.value)
      && Queue.AddStep(tx, tx', at.inputs, [], at.addrs, at.listAddr)
  }

  /** `wait_pop_add_notify` on the receive queue, once there is a chain: it writes to the start of the chain's first
      buffer, which must be large enough. */
  ghost predicate Deliver(rx: Queue.System, rx': Queue.System, f: Flight) {
    var taken := RingProgress.AfterFetch(rx);
    Queue.FetchStep(rx, taken) && Queue.ReturnStep(taken, rx', Queue.FetchHead(rx), Wire(f))
  }

  /** What `poll` of an endpoint does with the answer of its handler. What it owes the peer then is sent in a
      step of its own. */
  ghost predicate Handles(me: End, me': End, answer: Result<(End, Option<Event>), Error>, inn: seq<Flight>,
                          inn': seq<Flight>) {
    && CanTake(me) && answer.Ok? && me' == answer.value.0
    && inn' == (if inn == [] then [] else inn[1..])
  }

  /** The forward count of the first packet. */
  function Forwarded(inn: seq<Flight>): (n: nat) {
    if inn == [] then 0 else inn[0].forwarded
  }

  /** The answer of the driver's handler to the packet that is next on the used ring. */
  function DriverAnswer(w: World, listening: bool): (r: Result<(End, Option<Event>), Error>) {
    Receive(w.a, PoppedBytes(w.rx), Forwarded(w.ba), listening)
  }

  /** The answer of the device's handler to the packet that is next on the available ring, if its walk along the chain
      gets to the end. */
  function DeviceAnswer(w: World, listening: bool): (r: Result<(End, Option<Event>), Error>) {
    match PopResult(w.tx.mem.desc, Queue.FetchHead(w.tx))
    case Err(error) => Err(error)
    case Ok(None) => Err(NotReady)
    case Ok(Some(popped)) =>
      if popped.writable != [] then Err(Unsupported)
      else Receive(w.b, Gather(w.tx.ram, popped.readable), Forwarded(w.ab), listening)
  }

  /** The buffer of the chain that is next on the used ring of the receive queue. */
  function NextBuffer(rx: Queue.System): (b: Option<Buffer>) {
    var token := Queue.PopElem(rx).id % U16;
    if token in rx.pool.chains && |rx.pool.chains[token].parts| == 1 then
      Some(rx.pool.chains[token].parts[0].buffer)
    else None
  }

  ghost predicate ConnectStep(w: World, w': World, at: Placement) {
    var a := w.a.(status := Open);
    var f := MakeFlight(a, OP_REQUEST, []);
    && w.a.status.Unborn? && DriverFree(w) && Transmit(w.tx, w'.tx, Some(f), at)
    && w' == w.(a := a, ab := w.ab + [f], tx := w'.tx)
  }

  ghost predicate DriverStep(w: World, w': World, op: Stream.Op, at: Placement) {
    && DriverFree(w)
    && ActStep(w.a, w.ab, op, true, w'.a, w'.ab) && Transmit(w.tx, w'.tx, Attempt(w.a, op), at)
    && w' == w.(a := w'.a, ab := w'.ab, tx := w'.tx)
  }

  ghost predicate DriverPopStep(w: World, w': World) {
    Queue.PopStep(w.tx, w'.tx) && w' == w.(tx := w'.tx)
  }

  ghost predicate DriverPollStep(w: World, w': World, listening: bool) {
    && DriverFree(w) && Queue.PopStep(w.rx, w'.rx)
    && Handles(w.a, w'.a, DriverAnswer(w, listening), w.ba, w'.ba)
    && w' == w.(a := w'.a, ba := w'.ba, rx := w'.rx, back := NextBuffer(w.rx))
  }

  ghost predicate DriverRefillStep(w: World, w': World, addr: nat) {
    && w.back.Some? && Queue.AddStep(w.rx, w'.rx, [], [w.back.value], [addr], 0)
    && w' == w.(rx := w'.rx, back := None)
  }

  /** The device makes the packet and goes on to wait for a buffer. The packet must fit. */
  ghost predicate DeviceStep(w: World, w': World, op: Stream.Op) {
    var f := Attempt(w.b, op);
    && DeviceFree(w) && ActStep(w.b, w.ba, op, true, w'.b, w'.ba) && (f.Some? ==> |Wire(f.value)| <= w.rxSize)
    && w' == w.(b := w'.b, ba := w'.ba, outbox := f)
  }

  ghost predicate DeviceSendStep(w: World, w': World) {
    && w.outbox.Some? && Deliver(w.rx, w'.rx, w.outbox.value)
    && w' == w.(rx := w'.rx, outbox := None)
  }

  ghost predicate DevicePollStep(w: World, w': World, listening: bool) {
    && DeviceFree(w) && Queue.FetchStep(w.tx, w'.tx)
    && Handles(w.b, w'.b, DeviceAnswer(w, listening), w.ab, w'.ab)
    && w' == w.(b := w'.b, ab := w'.ab, tx := w'.tx)
  }

  ghost predicate DeviceReturnStep(w: World, w': World, head: nat) {
    Queue.ReturnStep(w.tx, w'.tx, head, []) && w' == w.(tx := w'.tx)
  }

  ghost predicate WorldNext(w: World, w': World, step: WorldStep) {
    match step
    case Connect(at) => ConnectStep(w, w', at)
    case DriverDoes(op, at) => DriverStep(w, w', op, at)
    case DriverPops => DriverPopStep(w, w')
    case DriverPolls(listening) => DriverPollStep(w, w', listening)
    case DriverRefills(addr) => DriverRefillStep(w, w', addr)
    case DeviceDoes(op) => DeviceStep(w, w', op)
    case DeviceSends => DeviceSendStep(w, w')
    case DevicePolls(listening) => DevicePollStep(w, w', listening)
    case DeviceReturns(head) => DeviceReturnStep(w, w', head)
  }

  /** The connection as it will be once `a` has asked for it. */
  function Asked(w: World): (s: Stream.Stream) {
    var a := w.a.(status := Open);
    Stream.Stream(a, w.b, w.ab + [MakeFlight(a, OP_REQUEST, [])], w.ba)
  }

  /** A receive queue as `OwningQueue::new` leaves it: all descriptors are in flight, and the device has not
      taken any yet. */
  ghost predicate Filled(rx: Queue.System) {
    Queue.Inv(rx) && rx.pool.free == [] && rx.held == map[] && rx.posted == [] && rx.results == []
  }

  /** A new transmit queue, which has room for a header and a body, a filled receive queue, and no connection yet. */
  ghost predicate WorldInit(w: World) {
    && Queue.Init(w.tx) && w.tx.pool.size >= 2 && Filled(w.rx) && w.back.None? && w.outbox.None?
    && HEADER_SIZE < w.rxSize < U32 && Shapes(w.tx.pool, w.rx.pool, w.rxSize)
    && w.a.status.Unborn? && w.ab == [] && w.ba == [] && Stream.Init(Asked(w))
  }

  // ---------------------------------------------------------------------------------------
  // The invariant

  function Wires(fs: seq<Flight>): (ws: seq<seq<byte>>) {
    seq(|fs|, i requires 0 <= i < |fs| => Wire(fs[i]))
  }

  /** The packets that are on the receive queue. */
  function OnRx(w: World): (fs: seq<Flight>) {
    if w.outbox.Some? && w.ba != [] then w.ba[..|w.ba| - 1] else w.ba
  }

  /** The queues hold exactly the packets under way. */
  ghost predicate OnQueues(w: World) {
    && Carries(w.tx.pool.chains, w.tx.waiting, Wires(w.ab))
    && (w.outbox.Some? ==> w.ba != [] && w.ba[|w.ba| - 1] == w.outbox.value)
    && w.rx.results == Wires(OnRx(w))
  }

  /** Requests on the transmit queue only have buffers to read; those on the receive queue have one buffer
      to write, of length `rxSize`. */
  ghost predicate Shapes(tx: Pool, rx: Pool, rxSize: nat) {
    && (forall h :: h in tx.chains ==> Queue.ReadCount(tx.chains[h].parts) == |tx.chains[h].parts|)
    && (forall h :: h in rx.chains ==> OneWritable(rx.chains[h], rxSize))
  }

  ghost predicate OneWritable(c: Chain, size: nat) {
    && |c.parts| == 1 && |c.descs| == 1 && c.list.None?
    && c.parts[0].dir == DeviceToDriver && |c.parts[0].buffer.bytes| == size
  }

  /** All receive buffers are in flight, except the one being handled, and the device keeps none. */
  ghost predicate Supply(w: World) {
    && HEADER_SIZE < w.rxSize < U32 && w.rx.held == map[]
    && (if w.back.None? then w.rx.pool.free == []
        else |w.rx.pool.free| == 1 && |w.back.value.bytes| == w.rxSize)
  }

  /** The connection, from the moment `a` has asked for it, is a state of the stream model. */
  ghost predicate Connected(w: World) {
    if w.a.status.Unborn? then w.ab == [] && w.ba == [] && Stream.Init(Asked(w))
    else Stream.Inv(StreamOf(w))
  }

  ghost predicate Flowing(w: World) {
    Queue.Inv(w.tx) && Queue.Inv(w.rx) && OnQueues(w) && Connected(w)
  }

  /** At most one packet is on the transmit queue. */
  ghost predicate Lone(tx: Queue.System) {
    tx.pool.size >= 2 && forall h, h' :: h in tx.pool.chains && h' in tx.pool.chains ==> h == h'
  }

  /** Either thread does one thing at a time. */
  predicate OneThread(w: World) {
    && (w.back.Some? || w.a.due.Some? ==> w.tx.pool.chains == map[])
    && (w.outbox.Some? ==> w.b.due.None? && w.tx.held == map[] && |Wire(w.outbox.value)| <= w.rxSize)
  }

  /** The packet that waits on the transmit queue is an indirect chain. */
  predicate NextIndirect(w: World) {
    && w.tx.waiting != [] && w.tx.waiting[0] in w.tx.pool.chains
    && w.tx.pool.chains[w.tx.waiting[0]].list.Some?
  }

  /** A packet with a body is under way to the device, and indirect descriptors were negotiated. */
  predicate Barred(w: World) {
    w.tx.pool.indirect && w.ab != [] && w.ab[0].body != []
  }

  ghost predicate Orderly(w: World) {
    && Shapes(w.tx.pool, w.rx.pool, w.rxSize) && Supply(w) && Lone(w.tx) && OneThread(w)
    && (NextIndirect(w) <==> Barred(w))
  }

  ghost predicate WorldInv(w: World) {
    Flowing(w) && Orderly(w)
  }

  // ---------------------------------------------------------------------------------------

  lemma WiresAppend(fs: seq<Flight>, f: Flight)
    ensures Wires(fs + [f]) == Wires(fs) + [Wire(f)]
  {
  }

  lemma WiresRest(fs: seq<Flight>)
    requires fs != []
    ensures Wires(fs)[0] == Wire(fs[0]) && Wires(fs[1..]) == Wires(fs)[1..]
  {
  }

  lemma BuffersAreWire(inputs: seq<Buffer>, f: Flight)
    requires BuffersOf(inputs, f)
    ensures Concat(BytesOf(inputs)) == Wire(f)
  {
    ConcatFirst(BytesOf(inputs));
    if f.body == [] {
      assert BytesOf(inputs)[1..] == [];
      assert Wire(f) == EncodeHeader(f.header);
    } else {
      assert BytesOf(inputs)[1..] == [] + [f.body];
      ConcatAppend([], f.body);
    }
  }

  lemma TransmitKeeps(tx: Queue.System, tx': Queue.System, out: seq<Flight>, f: Option<Flight>, at: Placement)
    requires Queue.Inv(tx) && Carries(tx.pool.chains, tx.waiting, Wires(out)) && Transmit(tx, tx', f, at)
    ensures Queue.Inv(tx') && Carries(tx'.pool.chains, tx'.waiting, Wires(Put(out, f, true)))
  {
    if f.Some? {
      BuffersAreWire(at.inputs, f.value);
      WiresAppend(out, f.value);
      RingSafety.AddKeeps(tx, tx', at.inputs, [], at.addrs, at.listAddr);
      AddSends(tx, tx', Wires(out), at.inputs, [], at.addrs, at.listAddr);
    }
  }

  lemma DeliverKeeps(rx: Queue.System, rx': Queue.System, out: seq<Flight>, f: Flight)
    requires Queue.Inv(rx) && rx.results == Wires(out) && Deliver(rx, rx', f)
    ensures Queue.Inv(rx') && rx'.results == Wires(out + [f])
  {
    var taken := RingProgress.AfterFetch(rx);
    WiresAppend(out, f);
    RingSafety.FetchKeeps(rx, taken);
    RingSafety.ReturnKeeps(taken, rx', Queue.FetchHead(rx), Wire(f));
  }

  // ---------------------------------------------------------------------------------------
  // Each step of the world is a step of the stream model or leaves the stream as it is

  lemma OnRxFirst(w: World)
    requires OnQueues(w) && w.rx.results != []
    ensures w.ba != [] && OnRx(w) != [] && OnRx(w)[0] == w.ba[0] && w.rx.results[0] == Wire(w.ba[0])
    ensures w.rx.results[1..] == Wires(OnRx(w)[1..])
  {
    WiresRest(OnRx(w));
  }

  /** A driver that reads a returned buffer finds the oldest packet under way to it. */
  lemma DriverReads(w: World, rx': Queue.System)
    requires Queue.Inv(w.rx) && OnQueues(w) && Queue.PopStep(w.rx, rx')
    ensures w.ba != [] && PoppedBytes(w.rx) == Wire(w.ba[0])
    ensures Queue.Inv(rx') && rx'.results == Wires(OnRx(w)[1..]) && OnRx(w) != []
  {
    PopReceives(w.rx, rx');
    OnRxFirst(w);
    RingSafety.PopKeeps(w.rx, rx');
  }

  /** A device that copies a chain together finds the oldest packet under way to it. */
  lemma DeviceReads(w: World, tx': Queue.System)
    requires Queue.Inv(w.tx) && Carries(w.tx.pool.chains, w.tx.waiting, Wires(w.ab)) && Queue.FetchStep(w.tx, tx')
    ensures w.ab != [] && Fetched(w.tx) == Wire(w.ab[0])
    ensures Queue.Inv(tx') && Carries(tx'.pool.chains, tx'.waiting, Wires(w.ab[1..]))
  {
    FetchReceives(w.tx, tx', Wires(w.ab));
    WiresRest(w.ab);
    RingSafety.FetchKeeps(w.tx, tx');
  }

  /** The device's walk gets to the end exactly if the chain is not an indirect one, and then it finds that packet. */
  lemma DeviceWalks(w: World, tx': Queue.System, listening: bool)
    requires Flowing(w) && Queue.FetchStep(w.tx, tx') && Shapes(w.tx.pool, w.rx.pool, w.rxSize)
    ensures w.ab != []
    ensures DeviceAnswer(w, listening)
            == if NextIndirect(w) then Err(Panicked) else Receive(w.b, Wire(w.ab[0]), w.ab[0].forwarded, listening)
  {
    DeviceReads(w, tx');
    RingSafety.FetchSees(w.tx);
    QueuePair.FetchIsWalk(w.tx);
  }

  lemma StreamStep(w: World, w': World, step: Stream.Step)
    requires !w.a.status.Unborn? && Connected(w) && Stream.Next(StreamOf(w), StreamOf(w'), step)
    ensures Connected(w')
  {
    Stream.StepKeeps(StreamOf(w), StreamOf(w'), step);
    StaysBorn(StreamOf(w), StreamOf(w'), step);
  }

  /** Nobody forgets that it was connected. */
  lemma StaysBorn(s: Stream.Stream, s': Stream.Stream, step: Stream.Step)
    requires Stream.Inv(s) && Stream.Inv(s') && Stream.Next(s, s', step) && !s.a.status.Unborn?
    ensures !s'.a.status.Unborn?
  {
    if step.Take? && step.byA {
      Stream.ReceiveSucceeds(s.a, s.b, s.ba, s.ab, step.listening);
    }
  }

  lemma ConnectKeeps(w: World, w': World, at: Placement)
    requires Flowing(w) && ConnectStep(w, w', at)
    ensures Flowing(w')
  {
    var f := MakeFlight(w'.a, OP_REQUEST, []);
    TransmitKeeps(w.tx, w'.tx, w.ab, Some(f), at);
    assert StreamOf(w') == Asked(w);
    Stream.InitInv(Asked(w));
  }

  /** Nobody acts on a connection that was not asked for. */
  lemma ActsWhenBorn(w: World)
    requires Connected(w) && w.a.status.Unborn?
    ensures forall op :: !Allowed(w.a, op) && !Allowed(w.b, op)
  {
  }

  lemma DriverActs(w: World, w': World, op: Stream.Op)
    requires Connected(w) && ActStep(w.a, w.ab, op, true, w'.a, w'.ab) && w'.b == w.b && w'.ba == w.ba
    ensures Connected(w')
  {
    if w.a.status.Unborn? {
      ActsWhenBorn(w);
    }
    StreamStep(w, w', Stream.Act(true, op, true));
  }

  lemma DeviceActs(w: World, w': World, op: Stream.Op)
    requires Connected(w) && ActStep(w.b, w.ba, op, true, w'.b, w'.ba) && w'.a == w.a && w'.ab == w.ab
    ensures Connected(w')
  {
    if w.a.status.Unborn? {
      ActsWhenBorn(w);
    }
    StreamStep(w, w', Stream.Act(false, op, true));
  }

  lemma DriverDoesKeeps(w: World, w': World, op: Stream.Op, at: Placement)
    requires Flowing(w) && DriverStep(w, w', op, at)
    ensures Flowing(w')
  {
    TransmitKeeps(w.tx, w'.tx, w.ab, Attempt(w.a, op), at);
    DriverActs(w, w', op);
  }

  lemma DriverPopsKeeps(w: World, w': World)
    requires Flowing(w) && DriverPopStep(w, w')
    ensures Flowing(w')
  {
    RingSafety.PopKeeps(w.tx, w'.tx);
    PopQuiet(w.tx, w'.tx, Wires(w.ab));
  }

  /** Before the connection is asked for, there is nothing to receive. */
  lemma TakesWhenBorn(w: World)
    requires Connected(w) && (w.ab != [] || w.ba != [])
    ensures !w.a.status.Unborn? && Stream.Inv(StreamOf(w))
  {
  }

  lemma PoppedOnQueues(w: World, w': World)
    requires OnQueues(w) && OnRx(w) != [] && w' == w.(a := w'.a, ba := w.ba[1..], rx := w'.rx, back := w'.back)
    requires w'.rx.results == Wires(OnRx(w)[1..])
    ensures OnQueues(w')
  {
    assert OnRx(w') == OnRx(w)[1..];
  }

  lemma DriverTakes(w: World, w': World, listening: bool)
    requires Connected(w) && TakeStep(w.a, w.ba, listening, w'.a, w'.ba) && w'.b == w.b && w'.ab == w.ab
    ensures Connected(w')
  {
    TakesWhenBorn(w);
    StreamStep(w, w', Stream.Take(true, listening));
  }

  lemma DeviceTakes(w: World, w': World, listening: bool)
    requires Connected(w) && TakeStep(w.b, w.ab, listening, w'.b, w'.ab) && w'.a == w.a && w'.ba == w.ba
    ensures Connected(w')
  {
    TakesWhenBorn(w);
    StreamStep(w, w', Stream.Take(false, listening));
  }

  lemma DriverPollsKeeps(w: World, w': World, listening: bool)
    requires Flowing(w) && DriverPollStep(w, w', listening)
    ensures Flowing(w')
  {
    DriverReads(w, w'.rx);
    PoppedOnQueues(w, w');
    DriverTakes(w, w', listening);
  }

  lemma DriverRefillsKeeps(w: World, w': World, addr: nat)
    requires Flowing(w) && DriverRefillStep(w, w', addr)
    ensures Flowing(w')
  {
    RingSafety.AddKeeps(w.rx, w'.rx, [], [w.back.value], [addr], 0);
  }

  lemma MadeOnQueues(w: World, w': World, f: Option<Flight>)
    requires OnQueues(w) && w.outbox.None? && w' == w.(b := w'.b, ba := Put(w.ba, f, true), outbox := f)
    ensures OnQueues(w')
  {
    assert OnRx(w') == OnRx(w);
  }

  lemma DeviceDoesKeeps(w: World, w': World, op: Stream.Op)
    requires Flowing(w) && DeviceStep(w, w', op)
    ensures Flowing(w')
  {
    MadeOnQueues(w, w', Attempt(w.b, op));
    DeviceActs(w, w', op);
  }

  lemma SentOnQueues(w: World, w': World)
    requires OnQueues(w) && w.outbox.Some? && w' == w.(rx := w'.rx, outbox := None)
    requires w'.rx.results == Wires(OnRx(w) + [w.outbox.value])
    ensures OnQueues(w')
  {
    assert OnRx(w') == OnRx(w) + [w.outbox.value];
  }

  lemma DeviceSendsKeeps(w: World, w': World)
    requires Flowing(w) && DeviceSendStep(w, w')
    ensures Flowing(w')
  {
    DeliverKeeps(w.rx, w'.rx, OnRx(w), w.outbox.value);
    SentOnQueues(w, w');
  }

  lemma DevicePollsKeeps(w: World, w': World, listening: bool)
    requires Flowing(w) && Shapes(w.tx.pool, w.rx.pool, w.rxSize) && DevicePollStep(w, w', listening)
    ensures Flowing(w')
  {
    DeviceReads(w, w'.tx);
    DeviceWalks(w, w'.tx, listening);
    DeviceTakes(w, w', listening);
  }

  lemma DeviceReturnsKeeps(w: World, w': World, head: nat)
    requires Flowing(w) && DeviceReturnStep(w, w', head)
    ensures Flowing(w')
  {
    RingSafety.ReturnKeeps(w.tx, w'.tx, head, []);
    ReturnSends(w.tx, w'.tx, Wires(w.ab), head, []);
  }

  // ---------------------------------------------------------------------------------------
  // The shape of the requests, and the supply of receive buffers

  /** What a new chain looks like. */
  lemma AddedShape(s: Queue.System, s': Queue.System, inputs: seq<Buffer>, outputs: seq<Buffer>,
                   addrs: seq<nat>, listAddr: nat) returns (h: nat, c: Chain)
    requires Queue.AddStep(s, s', inputs, outputs, addrs, listAddr)
    ensures s'.pool.chains == s.pool.chains[h := c] && s'.waiting == s.waiting + [h]
            && s'.pool.indirect == s.pool.indirect
    ensures |c.parts| == |inputs| + |outputs| && Queue.ReadCount(c.parts) == |inputs|
    ensures c.list.Some? <==> s.pool.indirect && |c.parts| > 1
    ensures inputs == [] && |outputs| == 1 ==> OneWritable(c, |outputs[0].bytes|) && s'.pool.free == s.pool.free[1..]
  {
    var parts := Parts(inputs, outputs, addrs);
    RingSafety.OrderedReadCount(parts, |inputs|);
    h, c := s.pool.free[0], ChainFor(s.pool, parts, listAddr);
    assert inputs == [] && |outputs| == 1 ==> parts[0] == PartAt(inputs, outputs, addrs, 0);
  }

  /** Whatever waits, is held or is posted is a chain in flight. */
  lemma InFlight(s: Queue.System)
    requires Queue.Inv(s)
    ensures s.waiting != [] ==> s.waiting[0] in s.pool.chains
    ensures s.posted != [] ==> s.posted[0].id in s.pool.chains
    ensures forall h :: h in s.held ==> h in s.pool.chains
  {
    assert s.waiting != [] ==> Queue.WaitingAt(s.place, s.taken, s.waiting, 0);
    assert s.posted != [] ==> Queue.PostedAt(s.place, s.popped, s.posted, 0);
  }

  /** With nothing on the transmit queue there is nothing under way to the device. */
  lemma NothingOnTx(w: World)
    requires Queue.Inv(w.tx) && OnQueues(w) && w.tx.pool.chains == map[]
    ensures w.tx.waiting == [] && w.tx.held == map[] && w.tx.posted == [] && w.ab == []
  {
    InFlight(w.tx);
  }

  lemma TransmitOrderly(w: World, w': World, f: Option<Flight>, at: Placement)
    requires Orderly(w) && w.tx.pool.chains == map[] && w.tx.waiting == [] && w.ab == [] && w.tx.held == map[]
    requires Transmit(w.tx, w'.tx, f, at) && w'.ab == Put(w.ab, f, true)
    requires w' == w.(a := w'.a, tx := w'.tx, ab := w'.ab) && w.back.None? && (f.Some? ==> w'.a.due.None?)
    ensures Orderly(w')
  {
    if f.Some? {
      var h, c := AddedShape(w.tx, w'.tx, at.inputs, [], at.addrs, at.listAddr);
    }
  }

  lemma RefillOrderly(w: World, w': World, addr: nat)
    requires Orderly(w) && DriverRefillStep(w, w', addr)
    ensures Orderly(w') && w'.rx.waiting != []
  {
    var h, c := AddedShape(w.rx, w'.rx, [], [w.back.value], [addr], 0);
  }

  lemma PollOrderly(w: World, w': World, listening: bool)
    requires Orderly(w) && DriverPollStep(w, w', listening)
    ensures Orderly(w') && w'.back.Some?
  {
    var token := Queue.PopElem(w.rx).id % U16;
    assert OneWritable(w.rx.pool.chains[token], w.rxSize);
  }

  /** What a delivered packet does to the receive queue: one buffer less waits for the device. */
  lemma DeliverTakes(rx: Queue.System, rx': Queue.System, f: Flight)
    requires Queue.Inv(rx) && rx.held == map[] && Deliver(rx, rx', f)
    ensures rx.waiting != [] && rx'.waiting == rx.waiting[1..] && rx'.held == map[] && rx'.pool == rx.pool
  {
    RingSafety.FetchSees(rx);
  }

  lemma SendOrderly(w: World, w': World)
    requires Queue.Inv(w.rx) && Orderly(w) && DeviceSendStep(w, w')
    ensures Orderly(w')
  {
    DeliverTakes(w.rx, w'.rx, w.outbox.value);
  }

  lemma WaitsOnce(tx: Queue.System, i: nat, j: nat)
    requires Queue.Inv(tx) && Lone(tx) && i < |tx.waiting| && j < |tx.waiting|
    ensures i == j
  {
    assert Queue.WaitingAt(tx.place, tx.taken, tx.waiting, i) && Queue.WaitingAt(tx.place, tx.taken, tx.waiting, j);
  }

  lemma PostedOnce(tx: Queue.System, i: nat, j: nat)
    requires Queue.Inv(tx) && Lone(tx) && i < |tx.posted| && j < |tx.posted|
    ensures i == j
  {
    assert Queue.PostedAt(tx.place, tx.popped, tx.posted, i) && Queue.PostedAt(tx.place, tx.popped, tx.posted, j);
  }

  /** The lone packet is in one place. */
  lemma LoneWaits(tx: Queue.System)
    requires Queue.Inv(tx) && Lone(tx)
    ensures |tx.waiting| <= 1 && |tx.posted| <= 1
    ensures tx.waiting != [] ==> tx.held == map[] && tx.posted == []
    ensures tx.held != map[] ==> tx.posted == []
  {
    if |tx.waiting| > 1 {
      WaitsOnce(tx, 0, 1);
    }
    if |tx.posted| > 1 {
      PostedOnce(tx, 0, 1);
    }
    OnePlace(tx);
  }

  lemma OnePlace(tx: Queue.System)
    requires Queue.Inv(tx) && Lone(tx)
    ensures tx.waiting != [] ==> tx.held == map[] && tx.posted == []
    ensures tx.held != map[] ==> tx.posted == []
  {
    if tx.waiting != [] {
      assert Queue.WaitingAt(tx.place, tx.taken, tx.waiting, 0);
    }
    if tx.posted != [] {
      assert Queue.PostedAt(tx.place, tx.popped, tx.posted, 0);
    }
    assert forall h :: h in tx.held ==> h in tx.pool.chains && tx.place[h] == Queue.Held;
  }

  lemma FetchOrderly(w: World, w': World, listening: bool)
    requires Flowing(w) && Orderly(w) && DevicePollStep(w, w', listening)
    ensures Orderly(w')
  {
    LoneWaits(w.tx);
    DeviceReads(w, w'.tx);
  }

  lemma ReturnOrderly(w: World, w': World, head: nat)
    requires Flowing(w) && Orderly(w) && DeviceReturnStep(w, w', head)
    ensures Orderly(w')
  {
    LoneWaits(w.tx);
  }

  lemma PopOrderly(w: World, w': World)
    requires Flowing(w) && Orderly(w) && DriverPopStep(w, w')
    ensures Orderly(w') && w'.tx.pool.chains == map[]
  {
    LoneWaits(w.tx);
    RingSafety.PopSees(w.tx);
  }

  /** A client's operation that sends something owes nothing afterwards. */
  lemma SendsOweNothing(me: End, op: Stream.Op)
    requires Allowed(me, op) && Attempt(me, op).Some?
    ensures After(me, op, true).due.None?
  {
  }

  lemma DriverActOrderly(w: World, w': World, op: Stream.Op, at: Placement)
    requires Flowing(w) && Orderly(w) && DriverStep(w, w', op, at)
    ensures Orderly(w')
  {
    NothingOnTx(w);
    if Attempt(w.a, op).Some? {
      SendsOweNothing(w.a, op);
    }
    TransmitOrderly(w, w', Attempt(w.a, op), at);
  }

  lemma DeviceActOrderly(w: World, w': World, op: Stream.Op)
    requires Orderly(w) && DeviceStep(w, w', op)
    ensures Orderly(w')
  {
    if Attempt(w.b, op).Some? {
      SendsOweNothing(w.b, op);
    }
  }

  lemma ConnectOrderly(w: World, w': World, at: Placement)
    requires Flowing(w) && Orderly(w) && ConnectStep(w, w', at)
    ensures Orderly(w')
  {
    NothingOnTx(w);
    TransmitOrderly(w, w', Some(MakeFlight(w'.a, OP_REQUEST, [])), at);
  }

  predicate ByDriver(step: WorldStep) {
    step.Connect? || step.DriverDoes? || step.DriverPops? || step.DriverPolls? || step.DriverRefills?
  }

  // ---------------------------------------------------------------------------------------
  // All runs

  lemma WorldInitInv(w: World)
    requires WorldInit(w)
    ensures WorldInv(w)
  {
    RingSafety.InitInv(w.tx);
  }

  lemma DriverSendKeeps(w: World, w': World, step: WorldStep)
    requires WorldInv(w) && WorldNext(w, w', step) && (step.Connect? || step.DriverDoes?)
    ensures WorldInv(w')
  {
    match step
    case Connect(at) =>
      ConnectKeeps(w, w', at);
      ConnectOrderly(w, w', at);
    case DriverDoes(op, at) =>
      DriverDoesKeeps(w, w', op, at);
      DriverActOrderly(w, w', op, at);
  }

  lemma DriverKeeps(w: World, w': World, step: WorldStep)
    requires WorldInv(w) && WorldNext(w, w', step) && ByDriver(step) && !step.Connect? && !step.DriverDoes?
    ensures WorldInv(w')
  {
    match step
    case DriverPops =>
      DriverPopsKeeps(w, w');
      PopOrderly(w, w');
    case DriverPolls(listening) =>
      DriverPollsKeeps(w, w', listening);
      PollOrderly(w, w', listening);
    case DriverRefills(addr) =>
      DriverRefillsKeeps(w, w', addr);
      RefillOrderly(w, w', addr);
  }

  lemma DeviceKeeps(w: World, w': World, step: WorldStep)
    requires WorldInv(w) && WorldNext(w, w', step) && !ByDriver(step)
    ensures WorldInv(w')
  {
    match step
    case DeviceDoes(op) =>
      DeviceDoesKeeps(w, w', op);
      DeviceActOrderly(w, w', op);
    case DeviceSends =>
      DeviceSendsKeeps(w, w');
      SendOrderly(w, w');
    case DevicePolls(listening) =>
      DevicePollsKeeps(w, w', listening);
      FetchOrderly(w, w', listening);
    case DeviceReturns(head) =>
      DeviceReturnsKeeps(w, w', head);
      ReturnOrderly(w, w', head);
  }

  lemma WorldKeeps(w: World, w': World, step: WorldStep)
    requires WorldInv(w) && WorldNext(w, w', step)
    ensures WorldInv(w')
  {
    if step.Connect? || step.DriverDoes? {
      DriverSendKeeps(w, w', step);
    } else if ByDriver(step) {
      DriverKeeps(w, w', step);
    } else {
      DeviceKeeps(w, w', step);
    }
  }

  ghost predicate Moves(w: World, w': World) {
    exists step :: WorldNext(w, w', step)
  }

  /** Driver and device can go on from `w` to `w'`. */
  ghost predicate Reaches(w: World, w': World) {
    Paths.Reaches(w, w', Moves)
  }

  /** `w` is a state of some run. */
  ghost predicate Reachable(w: World) {
    exists start :: WorldInit(start) && Reaches(start, w)
  }

  lemma MoveKeeps(w: World, w': World)
    requires WorldInv(w) && Moves(w, w')
    ensures WorldInv(w')
  {
    var step :| WorldNext(w, w', step);
    WorldKeeps(w, w', step);
  }

  lemma MovesKeep()
    ensures Paths.Keeps(Moves, WorldInv)
  {
    forall w, w' | WorldInv(w) && Moves(w, w')
      ensures WorldInv(w')
    {
      MoveKeeps(w, w');
    }
  }

  /** What every move from a state of the invariant keeps holds wherever driver and device go from there. */
  lemma ReachesKeepsFact(w: World, w': World, fact: World -> bool)
    requires WorldInv(w) && Reaches(w, w') && fact(w) && Paths.KeepsUnder(Moves, WorldInv, fact)
    ensures fact(w')
  {
    MovesKeep();
    Paths.KeptUnder(w, w', Moves, WorldInv, fact);
  }

  lemma ReachesKeeps(w: World, w': World)
    requires WorldInv(w) && Reaches(w, w')
    ensures WorldInv(w')
  {
    MovesKeep();
    Paths.Kept(w, w', Moves, WorldInv);
  }

  /** The invariant holds in every state of every run. */
  lemma RunInv(w: World)
    requires Reachable(w)
    ensures WorldInv(w)
  {
    var start :| WorldInit(start) && Reaches(start, w);
    WorldInitInv(start);
    ReachesKeeps(start, w);
  }

  /** What the stream model promises of a connection, before and after it is asked for. */
  lemma StreamPromise(w: World, listening: bool)
    requires Connected(w)
    ensures Promise(w.a, w.b, w.ab, listening) && Promise(w.b, w.a, w.ba, listening)
  {
    if w.a.status.Unborn? {
      Stream.InitInv(Asked(w));
      assert Bodies([]) == [];
    } else {
      Stream.FlowLaw(w.a, w.b, w.ab, w.ba, listening);
      Stream.FlowLaw(w.b, w.a, w.ba, w.ab, listening);
    }
  }

  /** In every run of driver and device over their queues, through shutdown, reset and forced closing, and in
      both directions: what a client has read is, in order and without duplication, a prefix of what the
      peer accepted for sending. */
  lemma EndToEnd(w: World)
    requires Reachable(w)
    ensures w.b.drained <= w.a.sent && w.a.drained <= w.b.sent
  {
    RunInv(w);
    StreamPromise(w, true);
  }

  /** Polling on the device's side: it stops the program exactly if the packet is an indirect chain, at which the walk
      stops, or empty data for a buffer without capacity, and answers no error otherwise. */
  lemma DevicePollSucceeds(w: World, tx': Queue.System, listening: bool)
    requires WorldInv(w) && Queue.FetchStep(w.tx, tx')
    ensures w.ab != []
    ensures var answer := DeviceAnswer(w, listening);
            (answer.Ok? <==> !Barred(w) && !Panics(w.b, w.ab[0])) && (answer.Err? ==> answer == Err(Panicked))
    ensures !Barred(w) ==> DeviceAnswer(w, listening) == Receive(w.b, Wire(w.ab[0]), w.ab[0].forwarded, listening)
  {
    StreamPromise(w, listening);
    DeviceWalks(w, tx', listening);
  }

  /** And on the driver's: a buffer that it takes off the receive queue holds a packet that its endpoint
      accepts, unless it is empty data for a buffer without capacity. */
  lemma DriverPollSucceeds(w: World, rx': Queue.System, listening: bool)
    requires WorldInv(w) && Queue.PopStep(w.rx, rx')
    ensures w.ba != [] && DriverAnswer(w, listening) == Receive(w.a, Wire(w.ba[0]), w.ba[0].forwarded, listening)
    ensures var answer := DriverAnswer(w, listening);
            (answer.Ok? <==> !Panics(w.a, w.ba[0])) && (answer.Err? ==> answer == Err(Panicked))
  {
    StreamPromise(w, listening);
    DriverReads(w, rx');
  }
}
