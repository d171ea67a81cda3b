/** Which data of a run over the queues can still be read, exactly: all of it, unless the connection ends
    ahead of it at a reader with an empty buffer, or driver and device wait for ever. */
module VsockProgress {
  import opened Wrappers
  import opened Words
  import opened Descriptors
  import opened DescriptorPool
  import opened VsockPacket
  import opened ConnectionInfo
  import opened VsockOverQueues
  import opened VsockEnding
  import opened VsockDeadlock
  import opened RingProgress

  // ---------------------------------------------------------------------------------------
  // What is doomed stays so

  /** The step of the stream model that a step of the world is, if it is one. */
  function StepOf(step: WorldStep): (s: Option<Stream.Step>) {
    match step
    case DriverDoes(op, _) => Some(Stream.Act(true, op, true))
    case DriverPolls(listening) => Some(Stream.Take(true, listening))
    case DeviceDoes(op) => Some(Stream.Act(false, op, true))
    case DevicePolls(listening) => Some(Stream.Take(false, listening))
    case _ => None
  }

  /** Once the connection is asked for, each step of the world is one of the stream model or leaves the stream alone. */
  ghost predicate Simulated(w: World, w': World, s: Option<Stream.Step>) {
    if s.None? then StreamOf(w') == StreamOf(w) else Stream.Next(StreamOf(w), StreamOf(w'), s.value)
  }

  lemma ActSimulates(w: World, w': World, step: WorldStep)
    requires WorldNext(w, w', step) && !w.a.status.Unborn? && !step.DriverPolls? && !step.DevicePolls?
    ensures Simulated(w, w', StepOf(step))
  {
  }

  lemma DriverPollSimulates(w: World, w': World, listening: bool)
    requires WorldInv(w) && DriverPollStep(w, w', listening)
    ensures Simulated(w, w', Some(Stream.Take(true, listening)))
  {
    DriverPollSucceeds(w, w'.rx, listening);
  }

  lemma DevicePollSimulates(w: World, w': World, listening: bool)
    requires WorldInv(w) && DevicePollStep(w, w', listening)
    ensures Simulated(w, w', Some(Stream.Take(false, listening)))
  {
    DevicePollSucceeds(w, w'.tx, listening);
  }

  lemma Simulates(w: World, w': World, step: WorldStep)
    requires WorldInv(w) && WorldNext(w, w', step) && !w.a.status.Unborn?
    ensures Simulated(w, w', StepOf(step))
  {
    match step
    case DriverPolls(listening) => DriverPollSimulates(w, w', listening);
    case DevicePolls(listening) => DevicePollSimulates(w, w', listening);
    case _ => ActSimulates(w, w', step);
  }

  /** Before the connection is asked for, nothing is doomed. */
  lemma NothingYet(w: World, n: nat)
    requires VsockOverQueues.Connected(w) && w.a.status.Unborn?
    ensures !Doomed(w.b, w.ab, n) && !Doomed(w.a, w.ba, n)
  {
  }

  /** If any of the first `n` bytes were doomed in `w`, on either side, they still are. */
  ghost predicate StillDoomed(w: World, w': World, n: nat) {
    (Doomed(w.b, w.ab, n) ==> Doomed(w'.b, w'.ab, n)) && (Doomed(w.a, w.ba, n) ==> Doomed(w'.a, w'.ba, n))
  }

  lemma MoveDoomed(w: World, w': World, n: nat)
    requires WorldInv(w) && Moves(w, w')
    ensures StillDoomed(w, w', n)
  {
    var step :| WorldNext(w, w', step);
    if w.a.status.Unborn? {
      NothingYet(w, n);
    } else {
      Simulates(w, w', step);
      if StepOf(step).Some? {
        DoomedKept(StreamOf(w), StreamOf(w'), StepOf(step).value, n);
      }
    }
  }

  ghost function DoomedSince(w: World, n: nat): (fact: World -> bool) {
    x => StillDoomed(w, x, n)
  }

  lemma DoomLasts(w: World, n: nat)
    ensures Paths.KeepsUnder(Moves, WorldInv, DoomedSince(w, n))
  {
    forall x, x' | WorldInv(x) && StillDoomed(w, x, n) && Moves(x, x')
      ensures StillDoomed(w, x', n)
    {
      MoveDoomed(x, x', n);
    }
  }

  /** What is doomed stays so, however driver and device go on. */
  lemma DoomedForever(w: World, w': World, n: nat)
    requires WorldInv(w) && Reaches(w, w')
    ensures StillDoomed(w, w', n)
  {
    DoomLasts(w, n);
    assert DoomedSince(w, n)(w);
    ReachesKeepsFact(w, w', DoomedSince(w, n));
  }

  // ---------------------------------------------------------------------------------------
  // As long as nobody ends the connection

  /** The step is no shutdown, no forced closing, and no rejection of the request. */
  predicate PeacefulStep(step: WorldStep) {
    match step
    case DriverDoes(op, _) => !op.DoClose? && op != Stream.DoEmit(OP_SHUTDOWN)
    case DeviceDoes(op) => !op.DoClose? && op != Stream.DoEmit(OP_SHUTDOWN)
    case DriverPolls(listening) => listening
    case DevicePolls(listening) => listening
    case _ => true
  }

  ghost predicate MovesInPeace(w: World, w': World) {
    exists step :: WorldNext(w, w', step) && PeacefulStep(step)
  }

  /** `w` is a state of a run in which neither side ends the connection. */
  ghost predicate ReachableInPeace(w: World) {
    exists start :: WorldInit(start) && Paths.Reaches(start, w, MovesInPeace)
  }

  ghost predicate CalmWorld(w: World) {
    !w.a.status.Unborn? ==> Calm(w.a, w.ab) && Calm(w.b, w.ba)
  }

  /** Before the connection is asked for, nothing happens but that. */
  lemma StaysUnborn(w: World, w': World, step: WorldStep)
    requires Flowing(w) && w.a.status.Unborn? && WorldNext(w, w', step) && !step.Connect?
    ensures w'.a.status.Unborn?
  {
    if step.DriverPolls? {
      DriverReads(w, w'.rx);
    }
  }

  lemma AskedCalm(w: World, w': World, at: Placement)
    requires VsockOverQueues.Connected(w) && ConnectStep(w, w', at)
    ensures CalmWorld(w')
  {
    assert StreamOf(w') == Asked(w);
  }

  lemma StepCalm(w: World, w': World, step: WorldStep)
    requires WorldInv(w) && WorldNext(w, w', step) && PeacefulStep(step) && CalmWorld(w)
    ensures CalmWorld(w')
  {
    if step.Connect? {
      AskedCalm(w, w', step.at);
    } else if w.a.status.Unborn? {
      StaysUnborn(w, w', step);
    } else {
      Simulates(w, w', step);
      if StepOf(step).Some? {
        CalmKept(StreamOf(w), StreamOf(w'), StepOf(step).value);
      }
    }
  }

  lemma PeaceKeeps()
    ensures Paths.Keeps(MovesInPeace, WorldInv) && Paths.KeepsUnder(MovesInPeace, WorldInv, CalmWorld)
  {
    forall x, x' | WorldInv(x) && MovesInPeace(x, x')
      ensures WorldInv(x') && (CalmWorld(x) ==> CalmWorld(x'))
    {
      var step :| WorldNext(x, x', step) && PeacefulStep(step);
      WorldKeeps(x, x', step);
      if CalmWorld(x) {
        StepCalm(x, x', step);
      }
    }
  }

  lemma PeacefulCalm(w: World)
    requires ReachableInPeace(w)
    ensures WorldInv(w) && CalmWorld(w)
  {
    var start :| WorldInit(start) && Paths.Reaches(start, w, MovesInPeace);
    WorldInitInv(start);
    PeaceKeeps();
    Paths.Kept(start, w, MovesInPeace, WorldInv);
    Paths.KeptUnder(start, w, MovesInPeace, WorldInv, CalmWorld);
  }

  /** As long as neither side has shut the connection down, closed or rejected it, nothing that was sent is doomed. */
  lemma PeaceDoomsNothing(w: World, n: nat)
    requires ReachableInPeace(w)
    ensures !Doomed(w.b, w.ab, n) && !Doomed(w.a, w.ba, n)
  {
    PeacefulCalm(w);
    if w.a.status.Unborn? {
      NothingYet(w, n);
    } else {
      CalmDoomsNothing(w.a, w.b, w.ab, w.ba, n);
      CalmDoomsNothing(w.b, w.a, w.ba, w.ab, n);
    }
  }

  // ---------------------------------------------------------------------------------------
  // What the two sides can do next

  function PacketBuffers(f: Stream.Flight): (bs: seq<Buffer>) {
    if f.body == [] then [Buffer(0, EncodeHeader(f.header))] else [Buffer(0, EncodeHeader(f.header)), Buffer(1, f.body)]
  }

  /** An empty transmit queue takes every packet. */
  lemma CanTransmit(tx: Queue.System, f: Stream.Flight) returns (at: Placement, tx': Queue.System)
    requires Queue.Inv(tx) && Lone(tx) && tx.pool.chains == map[] && |f.body| < U32
    ensures Transmit(tx, tx', Some(f), at)
  {
    AllFree(tx.pool);
    var inputs := PacketBuffers(f);
    var addrs, listAddr;
    addrs, listAddr, tx' := FreshAdd(tx, inputs, []);
    at := Placement(inputs, addrs, listAddr);
  }

  /** The credit keeps every body below 2^32 bytes. */
  lemma BodyFits(w: World, op: Stream.Op)
    requires VsockOverQueues.Connected(w) && Stream.Allowed(w.a, op) && Stream.Attempt(w.a, op).Some?
    ensures |Stream.Attempt(w.a, op).value.body| < U32
  {
    if !w.a.status.Unborn? && op.DoSend? {
      assert InfoOk(w.a.info);
    }
  }

  lemma DriverAct(w: World, op: Stream.Op, at: Placement, tx: Queue.System)
    requires DriverFree(w) && Stream.Allowed(w.a, op) && Transmit(w.tx, tx, Stream.Attempt(w.a, op), at)
    ensures var w' := w.(a := Stream.After(w.a, op, true), tx := tx,
                         ab := Stream.Put(w.ab, Stream.Attempt(w.a, op), true));
            WorldNext(w, w', DriverDoes(op, at))
  {
  }

  /** The transmit queue, when it is empty, takes what an operation sends, if it sends anything. */
  lemma CanPlace(w: World, op: Stream.Op) returns (at: Placement, tx: Queue.System)
    requires WorldInv(w) && w.tx.pool.chains == map[] && Stream.Allowed(w.a, op)
    ensures Transmit(w.tx, tx, Stream.Attempt(w.a, op), at)
  {
    at, tx := Placement([], [], 0), w.tx;
    if Stream.Attempt(w.a, op).Some? {
      BodyFits(w, op);
      at, tx := CanTransmit(w.tx, Stream.Attempt(w.a, op).value);
    }
  }

  /** A driver that is free can do what its endpoint allows; the transmit queue takes every packet. */
  lemma DriverCanDo(w: World, op: Stream.Op) returns (w': World)
    requires WorldInv(w) && DriverFree(w) && Stream.Allowed(w.a, op)
    ensures Moves(w, w') && Stream.ActStep(w.a, w.ab, op, true, w'.a, w'.ab)
    ensures w' == w.(a := w'.a, ab := w'.ab, tx := w'.tx) && (Stream.Attempt(w.a, op).None? ==> w'.tx == w.tx)
  {
    var at, tx := CanPlace(w, op);
    DriverAct(w, op, at, tx);
    w' := w.(a := Stream.After(w.a, op, true), tx := tx, ab := Stream.Put(w.ab, Stream.Attempt(w.a, op), true));
  }

  /** A driver that is free can take the oldest packet on the receive queue, unless that stops the program. */
  lemma DriverCanPoll(w: World) returns (w': World)
    requires WorldInv(w) && DriverFree(w) && w.a.due.None? && w.rx.posted != []
    requires w.ba != [] ==> !Stream.Panics(w.a, w.ba[0])
    ensures Moves(w, w') && Stream.TakeStep(w.a, w.ba, true, w'.a, w'.ba) && w'.back.Some?
    ensures w' == w.(a := w'.a, ba := w'.ba, rx := w'.rx, back := w'.back)
  {
    var rx := PopEnabled(w.rx);
    DriverPollSucceeds(w, rx, true);
    w' := w.(a := DriverAnswer(w, true).value.0, rx := rx, ba := w.ba[1..], back := NextBuffer(w.rx));
    PollOrderly(w, w', true);
    assert WorldNext(w, w', DriverPolls(true));
  }

  /** The packet on the transmit queue is the only one, and the device's handler accepts it unless it stops the
      program. */
  lemma DeviceAccepts(w: World)
    requires WorldInv(w) && w.ab != [] && !Barred(w) && !Stream.Panics(w.b, w.ab[0])
    ensures Queue.FetchStep(w.tx, AfterFetch(w.tx)) && AfterFetch(w.tx).waiting == [] && w.ab[1..] == []
    ensures DeviceAnswer(w, true).Ok?
    ensures DeviceAnswer(w, true) == Stream.Receive(w.b, Stream.Wire(w.ab[0]), w.ab[0].forwarded, true)
  {
    LoneWaits(w.tx);
    FetchEnabled(w.tx);
    DevicePollSucceeds(w, AfterFetch(w.tx), true);
  }

  /** A device that is free can take the packet on the transmit queue, unless that stops the program. */
  lemma DeviceCanPoll(w: World) returns (w': World)
    requires WorldInv(w) && DeviceFree(w) && w.b.due.None? && w.ab != [] && !Barred(w) && !Stream.Panics(w.b, w.ab[0])
    ensures Moves(w, w') && Stream.TakeStep(w.b, w.ab, true, w'.b, w'.ab)
    ensures w' == w.(b := w'.b, ab := w'.ab, tx := AfterFetch(w.tx)) && w'.ab == [] && w'.tx.waiting == []
  {
    DeviceAccepts(w);
    w' := w.(b := DeviceAnswer(w, true).value.0, tx := AfterFetch(w.tx), ab := w.ab[1..]);
    assert WorldNext(w, w', DevicePolls(true));
  }

  /** A device that is free can do what its endpoint allows, if the packet fits a receive buffer. */
  lemma DeviceCanDo(w: World, op: Stream.Op) returns (w': World)
    requires DeviceFree(w) && Stream.Allowed(w.b, op)
    requires var f := Stream.Attempt(w.b, op); f.Some? ==> |Stream.Wire(f.value)| <= w.rxSize
    ensures Moves(w, w') && Stream.ActStep(w.b, w.ba, op, true, w'.b, w'.ba)
    ensures w' == w.(b := w'.b, ba := w'.ba, outbox := Stream.Attempt(w.b, op))
  {
    var f := Stream.Attempt(w.b, op);
    w' := w.(b := Stream.After(w.b, op, true), ba := Stream.Put(w.ba, f, true), outbox := f);
    assert WorldNext(w, w', DeviceDoes(op));
  }

  /** Every chain of the receive queue that the device takes has room for `rxSize` bytes. */
  lemma TakenFits(w: World, bytes: seq<byte>)
    requires Queue.Inv(w.rx) && Orderly(w) && w.rx.waiting != [] && |bytes| <= w.rxSize < U32
    ensures CanReturn(AfterFetch(w.rx), Queue.FetchHead(w.rx), bytes)
  {
    WaitingIff(w.rx);
    RingSafety.FetchSees(w.rx);
    assert OneWritable(w.rx.pool.chains[w.rx.waiting[0]], w.rxSize);
    assert Queue.ReadCount(w.rx.pool.chains[w.rx.waiting[0]].parts) == 0;
  }

  /** A device that has a packet to send can send it as soon as there is a receive buffer. */
  lemma DeviceCanSend(w: World) returns (w': World)
    requires WorldInv(w) && w.outbox.Some? && w.rx.waiting != []
    ensures Moves(w, w') && w' == w.(rx := w'.rx, outbox := None) && w'.rx.waiting == w.rx.waiting[1..]
  {
    var bytes := Stream.Wire(w.outbox.value);
    FetchEnabled(w.rx);
    RingSafety.FetchKeeps(w.rx, AfterFetch(w.rx));
    TakenFits(w, bytes);
    var rx := ReturnEnabled(AfterFetch(w.rx), Queue.FetchHead(w.rx), bytes);
    DeliverTakes(w.rx, rx, w.outbox.value);
    w' := w.(rx := rx, outbox := None);
    assert WorldNext(w, w', DeviceSends);
  }

  // ---------------------------------------------------------------------------------------
  // Getting on: less and less is left to do, nothing is lost, and nobody gets stuck

  /** What is left to do until nothing is under way. */
  ghost function Todo(w: World): (n: nat) {
    Ahead(w.b, w.ab) + Ahead(w.a, w.ba)
  }

  /** And of the housekeeping in between. */
  function Chores(w: World): (n: nat) {
    (if w.tx.held != map[] then 2 else 0) + |w.tx.posted|
    + (if w.back.Some? then 1 else 0) + (if w.outbox.Some? then 1 else 0)
  }

  /** What was sent stays as safe as it was. */
  ghost predicate Saved(w: World, w': World) {
    && w'.a.sent == w.a.sent && w'.b.sent == w.b.sent
    && w'.a.info.bufAlloc == w.a.info.bufAlloc && w'.b.info.bufAlloc == w.b.info.bufAlloc
    && (Safe(w.a, w.b, w.ab) ==> Safe(w'.a, w'.b, w'.ab)) && (Safe(w.b, w.a, w.ba) ==> Safe(w'.b, w'.a, w'.ba))
  }

  ghost predicate GotOn(w: World, w': World) {
    && Moves(w, w') && Saved(w, w')
    && (Todo(w') < Todo(w) || (Todo(w') == Todo(w) && Chores(w') < Chores(w)))
  }

  lemma ChoreDone(w: World, w': World)
    requires Moves(w, w') && StreamOf(w') == StreamOf(w) && Chores(w') < Chores(w)
    ensures GotOn(w, w')
  {
  }

  /** The driver adds the buffer again that it has popped. */
  lemma Refill(w: World) returns (w': World)
    requires Queue.Inv(w.rx) && Supply(w) && w.back.Some?
    ensures GotOn(w, w') && w' == w.(rx := w'.rx, back := None) && |w'.rx.waiting| == |w.rx.waiting| + 1
  {
    var addrs, listAddr, rx;
    assert !Full(w.rx.pool, 1);
    addrs, listAddr, rx := FreshAdd(w.rx, [], [w.back.value]);
    assert addrs == [addrs[0]];
    w' := w.(rx := rx, back := None);
    assert WorldNext(w, w', DriverRefills(addrs[0]));
    ChoreDone(w, w');
  }

  /** The lone packet on the transmit queue goes back and is popped. */
  lemma ReturnLone(tx: Queue.System) returns (head: nat, tx': Queue.System)
    requires Queue.Inv(tx) && Lone(tx) && tx.held != map[]
    ensures Queue.ReturnStep(tx, tx', head, []) && tx'.held == map[] && |tx'.posted| == |tx.posted| + 1
  {
    head :| head in tx.held;
    tx' := ReturnEnabled(tx, head, []);
  }

  lemma PopLone(tx: Queue.System) returns (tx': Queue.System)
    requires Queue.Inv(tx) && Lone(tx) && tx.posted != []
    ensures Queue.PopStep(tx, tx') && tx'.held == tx.held && |tx'.posted| == |tx.posted| - 1 && tx'.pool.chains == map[]
  {
    tx' := PopEnabled(tx);
    RingSafety.PopSees(tx);
  }

  /** The device returns the packet that it has handled. */
  lemma GiveBack(w: World) returns (w': World)
    requires Queue.Inv(w.tx) && Lone(w.tx) && w.tx.held != map[]
    ensures GotOn(w, w') && w' == w.(tx := w'.tx) && w'.tx.posted != [] && w'.tx.held == map[]
    ensures w'.tx.waiting == w.tx.waiting && w'.tx.pool == w.tx.pool
  {
    var head, tx := ReturnLone(w.tx);
    w' := w.(tx := tx);
    assert WorldNext(w, w', DeviceReturns(head));
    ChoreDone(w, w');
  }

  /** The driver pops the packet that it waits for. */
  lemma PopBack(w: World) returns (w': World)
    requires Queue.Inv(w.tx) && Lone(w.tx) && w.tx.posted != []
    ensures GotOn(w, w') && w' == w.(tx := w'.tx) && w'.tx.pool.chains == map[]
    ensures w'.tx.waiting == w.tx.waiting && w'.tx.pool.indirect == w.tx.pool.indirect
  {
    var tx := PopLone(w.tx);
    w' := w.(tx := tx);
    assert WorldNext(w, w', DriverPops);
    ChoreDone(w, w');
  }

  /** The device sends the packet that it has made. */
  lemma SendOut(w: World) returns (w': World)
    requires WorldInv(w) && w.outbox.Some? && w.rx.waiting != []
    ensures GotOn(w, w') && w' == w.(rx := w'.rx, outbox := None) && w'.rx.waiting == w.rx.waiting[1..]
  {
    w' := DeviceCanSend(w);
    ChoreDone(w, w');
  }

  /** As long as something is under way or owed, the connection was asked for. */
  lemma Begun(w: World)
    requires VsockOverQueues.Connected(w) && (w.ab != [] || w.ba != [] || w.a.due.Some? || w.b.due.Some?)
    ensures Stream.Inv(StreamOf(w))
  {
  }

  lemma DeviceTook(w: World, w': World)
    requires Stream.Inv(StreamOf(w)) && Moves(w, w') && Stream.TakeStep(w.b, w.ab, true, w'.b, w'.ab)
    requires w'.a == w.a && w'.ba == w.ba
    ensures GotOn(w, w')
  {
    TakingSaves(w.a, w.b, w.ab, w.ba, w'.b, w'.ab);
  }

  lemma DriverTook(w: World, w': World)
    requires Stream.Inv(StreamOf(w)) && Moves(w, w') && Stream.TakeStep(w.a, w.ba, true, w'.a, w'.ba)
    requires w'.b == w.b && w'.ab == w.ab
    ensures GotOn(w, w')
  {
    TakingSaves(w.b, w.a, w.ba, w.ab, w'.a, w'.ba);
  }

  lemma DeviceReplied(w: World, w': World)
    requires Stream.Inv(StreamOf(w)) && Moves(w, w') && Stream.ActStep(w.b, w.ba, Stream.DoReply, true, w'.b, w'.ba)
    requires w'.a == w.a && w'.ab == w.ab
    ensures GotOn(w, w')
  {
    ReplyingSaves(w.b, w.a, w.ba, w.ab, w'.b, w'.ba);
  }

  lemma DriverReplied(w: World, w': World)
    requires Stream.Inv(StreamOf(w)) && Moves(w, w') && Stream.ActStep(w.a, w.ab, Stream.DoReply, true, w'.a, w'.ab)
    requires w'.b == w.b && w'.ba == w.ba
    ensures GotOn(w, w')
  {
    ReplyingSaves(w.a, w.b, w.ab, w.ba, w'.a, w'.ab);
  }

  lemma DeviceTakesNext(w: World) returns (w': World)
    requires WorldInv(w) && DeviceFree(w) && w.b.due.None? && w.ab != [] && !Barred(w) && !Stream.Panics(w.b, w.ab[0])
    ensures GotOn(w, w') && Stream.TakeStep(w.b, w.ab, true, w'.b, w'.ab)
    ensures w' == w.(b := w'.b, ab := [], tx := w'.tx) && w'.tx.waiting == [] && w'.tx.pool == w.tx.pool
  {
    Begun(w);
    w' := DeviceCanPoll(w);
    DeviceTook(w, w');
  }

  lemma DriverTakesNext(w: World) returns (w': World)
    requires WorldInv(w) && DriverFree(w) && w.a.due.None? && w.rx.posted != []
    requires w.ba != [] ==> !Stream.Panics(w.a, w.ba[0])
    ensures GotOn(w, w') && w' == w.(a := w'.a, ba := w'.ba, rx := w'.rx, back := w'.back) && w'.back.Some?
  {
    w' := DriverCanPoll(w);
    Begun(w);
    DriverTook(w, w');
  }

  lemma DriverReplies(w: World) returns (w': World)
    requires WorldInv(w) && DriverFree(w) && w.a.due.Some?
    ensures GotOn(w, w') && w' == w.(a := w'.a, ab := w'.ab, tx := w'.tx) && w'.a == w.a.(due := None)
    ensures w'.ab == w.ab + [Stream.MakeFlight(w.a, w.a.due.value, [])]
  {
    Begun(w);
    w' := DriverCanDo(w, Stream.DoReply);
    DriverReplied(w, w');
  }

  lemma DeviceReplies(w: World) returns (w': World)
    requires WorldInv(w) && DeviceFree(w) && w.b.due.Some?
    ensures GotOn(w, w') && w' == w.(b := w.b.(due := None), ba := w'.ba, outbox := w'.outbox) && w'.outbox.Some?
    ensures w'.ba == w.ba + [Stream.MakeFlight(w.b, w.b.due.value, [])]
  {
    Begun(w);
    RepliesAreHeaders(w.b);
    w' := DeviceCanDo(w, Stream.DoReply);
    DeviceReplied(w, w');
  }

  /** The device closes a connection on which it can never receive anything. */
  lemma DeviceGivesUp(w: World) returns (w': World)
    requires WorldInv(w) && DeviceFree(w) && w.b.due.None? && w.ab != [] && Stream.Panics(w.b, w.ab[0])
    ensures GotOn(w, w') && w' == w.(b := w'.b) && w'.b == w.b.(status := Stream.Closed, due := Some(OP_RST))
  {
    Begun(w);
    w' := DeviceCanDo(w, Stream.DoClose);
    GivingUpSaves(w.a, w.b, w.ab, w.ba, w'.b);
  }

  lemma ChainsSomewhere(s: Queue.System, h: nat)
    requires Queue.Inv(s) && h in s.pool.chains
    ensures s.waiting != [] || s.held != map[] || s.posted != []
  {
    assert Queue.PlaceOk(s.place, s.taken, s.waiting, s.held, s.popped, s.posted, h);
  }

  /** If no receive buffer is with the device or on its way there, one is on its way back. */
  lemma SomeBuffer(rx: Queue.System)
    requires Queue.Inv(rx) && rx.pool.free == []
    ensures rx.waiting != [] || rx.held != map[] || rx.posted != []
  {
    var m := QueueSizeDivides(rx.pool.size);
    assert 0 !in rx.pool.free;
    var h: nat :| Owns(rx.pool, h, 0);
    ChainsSomewhere(rx, h);
  }

  // ---------------------------------------------------------------------------------------
  // Towards a device that is free and has taken all the data

  ghost predicate DeviceDone(w: World) {
    DeviceFree(w) && w.b.due.None? && Stream.Bodies(w.ab) == []
  }

  /** The device, which has something to send, gets it sent. */
  lemma DeviceSendsOn(w: World) returns (w': World)
    requires WorldInv(w) && Busy(w) && w.tx.held == map[] && w.rx.waiting != []
    ensures GotOn(w, w') && w' == w.(b := w'.b, ba := w'.ba, rx := w'.rx, outbox := w'.outbox)
    ensures w'.b == w.b.(due := None)
    ensures if w.outbox.Some? then w'.rx.waiting == w.rx.waiting[1..] && w'.outbox.None? else w'.rx == w.rx
  {
    if w.outbox.Some? {
      w' := SendOut(w);
    } else {
      w' := DeviceReplies(w);
    }
  }

  /** A packet sent is one buffer less, and one needed less. */
  lemma SendsNeeded(w: World, w': World)
    requires !Stuck(w) && Busy(w) && w.rx.waiting != [] && |w.rx.waiting| >= Needed(w)
    requires w' == w.(b := w.b.(due := None), ba := w'.ba, rx := w'.rx, outbox := w'.outbox)
    requires if w.outbox.Some? then w'.rx.waiting == w.rx.waiting[1..] && w'.outbox.None? else w'.rx == w.rx
    ensures !Stuck(w')
  {
  }

  /** What matters of a state for who is stuck has not changed. */
  lemma SameStuck(w: World, w': World)
    requires StreamOf(w') == StreamOf(w) && w'.tx.waiting == w.tx.waiting && w'.tx.pool.indirect == w.tx.pool.indirect
    requires w'.rx == w.rx && w'.back == w.back && w'.outbox == w.outbox
    ensures Stuck(w') == Stuck(w)
  {
  }

  lemma ReturnMoves(w: World) returns (w': World)
    requires WorldInv(w) && !Stuck(w) && w.tx.held != map[]
    ensures GotOn(w, w') && !Stuck(w')
  {
    w' := GiveBack(w);
    SameStuck(w, w');
  }

  lemma PopMoves(w: World) returns (w': World)
    requires WorldInv(w) && !Stuck(w) && w.tx.posted != []
    ensures GotOn(w, w') && !Stuck(w')
  {
    w' := PopBack(w);
    SameStuck(w, w');
  }

  /** With a buffer more than it needs to send, the device is not held up. */
  lemma RefillMoves(w: World) returns (w': World)
    requires WorldInv(w) && !Stuck(w) && w.back.Some?
    ensures GotOn(w, w') && !Stuck(w')
  {
    NothingOnTx(w);
    w' := Refill(w);
  }

  lemma TakeMoves(w: World) returns (w': World)
    requires WorldInv(w) && !Stuck(w) && DriverFree(w) && w.a.due.None? && w.rx.posted != []
    requires w.ba != [] ==> !Stream.Panics(w.a, w.ba[0])
    ensures GotOn(w, w') && !Stuck(w')
  {
    w' := DriverTakesNext(w);
  }

  /** The device, which waits for a receive buffer, gets one. */
  lemma DeviceGetsBuffer(w: World) returns (w': World)
    requires WorldInv(w) && !Stuck(w) && Busy(w) && w.tx.held == map[] && w.rx.waiting == []
    ensures GotOn(w, w') && !Stuck(w')
  {
    if w.back.Some? {
      w' := RefillMoves(w);
    } else if w.tx.posted != [] {
      w' := PopMoves(w);
    } else {
      w' := DriverGivesBuffer(w);
    }
  }

  /** The driver, which waits for nothing, polls. */
  lemma DriverGivesBuffer(w: World) returns (w': World)
    requires WorldInv(w) && !Stuck(w) && w.back.None? && w.a.due.None? && (w.ba != [] ==> !Stream.Panics(w.a, w.ba[0]))
    requires w.tx.waiting == [] && w.tx.held == map[] && w.tx.posted == [] && w.rx.waiting == []
    ensures GotOn(w, w') && !Stuck(w')
  {
    NothingWaits(w);
    SomeBuffer(w.rx);
    w' := TakeMoves(w);
  }

  lemma NothingWaits(w: World)
    requires WorldInv(w) && w.tx.waiting == [] && w.tx.held == map[] && w.tx.posted == []
    ensures w.tx.pool.chains == map[]
  {
    if w.tx.pool.chains != map[] {
      var h :| h in w.tx.pool.chains;
      ChainsSomewhere(w.tx, h);
    }
  }

  /** Data makes nobody reply. */
  lemma DataOwesNothing(w: World, b: Stream.End)
    requires Stream.Inv(StreamOf(w)) && w.b.due.None? && w.ab != [] && w.ab[0].body != []
    requires Stream.TakeStep(w.b, w.ab, true, b, w.ab[1..])
    ensures b.due.None?
  {
    Stream.ReceiveSucceeds(w.b, w.a, w.ab, w.ba, true);
    assert Stream.FlightOk(w.ab[0], w.a);
    Stream.WireDecodes(w.ab[0], w.b, w.a);
  }

  /** At most one packet is under way to the device, so that the data is in the first. */
  lemma OnlyData(w: World)
    requires Queue.Inv(w.tx) && Lone(w.tx) && OnQueues(w) && Stream.Bodies(w.ab) != []
    ensures w.ab != [] && w.ab[0].body != [] && w.ab[1..] == []
  {
    LoneWaits(w.tx);
    assert w.ab != [] by {
      assert Stream.BodiesOf([]) == [];
    }
    Stream.BodiesFirst(w.ab);
    assert w.ab[1..] == [];
    assert Stream.BodiesOf([]) == [];
  }

  lemma DeviceTakesData(w: World) returns (w': World)
    requires WorldInv(w) && !Stuck(w) && w.b.info.bufAlloc > 0 && DeviceFree(w) && w.b.due.None?
             && Stream.Bodies(w.ab) != []
    ensures GotOn(w, w') && !Stuck(w')
  {
    OnlyData(w);
    Begun(w);
    w' := DeviceTakesNext(w);
    DataOwesNothing(w, w'.b);
  }

  lemma SendMoves(w: World) returns (w': World)
    requires WorldInv(w) && !Stuck(w) && Busy(w) && w.tx.held == map[] && w.rx.waiting != []
    requires |w.rx.waiting| >= Needed(w)
    ensures GotOn(w, w') && !Stuck(w')
  {
    w' := DeviceSendsOn(w);
    SendsNeeded(w, w');
  }

  /** In every state in which data is under way to the device, or the device has to send something, and nobody is stuck,
      there is a step that gets on with it. */
  lemma TowardsDevice(w: World) returns (w': World)
    requires WorldInv(w) && !Stuck(w) && w.b.info.bufAlloc > 0 && !DeviceDone(w)
    ensures GotOn(w, w') && !Stuck(w')
  {
    if w.tx.held != map[] {
      w' := ReturnMoves(w);
    } else if Busy(w) {
      w' := BusyMoves(w);
    } else {
      w' := DeviceTakesData(w);
    }
  }

  lemma BusyMoves(w: World) returns (w': World)
    requires WorldInv(w) && !Stuck(w) && w.b.info.bufAlloc > 0 && Busy(w) && w.tx.held == map[]
    ensures GotOn(w, w') && !Stuck(w')
  {
    if w.rx.waiting != [] {
      w' := SendMoves(w);
    } else {
      w' := DeviceGetsBuffer(w);
    }
  }

  // ---------------------------------------------------------------------------------------
  // Towards a driver that is free and has taken all the data

  ghost predicate DriverDone(w: World) {
    DriverFree(w) && w.a.due.None? && Stream.Bodies(w.ba) == []
  }

  lemma GiveUpMoves(w: World) returns (w': World)
    requires WorldInv(w) && !Stuck(w) && DeviceFree(w) && w.b.due.None? && DeviceHeld(w)
    ensures GotOn(w, w') && !Stuck(w')
  {
    w' := DeviceGivesUp(w);
  }

  lemma DeviceTakeMoves(w: World) returns (w': World)
    requires WorldInv(w) && !Stuck(w) && w.a.info.bufAlloc > 0 && w.a.due.None?
    requires DeviceFree(w) && w.b.due.None? && w.ab != [] && !Stream.Panics(w.b, w.ab[0])
    ensures GotOn(w, w') && !Stuck(w')
  {
    w' := DeviceTakesNext(w);
  }

  /** The device takes the packet for which the driver waits. */
  lemma DeviceHelps(w: World) returns (w': World)
    requires WorldInv(w) && !Stuck(w) && w.a.info.bufAlloc > 0 && w.tx.waiting != [] && w.back.None?
    ensures GotOn(w, w') && !Stuck(w')
  {
    LoneWaits(w.tx);
    InFlight(w.tx);
    if Busy(w) {
      w' := SendMoves(w);
    } else if DeviceHeld(w) {
      w' := GiveUpMoves(w);
    } else {
      w' := DeviceTakeMoves(w);
    }
  }

  lemma ReplyMoves(w: World) returns (w': World)
    requires WorldInv(w) && !Stuck(w) && w.a.info.bufAlloc > 0 && DriverFree(w) && w.a.due.Some?
    ensures GotOn(w, w') && !Stuck(w')
  {
    NothingOnTx(w);
    w' := DriverReplies(w);
    ReplyHeld(w, w');
  }

  /** A reply asks for no more buffers than were needed, and is no indirect chain. */
  lemma ReplyHeld(w: World, w': World)
    requires !Stuck(w) && w.tx.waiting == [] && w.ab == [] && w.a.due.Some? && w.a.due.value != OP_RW
    requires w' == w.(a := w'.a, ab := [Stream.MakeFlight(w.a, w.a.due.value, [])], tx := w'.tx)
    ensures !Stuck(w')
  {
  }

  lemma LastSendMoves(w: World) returns (w': World)
    requires WorldInv(w) && !Stuck(w) && w.tx.waiting == [] && w.outbox.Some? && w.rx.waiting != []
    ensures GotOn(w, w') && !Stuck(w')
  {
    w' := SendOut(w);
  }

  /** The driver, which is free, takes the next packet, or the device sends it first. */
  lemma DriverGetsData(w: World) returns (w': World)
    requires WorldInv(w) && !Stuck(w) && w.a.info.bufAlloc > 0 && DriverFree(w) && w.a.due.None?
             && Stream.Bodies(w.ba) != []
    ensures GotOn(w, w') && !Stuck(w')
  {
    NothingOnTx(w);
    if w.rx.posted != [] {
      w' := TakeMoves(w);
    } else {
      SomeBuffer(w.rx);
      w' := LastSendMoves(w);
    }
  }

  lemma DriverGetsOn(w: World) returns (w': World)
    requires WorldInv(w) && !Stuck(w) && w.a.info.bufAlloc > 0 && !DriverDone(w) && DriverFree(w)
    ensures GotOn(w, w') && !Stuck(w')
  {
    if w.a.due.Some? {
      w' := ReplyMoves(w);
    } else {
      w' := DriverGetsData(w);
    }
  }

  /** The same for data under way to the driver. */
  lemma TowardsDriver(w: World) returns (w': World)
    requires WorldInv(w) && !Stuck(w) && w.a.info.bufAlloc > 0 && !DriverDone(w)
    ensures GotOn(w, w') && !Stuck(w')
  {
    if w.tx.held != map[] {
      w' := ReturnMoves(w);
    } else if w.tx.posted != [] {
      w' := PopMoves(w);
    } else if w.back.Some? {
      w' := RefillMoves(w);
    } else if w.tx.waiting != [] {
      w' := DeviceHelps(w);
    } else {
      NothingWaits(w);
      w' := DriverGetsOn(w);
    }
  }

  // ---------------------------------------------------------------------------------------
  // What can be read

  lemma Follows(w: World, next: World, w': World)
    requires GotOn(w, next) && Reaches(next, w') && Saved(next, w')
    ensures Reaches(w, w') && Saved(w, w')
  {
    Paths.OneMove(w, next, Moves);
    Paths.Onward(w, next, w', Moves);
  }

  lemma {:induction false} DeviceSettles(w: World) returns (w': World)
    requires WorldInv(w) && !Stuck(w) && w.b.info.bufAlloc > 0
    ensures Reaches(w, w') && WorldInv(w') && DeviceDone(w') && Saved(w, w')
    decreases Todo(w), Chores(w)
  {
    if DeviceDone(w) {
      w' := w;
      Paths.Stays(w, Moves);
    } else {
      var next := TowardsDevice(w);
      MoveKeeps(w, next);
      w' := DeviceSettles(next);
      Follows(w, next, w');
    }
  }

  lemma {:induction false} DriverSettles(w: World) returns (w': World)
    requires WorldInv(w) && !Stuck(w) && w.a.info.bufAlloc > 0
    ensures Reaches(w, w') && WorldInv(w') && DriverDone(w') && Saved(w, w')
    decreases Todo(w), Chores(w)
  {
    if DriverDone(w) {
      w' := w;
      Paths.Stays(w, Moves);
    } else {
      var next := TowardsDriver(w);
      MoveKeeps(w, next);
      w' := DriverSettles(next);
      Follows(w, next, w');
    }
  }

  /** With no data under way, reading what is stored reads all that was sent. */
  lemma ReadsAll(x: Stream.End, y: Stream.End, xy: seq<Stream.Flight>, yx: seq<Stream.Flight>)
    requires Stream.EndOk(y) && Stream.Flow(x, y, xy, yx) && Stream.Bodies(xy) == [] && y.due.None?
    requires Safe(x, y, xy) && |y.drained| < |x.sent|
    ensures var op := Stream.DoRecv(|y.contents|);
            Stream.Allowed(y, op) && Stream.Attempt(y, op).None? && Stream.After(y, op, true).drained == x.sent
  {
    HasCapacity(x, y, xy, yx);
  }

  lemma DeviceReadsAll(w: World) returns (w': World)
    requires WorldInv(w) && DeviceDone(w) && Safe(w.a, w.b, w.ab)
    ensures Reaches(w, w') && w'.a.sent == w.a.sent == w'.b.drained
  {
    w' := w;
    Paths.Stays(w, Moves);
    StreamPromise(w, true);
    if |w.b.drained| < |w.a.sent| {
      ReadsAll(w.a, w.b, w.ab, w.ba);
      w' := DeviceCanDo(w, Stream.DoRecv(|w.b.contents|));
      Paths.OneMove(w, w', Moves);
    }
  }

  lemma DriverReadsAll(w: World) returns (w': World)
    requires WorldInv(w) && DriverDone(w) && Safe(w.b, w.a, w.ba)
    ensures Reaches(w, w') && w'.b.sent == w.b.sent == w'.a.drained
  {
    w' := w;
    Paths.Stays(w, Moves);
    StreamPromise(w, true);
    if |w.a.drained| < |w.b.sent| {
      ReadsAll(w.b, w.a, w.ba, w.ab);
      w' := DriverCanDo(w, Stream.DoRecv(|w.a.contents|));
      Paths.OneMove(w, w', Moves);
    }
  }

  /** Where bytes are outstanding, the reader's buffer has capacity. */
  lemma OutstandingHasCapacity(w: World)
    requires VsockOverQueues.Connected(w)
    ensures |w.b.drained| < |w.a.sent| ==> w.b.info.bufAlloc > 0
    ensures |w.a.drained| < |w.b.sent| ==> w.a.info.bufAlloc > 0
  {
    if !w.a.status.Unborn? {
      if |w.b.drained| < |w.a.sent| {
        HasCapacity(w.a, w.b, w.ab, w.ba);
      }
      if |w.a.drained| < |w.b.sent| {
        HasCapacity(w.b, w.a, w.ba, w.ab);
      }
    }
  }

  /** What is not doomed can be read, if nobody is stuck: driver and device can go on so that the device's client reads
      all that the driver has sent. */
  lemma DriverIsHeard(w: World) returns (w': World)
    requires WorldInv(w) && !Stuck(w) && |w.b.drained| < |w.a.sent| && Safe(w.a, w.b, w.ab)
    ensures Reaches(w, w') && w'.a.sent == w.a.sent == w'.b.drained
  {
    OutstandingHasCapacity(w);
    var done := DeviceSettles(w);
    w' := DeviceReadsAll(done);
    Paths.Onward(w, done, w', Moves);
  }

  /** The same for the driver's client. */
  lemma DeviceIsHeard(w: World) returns (w': World)
    requires WorldInv(w) && !Stuck(w) && |w.a.drained| < |w.b.sent| && Safe(w.b, w.a, w.ba)
    ensures Reaches(w, w') && w'.b.sent == w.b.sent == w'.a.drained
  {
    OutstandingHasCapacity(w);
    var done := DriverSettles(w);
    w' := DriverReadsAll(done);
    Paths.Onward(w, done, w', Moves);
  }

  /** The device's client can still come to read all that the driver has sent. */
  ghost predicate DriverCanBeHeard(w: World) {
    exists w' :: Reaches(w, w') && |w.a.sent| <= |w'.b.drained|
  }

  ghost predicate DeviceCanBeHeard(w: World) {
    exists w' :: Reaches(w, w') && |w.b.sent| <= |w'.a.drained|
  }

  /** In every state of every run, all that the driver has sent can still be read exactly if it is read already, or
      nobody is stuck and it is not doomed: the connection has not ended at the device, nor is its end under way to an
      empty buffer with data behind it. */
  lemma DriverHeardIff(w: World)
    requires Reachable(w)
    ensures DriverCanBeHeard(w) <==>
            |w.a.sent| <= |w.b.drained| || (!Stuck(w) && !Doomed(w.b, w.ab, |w.a.sent|))
  {
    RunInv(w);
    DriverHeardExactly(w);
  }

  lemma DriverHeardExactly(w: World)
    requires WorldInv(w)
    ensures DriverCanBeHeard(w) <==>
            |w.a.sent| <= |w.b.drained| || (!Stuck(w) && !Doomed(w.b, w.ab, |w.a.sent|))
  {
    if |w.a.sent| <= |w.b.drained| {
      Paths.Stays(w, Moves);
    } else if Stuck(w) || Doomed(w.b, w.ab, |w.a.sent|) {
      DriverNeverHeard(w);
    } else {
      var w' := DriverIsHeard(w);
    }
  }

  lemma DriverNeverHeard(w: World)
    requires WorldInv(w) && |w.b.drained| < |w.a.sent| && (Stuck(w) || Doomed(w.b, w.ab, |w.a.sent|))
    ensures !DriverCanBeHeard(w)
  {
    forall w' | Reaches(w, w')
      ensures |w'.b.drained| < |w.a.sent|
    {
      DriverUnheard(w, w');
    }
  }

  lemma DeviceNeverHeard(w: World)
    requires WorldInv(w) && |w.a.drained| < |w.b.sent| && (Stuck(w) || Doomed(w.a, w.ba, |w.b.sent|))
    ensures !DeviceCanBeHeard(w)
  {
    forall w' | Reaches(w, w')
      ensures |w'.a.drained| < |w.b.sent|
    {
      DeviceUnheard(w, w');
    }
  }

  lemma DriverUnheard(w: World, w': World)
    requires WorldInv(w) && Reaches(w, w') && |w.b.drained| < |w.a.sent|
    requires Stuck(w) || Doomed(w.b, w.ab, |w.a.sent|)
    ensures |w'.b.drained| < |w.a.sent|
  {
    if Stuck(w) {
      StuckForever(w, w');
    } else {
      DoomedForever(w, w', |w.a.sent|);
    }
  }

  lemma DeviceUnheard(w: World, w': World)
    requires WorldInv(w) && Reaches(w, w') && |w.a.drained| < |w.b.sent|
    requires Stuck(w) || Doomed(w.a, w.ba, |w.b.sent|)
    ensures |w'.a.drained| < |w.b.sent|
  {
    if Stuck(w) {
      StuckForever(w, w');
    } else {
      DoomedForever(w, w', |w.b.sent|);
    }
  }

  /** And likewise in the other direction. */
  lemma DeviceHeardIff(w: World)
    requires Reachable(w)
    ensures DeviceCanBeHeard(w) <==>
            |w.b.sent| <= |w.a.drained| || (!Stuck(w) && !Doomed(w.a, w.ba, |w.b.sent|))
  {
    RunInv(w);
    DeviceHeardExactly(w);
  }

  lemma DeviceHeardExactly(w: World)
    requires WorldInv(w)
    ensures DeviceCanBeHeard(w) <==>
            |w.b.sent| <= |w.a.drained| || (!Stuck(w) && !Doomed(w.a, w.ba, |w.b.sent|))
  {
    if |w.b.sent| <= |w.a.drained| {
      Paths.Stays(w, Moves);
    } else if Stuck(w) || Doomed(w.a, w.ba, |w.b.sent|) {
      DeviceNeverHeard(w);
    } else {
      var w' := DeviceIsHeard(w);
    }
  }

  /** What clients can go by: without indirect descriptors, as long as neither side ends the connection and fewer
      packets are under way to the driver than it has receive buffers, all that was sent can still be read. */
  lemma HeardInPeace(w: World)
    requires ReachableInPeace(w) && !w.tx.pool.indirect
    requires |w.ba| + (if w.b.info.bufAlloc == 0 then 1 else 0) < w.rx.pool.size
    ensures DriverCanBeHeard(w) && DeviceCanBeHeard(w)
  {
    PeacefulCalm(w);
    PeaceDoomsNothing(w, |w.a.sent|);
    PeaceDoomsNothing(w, |w.b.sent|);
    FewPacketsMove(w);
    PeaceReaches(w);
    DriverHeardIff(w);
    DeviceHeardIff(w);
  }

  lemma PeaceReaches(w: World)
    requires ReachableInPeace(w)
    ensures Reachable(w)
  {
    var start :| WorldInit(start) && Paths.Reaches(start, w, MovesInPeace);
    Paths.Widen(start, w, MovesInPeace, Moves);
  }
}
