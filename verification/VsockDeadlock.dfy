/** When the two sides wait for each other, or for a device that cannot take the packet, and will do so for ever.

    The driver's thread waits for the device to return its packet, and the device's for a receive buffer, which only the
    driver's `poll` gives back. */
module VsockDeadlock {
  import opened DescriptorPool
  import opened VsockPacket
  import opened VsockOverQueues
  import opened Stream = VsockStream
  import RingSafety

  /** The device has a packet to send before it does anything else. */
  predicate Busy(w: World) {
    w.b.due.Some? || w.outbox.Some?
  }

  /** The driver cannot poll: it waits for its packet, or has one to send first, or the next packet stops the
      program. */
  predicate DriverHeld(w: World) {
    w.tx.waiting != [] || w.a.due.Some? || (w.ba != [] && Panics(w.a, w.ba[0]))
  }

  /** The next packet on the transmit queue stops the device, unless it closes the connection first. */
  predicate DeviceHeld(w: World) {
    w.tx.waiting != [] && w.ab != [] && Panics(w.b, w.ab[0])
  }

  /** How many receive buffers the device needs until it can take the driver's packet. */
  function Needed(w: World): (n: nat) {
    (if Busy(w) then 1 else 0) + (if DeviceHeld(w) then 1 else 0)
  }

  /** The device needs receive buffers, and the driver gives none back. */
  predicate Deadlocked(w: World) {
    w.back.None? && DriverHeld(w) && |w.rx.waiting| < Needed(w)
  }

  // ---------------------------------------------------------------------------------------
  // A deadlock lasts

  /** An endpoint that has to send first, or whose next packet stops the program, reads nothing. */
  lemma HeldActs(me: End, op: Stream.Op, f: Flight)
    requires Allowed(me, op) && (me.due.Some? || Panics(me, f))
    ensures var me' := After(me, op, true);
            && me'.drained == me.drained
            && (if Attempt(me, op).Some? then me'.status == me.status && me'.info.bufAlloc == me.info.bufAlloc
                else me'.due.Some? || me' == me)
  {
  }

  /** The deadlock lasts, and nobody reads anything. */
  ghost predicate StillDeadlocked(w: World, w': World) {
    Deadlocked(w') && w'.a.drained == w.a.drained && w'.b.drained == w.b.drained
  }

  lemma DriverDeadlocked(w: World, w': World, op: Stream.Op, at: Placement)
    requires Deadlocked(w) && w.tx.waiting == [] && DriverStep(w, w', op, at)
    ensures StillDeadlocked(w, w')
  {
    HeldActs(w.a, op, if w.ba != [] then w.ba[0] else MakeFlight(w.a, OP_RW, []));
  }

  lemma DeviceDeadlocked(w: World, w': World, op: Stream.Op)
    requires Deadlocked(w) && DeviceStep(w, w', op)
    ensures StillDeadlocked(w, w')
  {
    HeldActs(w.b, op, if w.ab != [] then w.ab[0] else MakeFlight(w.b, OP_RW, []));
  }

  lemma SendDeadlocked(w: World, w': World)
    requires WorldInv(w) && Deadlocked(w) && DeviceSendStep(w, w')
    ensures StillDeadlocked(w, w')
  {
    DeliverTakes(w.rx, w'.rx, w.outbox.value);
  }

  lemma DriverCannotPoll(w: World, w': World, listening: bool)
    requires WorldInv(w) && DriverPollStep(w, w', listening)
    ensures !DriverHeld(w)
  {
    NothingOnTx(w);
    DriverPollSucceeds(w, w'.rx, listening);
  }

  lemma DeviceCannotPoll(w: World, w': World, listening: bool)
    requires WorldInv(w) && DevicePollStep(w, w', listening)
    ensures Needed(w) == 0 && !Barred(w)
  {
    DevicePollSucceeds(w, w'.tx, listening);
  }

  lemma PopDeadlocked(w: World, w': World)
    requires Deadlocked(w) && DriverPopStep(w, w')
    ensures StillDeadlocked(w, w')
  {
  }

  lemma ReturnDeadlocked(w: World, w': World, head: nat)
    requires Deadlocked(w) && DeviceReturnStep(w, w', head)
    ensures StillDeadlocked(w, w')
  {
  }

  /** Before the connection is asked for nobody waits. */
  lemma UnbornMoves(w: World)
    requires WorldInv(w) && w.a.status.Unborn? && DriverFree(w)
    ensures !Deadlocked(w) && !Barred(w)
  {
    NothingOnTx(w);
  }

  lemma DriverStillDeadlocked(w: World, w': World, step: WorldStep)
    requires WorldInv(w) && Deadlocked(w) && WorldNext(w, w', step) && ByDriver(step)
    ensures StillDeadlocked(w, w')
  {
    match step
    case Connect(_) => UnbornMoves(w);
    case DriverDoes(op, at) =>
      NothingOnTx(w);
      DriverDeadlocked(w, w', op, at);
    case DriverPops => PopDeadlocked(w, w');
    case DriverPolls(listening) => DriverCannotPoll(w, w', listening);
    case DriverRefills(_) =>
  }

  lemma DeviceStillDeadlocked(w: World, w': World, step: WorldStep)
    requires WorldInv(w) && Deadlocked(w) && WorldNext(w, w', step) && !ByDriver(step)
    ensures StillDeadlocked(w, w')
  {
    match step
    case DeviceDoes(op) => DeviceDeadlocked(w, w', op);
    case DeviceSends => SendDeadlocked(w, w');
    case DevicePolls(listening) => DeviceCannotPoll(w, w', listening);
    case DeviceReturns(head) => ReturnDeadlocked(w, w', head);
  }

  lemma MoveDeadlocked(w: World, w': World)
    requires WorldInv(w) && Deadlocked(w) && Moves(w, w')
    ensures StillDeadlocked(w, w')
  {
    var step :| WorldNext(w, w', step);
    if ByDriver(step) {
      DriverStillDeadlocked(w, w', step);
    } else {
      DeviceStillDeadlocked(w, w', step);
    }
  }

  ghost function DeadlockedSince(w: World): (fact: World -> bool) {
    x => StillDeadlocked(w, x)
  }

  lemma DeadlockLasts(w: World)
    ensures Paths.KeepsUnder(Moves, WorldInv, DeadlockedSince(w))
  {
    forall x, x' | WorldInv(x) && StillDeadlocked(w, x) && Moves(x, x')
      ensures StillDeadlocked(w, x')
    {
      MoveDeadlocked(x, x');
    }
  }

  /** However driver and device go on from a deadlock, nobody reads anything. */
  lemma DeadlockedForever(w: World, w': World)
    requires WorldInv(w) && Deadlocked(w) && Reaches(w, w')
    ensures StillDeadlocked(w, w')
  {
    DeadlockLasts(w);
    assert DeadlockedSince(w)(w);
    ReachesKeepsFact(w, w', DeadlockedSince(w));
  }

  // ---------------------------------------------------------------------------------------
  // A device that stops at an indirect chain never gets past it

  /** The driver still waits for the device to take its packet, and what is in the packet is not read. */
  ghost predicate StillBarred(w: World, w': World) {
    && Barred(w') && w'.tx == w.tx && w'.a == w.a && w'.ab == w.ab
    && (|w.b.drained| < |w.a.sent| ==> |w'.b.drained| < |w.a.sent|)
  }

  /** Where a packet is under way to the device, the driver waits. */
  lemma BarredWaits(w: World)
    requires WorldInv(w) && Barred(w)
    ensures w.tx.waiting != [] && w.tx.held == map[] && w.tx.posted == [] && w.tx.pool.chains != map[]
  {
    LoneWaits(w.tx);
    InFlight(w.tx);
  }

  /** The bytes under way are not read by reading what is stored. */
  lemma ReadsLess(x: End, y: End, xy: seq<Flight>, yx: seq<Flight>, op: Stream.Op)
    requires Flow(x, y, xy, yx) && xy != [] && xy[0].body != [] && Allowed(y, op) && |y.drained| < |x.sent|
    ensures |After(y, op, true).drained| < |x.sent|
  {
    BodiesFirst(xy);
  }

  lemma DeviceBarred(w: World, w': World, op: Stream.Op)
    requires WorldInv(w) && Barred(w) && DeviceStep(w, w', op)
    ensures StillBarred(w, w')
  {
    TakesWhenBorn(w);
    if |w.b.drained| < |w.a.sent| {
      ReadsLess(w.a, w.b, w.ab, w.ba, op);
    }
  }

  /** The driver does nothing while its packet waits. */
  lemma DriverWaits(w: World, w': World, step: WorldStep)
    requires WorldInv(w) && WorldNext(w, w', step) && ByDriver(step)
    ensures w.ab == []
  {
    LoneWaits(w.tx);
    match step
    case DriverPops => RingSafety.PopSees(w.tx);
    case _ => NothingOnTx(w);
  }

  lemma DeviceStillBarred(w: World, w': World, step: WorldStep)
    requires WorldInv(w) && Barred(w) && WorldNext(w, w', step) && !ByDriver(step)
    ensures StillBarred(w, w')
  {
    BarredWaits(w);
    match step
    case DeviceDoes(op) => DeviceBarred(w, w', op);
    case DeviceSends =>
    case DevicePolls(listening) => DeviceCannotPoll(w, w', listening);
    case DeviceReturns(_) =>
  }

  lemma MoveBarred(w: World, w': World)
    requires WorldInv(w) && Barred(w) && Moves(w, w')
    ensures StillBarred(w, w')
  {
    var step :| WorldNext(w, w', step);
    if ByDriver(step) {
      DriverWaits(w, w', step);
    } else {
      DeviceStillBarred(w, w', step);
    }
  }

  ghost function BarredSince(w: World): (fact: World -> bool) {
    x => StillBarred(w, x)
  }

  lemma BarLasts(w: World)
    ensures Paths.KeepsUnder(Moves, WorldInv, BarredSince(w))
  {
    forall x, x' | WorldInv(x) && StillBarred(w, x) && Moves(x, x')
      ensures StillBarred(w, x')
    {
      MoveBarred(x, x');
    }
  }

  lemma BarredForever(w: World, w': World)
    requires WorldInv(w) && Barred(w) && Reaches(w, w')
    ensures StillBarred(w, w')
  {
    BarLasts(w);
    ReachesKeepsFact(w, w', BarredSince(w));
  }

  /** Driver or device wait for ever: for each other, or in front of an indirect chain. */
  predicate Stuck(w: World) {
    Deadlocked(w) || Barred(w)
  }

  /** However they go on, the driver's client reads nothing any more, and the device's never all that was sent to it. */
  lemma StuckForever(w: World, w': World)
    requires WorldInv(w) && Stuck(w) && Reaches(w, w')
    ensures Stuck(w') && w'.a.drained == w.a.drained
    ensures |w.b.drained| < |w.a.sent| ==> |w'.b.drained| < |w.a.sent|
  {
    if Barred(w) {
      BarredForever(w, w');
    } else {
      DeadlockedForever(w, w');
    }
  }

  // ---------------------------------------------------------------------------------------
  // What avoids a deadlock

  lemma {:induction false} CountAll<T>(m: map<nat, T>, n: nat)
    requires forall d :: 0 <= d < n ==> d in m
    ensures CountKeys(m, n) == n
  {
    if n > 0 {
      CountAll(m, n - 1);
    }
  }

  /** With all buffers in flight, every descriptor is a chain. */
  lemma AllInFlight(rx: Queue.System, rxSize: nat)
    requires Queue.Inv(rx) && rx.pool.free == []
    requires forall h :: h in rx.pool.chains ==> OneWritable(rx.pool.chains[h], rxSize)
    ensures CountKeys(rx.pool.chains, rx.pool.size) == rx.pool.size
  {
    forall d | 0 <= d < rx.pool.size
      ensures d in rx.pool.chains
    {
      assert d !in rx.pool.free;
      var h: nat :| Owns(rx.pool, h, d);
      assert ChainShape(rx.pool.size, h, rx.pool.chains[h]) && OneWritable(rx.pool.chains[h], rxSize);
    }
    CountAll(rx.pool.chains, rx.pool.size);
  }

  /** Every receive buffer is with the device or holds a packet under way. */
  lemma BuffersAndPackets(w: World)
    requires WorldInv(w) && w.back.None?
    ensures |w.rx.waiting| + |OnRx(w)| == w.rx.pool.size
  {
    AllInFlight(w.rx, w.rxSize);
    CountNone(w.rx.held, w.rx.pool.size);
  }

  /** What a client can go by: as long as fewer packets are under way to the driver than it has receive buffers, the two
      sides do not wait for each other. With a device's buffer without capacity it must be one packet less. */
  lemma FewPacketsMove(w: World)
    requires WorldInv(w) && |w.ba| + (if w.b.info.bufAlloc == 0 then 1 else 0) < w.rx.pool.size
    ensures !Deadlocked(w)
  {
    if w.back.None? {
      BuffersAndPackets(w);
    }
  }
}
