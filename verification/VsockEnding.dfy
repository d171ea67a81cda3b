/** Which data can no longer be read because the connection ends before it: a shutdown or a reset that finds
    the receiver's buffer empty closes the connection, and what comes after it is ignored. */
module VsockEnding {
  import opened Wrappers
  import opened VsockPacket
  import opened VsockStream

  predicate Closer(f: Flight) {
    f.header.op == OP_RST || f.header.op == OP_SHUTDOWN
  }

  /** Packet `i` ends the connection, and there is no data before it. */
  ghost predicate EndsEmpty(xy: seq<Flight>, i: nat) {
    i < |xy| && Closer(xy[i]) && Bodies(xy[..i]) == []
  }

  /** Of the first `n` bytes sent, some will never be read: the connection has ended at the receiver, or its
      end is on the way, ahead of all further data, to a buffer that is empty. */
  ghost predicate Doomed(y: End, xy: seq<Flight>, n: nat) {
    && |y.drained| < n
    && (y.status.Closed? || (y.contents == [] && exists i :: EndsEmpty(xy, i)))
  }

  lemma EndsEmptyAppend(xy: seq<Flight>, f: Flight, i: nat)
    requires EndsEmpty(xy, i)
    ensures EndsEmpty(xy + [f], i)
  {
    assert (xy + [f])[..i] == xy[..i];
  }

  /** Taking the first packet: it ends the connection, or it carries no data. */
  lemma EndsEmptyRest(xy: seq<Flight>, i: nat)
    requires EndsEmpty(xy, i) && i > 0
    ensures xy[0].body == [] && EndsEmpty(xy[1..], i - 1)
  {
    BodiesFirst(xy[..i]);
    assert xy[..i][1..] == xy[1..][..i - 1];
  }

  lemma EndsEmptyBefore(xy: seq<Flight>, i: nat)
    requires xy != [] && xy[0].body == [] && EndsEmpty(xy[1..], i)
    ensures EndsEmpty(xy, i + 1)
  {
    BodiesFirst(xy[..i + 1]);
    assert xy[..i + 1][1..] == xy[1..][..i];
  }

  // ---------------------------------------------------------------------------------------
  // No step saves data that is doomed

  lemma DoomedBySender(y: End, xy: seq<Flight>, f: Option<Flight>, queued: bool, n: nat)
    requires Doomed(y, xy, n)
    ensures Doomed(y, Put(xy, f, queued), n)
  {
    if f.Some? && queued && !y.status.Closed? {
      var i: nat :| EndsEmpty(xy, i);
      EndsEmptyAppend(xy, f.value, i);
    }
  }

  lemma DoomedByReader(y: End, xy: seq<Flight>, op: Op, queued: bool, n: nat)
    requires Doomed(y, xy, n) && Allowed(y, op)
    ensures Doomed(After(y, op, queued), xy, n)
  {
  }

  lemma DoomedByPoll(x: End, y: End, xy: seq<Flight>, yx: seq<Flight>, listening: bool, y': End, xy': seq<Flight>,
                     n: nat)
    requires EndOk(y) && EndOk(x) && Peers(x, y) && Flow(x, y, xy, yx)
    requires Doomed(y, xy, n) && TakeStep(y, xy, listening, y', xy')
    ensures Doomed(y', xy', n)
  {
    ReceiveSucceeds(y, x, xy, yx, listening);
    assert FlightOk(xy[0], x);
    WireDecodes(xy[0], y, x);
    ReceivedSame(y, xy[0], listening);
    ReceivedData(y, xy[0], listening);
    if !y.status.Closed? {
      var i: nat :| EndsEmpty(xy, i);
      if i > 0 {
        EndsEmptyRest(xy, i);
      } else {
        CloserCloses(y, xy[0], listening);
      }
    }
  }

  /** A shutdown or a reset closes a connection that has nothing unread. */
  lemma CloserCloses(y: End, f: Flight, listening: bool)
    requires Listed(y) && y.contents == [] && Closer(f) && FromHeader(f.header).Ok?
    requires OpOf(EventOf(f).kind) == f.header.op
    ensures Taken(y, f, listening).Ok? && Taken(y, f, listening).value.0.status.Closed?
  {
  }

  lemma DoomedKept(s: Stream, s': Stream, step: Step, n: nat)
    requires Inv(s) && Next(s, s', step)
    ensures Doomed(s.b, s.ab, n) ==> Doomed(s'.b, s'.ab, n)
    ensures Doomed(s.a, s.ba, n) ==> Doomed(s'.a, s'.ba, n)
  {
    if Doomed(s.b, s.ab, n) {
      DoomedTowardsB(s, s', step, n);
    }
    if Doomed(s.a, s.ba, n) {
      DoomedTowardsA(s, s', step, n);
    }
  }

  lemma DoomedTowardsB(s: Stream, s': Stream, step: Step, n: nat)
    requires Inv(s) && Next(s, s', step) && Doomed(s.b, s.ab, n)
    ensures Doomed(s'.b, s'.ab, n)
  {
    if step.Act? && step.byA {
      DoomedBySender(s.b, s.ab, Attempt(s.a, step.op), step.queued, n);
    } else if step.Act? {
      DoomedByReader(s.b, s.ab, step.op, step.queued, n);
    } else if !step.byA {
      DoomedByPoll(s.a, s.b, s.ab, s.ba, step.listening, s'.b, s'.ab, n);
    }
  }

  lemma DoomedTowardsA(s: Stream, s': Stream, step: Step, n: nat)
    requires Inv(s) && Next(s, s', step) && Doomed(s.a, s.ba, n)
    ensures Doomed(s'.a, s'.ba, n)
  {
    if step.Act? && !step.byA {
      DoomedBySender(s.a, s.ba, Attempt(s.b, step.op), step.queued, n);
    } else if step.Act? {
      DoomedByReader(s.a, s.ba, step.op, step.queued, n);
    } else if step.byA {
      DoomedByPoll(s.b, s.a, s.ba, s.ab, step.listening, s'.a, s'.ba, n);
    }
  }

  // ---------------------------------------------------------------------------------------
  // And polling first and reading later loses nothing else

  /** As long as the reader only polls, data that is not doomed stays so. */
  lemma SavedByPoll(x: End, y: End, xy: seq<Flight>, yx: seq<Flight>, y': End, xy': seq<Flight>, n: nat)
    requires EndOk(y) && EndOk(x) && Peers(x, y) && Flow(x, y, xy, yx)
    requires TakeStep(y, xy, true, y', xy') && !Doomed(y, xy, n)
    ensures !Doomed(y', xy', n)
  {
    ReceiveSucceeds(y, x, xy, yx, true);
    assert FlightOk(xy[0], x);
    WireDecodes(xy[0], y, x);
    ReceivedSame(y, xy[0], true);
    ReceivedData(y, xy[0], true);
    if Doomed(y', xy', n) {
      if y'.status.Closed? {
        OnlyCloserCloses(y, xy[0]);
        assert xy[..0] == [];
        assert EndsEmpty(xy, 0);
        assert false;
      } else {
        var i: nat :| EndsEmpty(xy', i);
        EndsEmptyBefore(xy, i);
        assert false;
      }
    }
  }

  lemma OnlyCloserCloses(y: End, f: Flight)
    requires !y.status.Closed? && FromHeader(f.header).Ok? && Taken(y, f, true).Ok?
    requires OpOf(EventOf(f).kind) == f.header.op
    requires f.header.op == OP_REQUEST <==> y.status.Unborn?
    requires Taken(y, f, true).value.0.status.Closed?
    ensures Closer(f) && y.contents == []
  {
  }

  lemma EndsEmptyWas(xy: seq<Flight>, f: Flight, i: nat)
    requires EndsEmpty(xy + [f], i)
    ensures EndsEmpty(xy, i) || Bodies(xy) == []
  {
    assert (xy + [f])[..i] == if i < |xy| then xy[..i] else xy;
  }

  /** A packet that joins the wire dooms nothing that is under way before it. */
  lemma SavedBySender(x: End, y: End, xy: seq<Flight>, f: Option<Flight>, queued: bool)
    requires Data(x, y, xy) && !Doomed(y, xy, |x.sent|)
    ensures !Doomed(y, Put(xy, f, queued), |x.sent|)
  {
    if f.Some? && queued {
      forall i: nat | EndsEmpty(xy + [f.value], i)
        ensures EndsEmpty(xy, i) || Bodies(xy) == []
      {
        EndsEmptyWas(xy, f.value, i);
      }
    }
  }

  // ---------------------------------------------------------------------------------------
  // How much there is left to do until nothing is under way. Some packets are answered.

  function Weight(f: Flight): (n: nat) {
    if f.header.op in {OP_REQUEST, OP_SHUTDOWN, OP_CREDIT_REQUEST} then 3 else 1
  }

  function Load(fs: seq<Flight>): (n: nat) {
    if fs == [] then 0 else Load(fs[..|fs| - 1]) + Weight(fs[|fs| - 1])
  }

  function Owed(me: End): (n: nat) {
    if me.due.Some? then 2 else 0
  }

  lemma LoadAppend(fs: seq<Flight>, f: Flight)
    ensures Load(fs + [f]) == Load(fs) + Weight(f)
  {
    assert (fs + [f])[..|fs|] == fs;
  }

  lemma {:induction false} LoadRest(fs: seq<Flight>)
    requires fs != []
    ensures Load(fs) == Weight(fs[0]) + Load(fs[1..])
    decreases |fs|
  {
    var last := |fs| - 1;
    if last == 0 {
      assert fs[..0] == [] && fs[1..] == [];
    } else {
      LoadRest(fs[..last]);
      assert fs[1..] == fs[..last][1..] + [fs[last]];
      LoadAppend(fs[..last][1..], fs[last]);
    }
  }

  /** An answer weighs less than the packet that it answers, and is not answered itself. */
  lemma AnswersAreLight(y: End, f: Flight, listening: bool)
    requires CanTake(y) && FromHeader(f.header).Ok? && Taken(y, f, listening).Ok?
    requires OpOf(EventOf(f).kind) == f.header.op
    ensures Owed(Taken(y, f, listening).value.0) < Weight(f) + Owed(y)
  {
  }

  /** Polling gets on: less is left to do, and nothing but the reader's own state changes. */
  lemma PollLightens(x: End, y: End, xy: seq<Flight>, yx: seq<Flight>, y': End, xy': seq<Flight>)
    requires EndOk(y) && EndOk(x) && Peers(x, y) && Flow(x, y, xy, yx) && TakeStep(y, xy, true, y', xy')
    ensures Load(xy') + Owed(y') < Load(xy) + Owed(y)
    ensures y'.sent == y.sent && y'.drained == y.drained && (y.status.Closed? ==> y'.status.Closed?)
    ensures y'.info.bufAlloc == y.info.bufAlloc
  {
    ReceiveSucceeds(y, x, xy, yx, true);
    assert FlightOk(xy[0], x);
    WireDecodes(xy[0], y, x);
    ReceivedSame(y, xy[0], true);
    ReceivedData(y, xy[0], true);
    AnswersAreLight(y, xy[0], true);
    LoadRest(xy);
  }

  /** So does sending what is due. */
  lemma ReplyLightens(x: End, out: seq<Flight>, queued: bool)
    requires EndOk(x) && x.due.Some?
    ensures Load(Put(out, Attempt(x, DoReply), queued)) + Owed(After(x, DoReply, queued)) < Load(out) + Owed(x)
  {
    LoadAppend(out, Attempt(x, DoReply).value);
  }

  /** The packets that are due have no body. */
  lemma RepliesAreHeaders(x: End)
    requires x.due.Some?
    ensures |Wire(Attempt(x, DoReply).value)| == HEADER_SIZE
  {
  }

  lemma ReplyDoomsNothing(y: End, xy: seq<Flight>, n: nat)
    requires y.due.Some?
    ensures Doomed(After(y, DoReply, true), xy, n) <==> Doomed(y, xy, n)
  {
  }

  // ---------------------------------------------------------------------------------------
  // Getting on without loss, on either side

  /** All that `x` has sent can still be read. */
  ghost predicate Safe(x: End, y: End, xy: seq<Flight>) {
    !Doomed(y, xy, |x.sent|)
  }

  function Life(me: End): (n: nat) {
    if me.status.Closed? then 0 else 4
  }

  /** What an endpoint has left to do, and what is under way to it. */
  ghost function Ahead(y: End, xy: seq<Flight>): (n: nat) {
    Load(xy) + Owed(y) + Life(y)
  }

  /** Polling: `y` takes the next packet. */
  lemma TakingSaves(x: End, y: End, xy: seq<Flight>, yx: seq<Flight>, y': End, xy': seq<Flight>)
    requires EndOk(y) && EndOk(x) && Peers(x, y) && Flow(x, y, xy, yx) && TakeStep(y, xy, true, y', xy')
    ensures y'.sent == y.sent && y'.info.bufAlloc == y.info.bufAlloc && Ahead(y', xy') < Ahead(y, xy)
    ensures Safe(x, y, xy) ==> Safe(x, y', xy')
  {
    PollLightens(x, y, xy, yx, y', xy');
    if Safe(x, y, xy) {
      SavedByPoll(x, y, xy, yx, y', xy', |x.sent|);
    }
  }

  /** Replying: `x` sends what it owes. */
  lemma ReplyingSaves(x: End, y: End, xy: seq<Flight>, yx: seq<Flight>, x': End, xy': seq<Flight>)
    requires EndOk(x) && Data(x, y, xy) && ActStep(x, xy, DoReply, true, x', xy')
    ensures x'.sent == x.sent && x'.info.bufAlloc == x.info.bufAlloc && Life(x') == Life(x)
            && Load(xy') + Owed(x') < Load(xy) + Owed(x)
    ensures Safe(x, y, xy) ==> Safe(x', y, xy')
    ensures Safe(y, x, yx) ==> Safe(y, x', yx)
  {
    ReplyLightens(x, xy, true);
    ReplyDoomsNothing(x, yx, |y.sent|);
    if Safe(x, y, xy) {
      SavedBySender(x, y, xy, Attempt(x, DoReply), true);
    }
  }

  /** Where data is outstanding, the buffer has capacity. */
  lemma HasCapacity(x: End, y: End, xy: seq<Flight>, yx: seq<Flight>)
    requires Flow(x, y, xy, yx) && |y.drained| < |x.sent|
    ensures y.info.bufAlloc > 0
  {
    RisingFrom(x.learned, x.learned, yx, |y.drained|);
  }

  /** Giving up: `y` closes a connection on which it can never receive anything. */
  lemma GivingUpSaves(x: End, y: End, xy: seq<Flight>, yx: seq<Flight>, y': End)
    requires Flow(x, y, xy, yx) && y.info.bufAlloc == 0 && Allowed(y, DoClose) && y' == After(y, DoClose, true)
    ensures y'.sent == y.sent && y'.info.bufAlloc == y.info.bufAlloc && Ahead(y', xy) < Ahead(y, xy) && Safe(x, y', xy)
  {
    if |y.drained| < |x.sent| {
      HasCapacity(x, y, xy, yx);
    }
  }

  // ---------------------------------------------------------------------------------------
  // As long as nobody ends the connection, nothing is doomed

  /** The step is no shutdown, no forced closing, and no rejection. */
  predicate Peaceful(step: Step) {
    match step
    case Act(_, op, _) => !op.DoClose? && op != DoEmit(OP_SHUTDOWN)
    case Take(_, listening) => listening
  }

  /** The connection has not ended at `x`, and `x` has not put an end to it on the wire. */
  ghost predicate Calm(x: End, out: seq<Flight>) {
    && (x.status.Unborn? || x.status.Open?) && x.due != Some(OP_RST)
    && forall i :: 0 <= i < |out| ==> !Closer(out[i])
  }

  lemma CalmAct(x: End, out: seq<Flight>, op: Op, queued: bool, byA: bool)
    requires EndOk(x) && Calm(x, out) && Allowed(x, op) && Peaceful(Act(byA, op, queued))
    ensures Calm(After(x, op, queued), Put(out, Attempt(x, op), queued))
  {
  }

  lemma CalmTake(x: End, y: End, xy: seq<Flight>, yx: seq<Flight>, y': End, xy': seq<Flight>)
    requires EndOk(y) && EndOk(x) && Peers(x, y) && Flow(x, y, xy, yx) && TakeStep(y, xy, true, y', xy')
    requires Calm(x, xy) && Calm(y, yx)
    ensures Calm(x, xy') && Calm(y', yx)
  {
    ReceiveSucceeds(y, x, xy, yx, true);
    assert FlightOk(xy[0], x);
    WireDecodes(xy[0], y, x);
  }

  lemma CalmKept(s: Stream, s': Stream, step: Step)
    requires Inv(s) && Next(s, s', step) && Peaceful(step) && Calm(s.a, s.ab) && Calm(s.b, s.ba)
    ensures Calm(s'.a, s'.ab) && Calm(s'.b, s'.ba)
  {
    match step
    case Act(byA, op, queued) =>
      if byA {
        CalmAct(s.a, s.ab, op, queued, byA);
      } else {
        CalmAct(s.b, s.ba, op, queued, byA);
      }
    case Take(byA, _) =>
      if byA {
        CalmTake(s.b, s.a, s.ba, s.ab, s'.a, s'.ba);
      } else {
        CalmTake(s.a, s.b, s.ab, s.ba, s'.b, s'.ab);
      }
  }

  lemma CalmDoomsNothing(x: End, y: End, xy: seq<Flight>, yx: seq<Flight>, n: nat)
    requires Calm(x, xy) && Calm(y, yx)
    ensures !Doomed(y, xy, n)
  {
  }
}
