/** Asking for credit. A sender that is refused asks its peer, once, how much room there is, and is answered; so that no
    data that fits the peer's buffer is refused for ever, as long as the queues take the packets. */
module VsockCredit {
  import opened Wrappers
  import opened VsockPacket
  import opened ConnectionInfo
  import opened VsockStream
  import opened VsockEnding
  import Paths

  function CountOp(fs: seq<Flight>, op: nat): (n: nat) {
    if fs == [] then 0 else CountOp(fs[..|fs| - 1], op) + if fs[|fs| - 1].header.op == op then 1 else 0
  }

  lemma CountAppend(fs: seq<Flight>, f: Flight, op: nat)
    ensures CountOp(fs + [f], op) == CountOp(fs, op) + if f.header.op == op then 1 else 0
  {
    assert (fs + [f])[..|fs|] == fs;
  }

  lemma {:induction false} CountRest(fs: seq<Flight>, op: nat)
    requires fs != []
    ensures CountOp(fs, op) == CountOp(fs[1..], op) + if fs[0].header.op == op then 1 else 0
    decreases |fs|
  {
    var last := |fs| - 1;
    if last == 0 {
      assert fs[..0] == [] && fs[1..] == [];
    } else {
      CountRest(fs[..last], op);
      assert fs[1..] == fs[..last][1..] + [fs[last]];
      CountAppend(fs[..last][1..], fs[last], op);
    }
  }

  /** What becomes of the requests of `x`: those under way, the answer that `y` owes, and the answers under way. */
  function Asked(y: End, xy: seq<Flight>, yx: seq<Flight>): (n: nat) {
    CountOp(xy, OP_CREDIT_REQUEST) + (if y.due == Some(OP_CREDIT_UPDATE) then 1 else 0) + CountOp(yx, OP_CREDIT_UPDATE)
  }

  function Waits(x: End): (n: nat) {
    if x.info.pendingCredit then 1 else 0
  }

  /** The client asks for credit, or tells of its own, without being asked. */
  predicate Unasked(op: Op) {
    op == DoEmit(OP_CREDIT_REQUEST) || op == DoEmit(OP_CREDIT_UPDATE)
  }

  // ---------------------------------------------------------------------------------------
  // What the steps do to the requests of `x`

  /** `x` acts: it asks exactly when it begins to wait. */
  lemma AskerActs(x: End, y: End, xy: seq<Flight>, yx: seq<Flight>, op: Op)
    requires EndOk(x) && Allowed(x, op)
    ensures var x', xy' := After(x, op, true), Put(xy, Attempt(x, op), true);
            && Asked(y, xy', yx) + Waits(x)
               == Asked(y, xy, yx) + Waits(x') + (if op == DoEmit(OP_CREDIT_REQUEST) then 1 else 0)
            && (x.info.pendingCredit ==> x'.info.pendingCredit)
  {
    var f := Attempt(x, op);
    if f.Some? {
      CountAppend(xy, f.value, OP_CREDIT_REQUEST);
    }
  }

  /** `y` acts: an answer that is owed goes on the wire. */
  lemma AnswererActs(y: End, xy: seq<Flight>, yx: seq<Flight>, op: Op)
    requires EndOk(y) && Allowed(y, op)
    ensures var y', yx' := After(y, op, true), Put(yx, Attempt(y, op), true);
            Asked(y', xy, yx') == Asked(y, xy, yx) + if op == DoEmit(OP_CREDIT_UPDATE) then 1 else 0
  {
    var f := Attempt(y, op);
    if f.Some? {
      CountAppend(yx, f.value, OP_CREDIT_UPDATE);
    }
  }

  /** `y` takes a packet: a request makes it owe the answer. */
  lemma AnswererTakes(x: End, y: End, xy: seq<Flight>, yx: seq<Flight>, y': End, xy': seq<Flight>)
    requires EndOk(y) && EndOk(x) && Peers(x, y) && Flow(x, y, xy, yx) && Calm(y, yx) && Calm(x, xy)
    requires TakeStep(y, xy, true, y', xy')
    ensures Asked(y', xy', yx) == Asked(y, xy, yx)
  {
    ReceiveSucceeds(y, x, xy, yx, true);
    assert FlightOk(xy[0], x);
    WireDecodes(xy[0], y, x);
    CountRest(xy, OP_CREDIT_REQUEST);
  }

  /** `x` takes a packet: an answer ends its waiting. */
  lemma AskerTakes(x: End, y: End, xy: seq<Flight>, yx: seq<Flight>, x': End, yx': seq<Flight>)
    requires EndOk(y) && EndOk(x) && Peers(y, x) && Flow(y, x, yx, xy) && Calm(x, xy) && Calm(y, yx)
    requires TakeStep(x, yx, true, x', yx')
    ensures var answer := yx[0].header.op == OP_CREDIT_UPDATE;
            && x'.info.pendingCredit == (x.info.pendingCredit && !answer)
            && Asked(y, xy, yx') + (if answer then 1 else 0) == Asked(y, xy, yx)
  {
    ReceiveSucceeds(x, y, yx, xy, true);
    assert FlightOk(yx[0], y);
    WireDecodes(yx[0], x, y);
    CountRest(yx, OP_CREDIT_UPDATE);
  }

  // ---------------------------------------------------------------------------------------
  // Runs in which nobody ends the connection and the queues take every packet

  predicate Fair(step: Step) {
    Peaceful(step) && (step.Act? ==> step.queued)
  }

  /** Moreover, no client asks or tells without need. */
  predicate Plain(step: Step) {
    Fair(step) && (step.Act? ==> !Unasked(step.op))
  }

  ghost predicate FairMoves(s: Stream, s': Stream) {
    exists step :: Next(s, s', step) && Fair(step)
  }

  ghost predicate PlainMoves(s: Stream, s': Stream) {
    exists step :: Next(s, s', step) && Plain(step)
  }

  /** Whoever waits has asked. */
  ghost predicate Served(x: End, y: End, xy: seq<Flight>, yx: seq<Flight>) {
    Waits(x) <= Asked(y, xy, yx)
  }

  ghost predicate FairInv(s: Stream) {
    && Inv(s) && Calm(s.a, s.ab) && Calm(s.b, s.ba)
    && s.a.lost == 0 && s.b.lost == 0
    && Served(s.a, s.b, s.ab, s.ba) && Served(s.b, s.a, s.ba, s.ab)
  }

  /** Exactly one request is under way or being answered for each side that waits, and none for one that does not. */
  ghost predicate AskedOnce(s: Stream) {
    Asked(s.b, s.ab, s.ba) == Waits(s.a) && Asked(s.a, s.ba, s.ab) == Waits(s.b)
  }

  lemma ActServes(s: Stream, s': Stream, byA: bool, op: Op)
    requires Inv(s) && Next(s, s', Act(byA, op, true))
    ensures Served(s.a, s.b, s.ab, s.ba) ==> Served(s'.a, s'.b, s'.ab, s'.ba)
    ensures Served(s.b, s.a, s.ba, s.ab) ==> Served(s'.b, s'.a, s'.ba, s'.ab)
    ensures AskedOnce(s) && !Unasked(op) ==> AskedOnce(s')
  {
    if byA {
      AskerActs(s.a, s.b, s.ab, s.ba, op);
      AnswererActs(s.a, s.ba, s.ab, op);
    } else {
      AskerActs(s.b, s.a, s.ba, s.ab, op);
      AnswererActs(s.b, s.ab, s.ba, op);
    }
  }

  lemma TakeServes(s: Stream, s': Stream, byA: bool)
    requires Inv(s) && Calm(s.a, s.ab) && Calm(s.b, s.ba) && Next(s, s', Take(byA, true))
    ensures Served(s.a, s.b, s.ab, s.ba) ==> Served(s'.a, s'.b, s'.ab, s'.ba)
    ensures Served(s.b, s.a, s.ba, s.ab) ==> Served(s'.b, s'.a, s'.ba, s'.ab)
    ensures AskedOnce(s) ==> AskedOnce(s')
  {
    if byA {
      AskerTakes(s.a, s.b, s.ab, s.ba, s'.a, s'.ba);
      AnswererTakes(s.b, s.a, s.ba, s.ab, s'.a, s'.ba);
    } else {
      AskerTakes(s.b, s.a, s.ba, s.ab, s'.b, s'.ab);
      AnswererTakes(s.a, s.b, s.ab, s.ba, s'.b, s'.ab);
    }
  }

  /** What was charged and not queued: nothing. */
  lemma NothingLost(s: Stream, s': Stream, step: Step)
    requires Inv(s) && Next(s, s', step) && Fair(step) && s.a.lost == 0 && s.b.lost == 0
    ensures s'.a.lost == 0 && s'.b.lost == 0
  {
    if step.Take? {
      if step.byA {
        TakeLosesNothing(s.b, s.a, s.ba, s.ab, s'.a, s'.ba);
      } else {
        TakeLosesNothing(s.a, s.b, s.ab, s.ba, s'.b, s'.ab);
      }
    }
  }

  lemma TakeLosesNothing(x: End, y: End, xy: seq<Flight>, yx: seq<Flight>, y': End, xy': seq<Flight>)
    requires EndOk(y) && EndOk(x) && Peers(x, y) && Flow(x, y, xy, yx) && TakeStep(y, xy, true, y', xy')
    ensures y'.lost == y.lost
  {
    ReceiveSucceeds(y, x, xy, yx, true);
    assert FlightOk(xy[0], x);
    WireDecodes(xy[0], y, x);
    ReceivedSame(y, xy[0], true);
  }

  lemma StepServes(s: Stream, s': Stream, step: Step)
    requires FairInv(s) && Next(s, s', step) && Fair(step)
    ensures FairInv(s') && (AskedOnce(s) && Plain(step) ==> AskedOnce(s'))
  {
    StepKeeps(s, s', step);
    CalmKept(s, s', step);
    NothingLost(s, s', step);
    match step
    case Act(byA, op, _) => ActServes(s, s', byA, op);
    case Take(byA, _) => TakeServes(s, s', byA);
  }

  lemma FairKeeps()
    ensures Paths.Keeps(FairMoves, FairInv)
    ensures Paths.Keeps(PlainMoves, FairInv) && Paths.KeepsUnder(PlainMoves, FairInv, AskedOnce)
  {
    forall s, s' | FairInv(s) && FairMoves(s, s')
      ensures FairInv(s')
    {
      var step :| Next(s, s', step) && Fair(step);
      StepServes(s, s', step);
    }
    forall s, s' | FairInv(s) && PlainMoves(s, s')
      ensures FairInv(s') && (AskedOnce(s) ==> AskedOnce(s'))
    {
      var step :| Next(s, s', step) && Plain(step);
      StepServes(s, s', step);
    }
  }

  lemma InitFair(s: Stream)
    requires Init(s)
    ensures FairInv(s) && AskedOnce(s)
  {
    InitInv(s);
    assert s.ab[..0] == [];
    assert CountOp(s.ab[..0], OP_CREDIT_REQUEST) == CountOp(s.ab[..0], OP_CREDIT_UPDATE) == 0;
  }

  /** In every run in which nobody ends the connection and the queues take every packet: a side that has been refused
      and not yet told has asked, exactly once if the clients do not ask or tell by themselves. */
  lemma OneRequest(start: Stream, s: Stream)
    requires Init(start) && Paths.Reaches(start, s, PlainMoves)
    ensures AskedOnce(s)
  {
    InitFair(start);
    FairKeeps();
    Paths.KeptUnder(start, s, PlainMoves, FairInv, AskedOnce);
  }

  lemma FairlyReached(start: Stream, s: Stream)
    requires Init(start) && Paths.Reaches(start, s, FairMoves)
    ensures FairInv(s)
  {
    InitFair(start);
    FairKeeps();
    Paths.Kept(start, s, FairMoves, FairInv);
  }

  // ---------------------------------------------------------------------------------------
  // Getting everything off the wire

  /** The endpoint on one side, and the packets that it has under way. */
  function Side(s: Stream, byA: bool): (x: End) {
    if byA then s.a else s.b
  }

  function Out(s: Stream, byA: bool): (fs: seq<Flight>) {
    if byA then s.ab else s.ba
  }

  function WithSide(s: Stream, byA: bool, x: End): (s': Stream) {
    if byA then s.(a := x) else s.(b := x)
  }

  function WithOut(s: Stream, byA: bool, fs: seq<Flight>): (s': Stream) {
    if byA then s.(ab := fs) else s.(ba := fs)
  }

  /** The flow from the endpoint on that side. */
  lemma SideInv(s: Stream, byA: bool)
    requires Inv(s)
    ensures EndOk(Side(s, byA)) && EndOk(Side(s, !byA)) && Peers(Side(s, byA), Side(s, !byA))
    ensures Flow(Side(s, byA), Side(s, !byA), Out(s, byA), Out(s, !byA))
    ensures Flow(Side(s, !byA), Side(s, byA), Out(s, !byA), Out(s, byA))
  {
  }

  function Acted(s: Stream, byA: bool, op: Op): (s': Stream)
    requires Allowed(Side(s, byA), op)
  {
    var x := Side(s, byA);
    WithOut(WithSide(s, byA, After(x, op, true)), byA, Put(Out(s, byA), Attempt(x, op), true))
  }

  lemma CanAct(s: Stream, byA: bool, op: Op)
    requires Allowed(Side(s, byA), op) && Peaceful(Act(byA, op, true))
    ensures FairMoves(s, Acted(s, byA, op))
  {
    assert Next(s, Acted(s, byA, op), Act(byA, op, true));
  }

  /** That side takes the next packet under way to it. */
  lemma CanTakeNext(s: Stream, byA: bool) returns (s': Stream)
    requires Inv(s) && Side(s, byA).due.None? && Out(s, !byA) != [] && !Panics(Side(s, byA), Out(s, !byA)[0])
    ensures FairMoves(s, s')
    ensures s' == WithOut(WithSide(s, byA, Side(s', byA)), !byA, Out(s, !byA)[1..])
    ensures TakeStep(Side(s, byA), Out(s, !byA), true, Side(s', byA), Out(s, !byA)[1..])
  {
    SideInv(s, byA);
    var inn := Out(s, !byA);
    ReceiveSucceeds(Side(s, byA), Side(s, !byA), inn, Out(s, byA), true);
    var x := Receive(Side(s, byA), Wire(inn[0]), inn[0].forwarded, true).value.0;
    s' := WithOut(WithSide(s, byA, x), !byA, inn[1..]);
    assert Next(s, s', Take(byA, true));
  }

  ghost function Todo(s: Stream): (n: nat) {
    Load(s.ab) + Owed(s.b) + Load(s.ba) + Owed(s.a)
  }

  /** Nothing has been sent or read, and the buffers are as large as before. */
  predicate SameData(s: Stream, s': Stream) {
    && s'.a.sent == s.a.sent && s'.b.sent == s.b.sent && s'.a.drained == s.a.drained && s'.b.drained == s.b.drained
    && s'.a.info.bufAlloc == s.a.info.bufAlloc && s'.b.info.bufAlloc == s.b.info.bufAlloc
  }

  lemma ReplyNext(s: Stream, byA: bool) returns (s': Stream)
    requires Inv(s) && Side(s, byA).due.Some?
    ensures FairMoves(s, s') && Todo(s') < Todo(s) && SameData(s, s')
  {
    SideInv(s, byA);
    CanAct(s, byA, DoReply);
    ReplyLightens(Side(s, byA), Out(s, byA), true);
    s' := Acted(s, byA, DoReply);
  }

  lemma PollNext(s: Stream, byA: bool) returns (s': Stream)
    requires Inv(s) && Side(s, byA).due.None? && Out(s, !byA) != [] && Side(s, byA).info.bufAlloc > 0
    ensures FairMoves(s, s') && Todo(s') < Todo(s) && SameData(s, s')
  {
    SideInv(s, byA);
    s' := CanTakeNext(s, byA);
    PollLightens(Side(s, !byA), Side(s, byA), Out(s, !byA), Out(s, byA), Side(s', byA), Out(s', !byA));
  }

  ghost predicate Idle(s: Stream) {
    s.ab == [] && s.ba == [] && s.a.due.None? && s.b.due.None?
  }

  /** Both sides go on polling and answering until nothing is under way or owed. */
  lemma {:induction false} Settles(s: Stream) returns (s': Stream)
    requires FairInv(s) && s.a.info.bufAlloc > 0 && s.b.info.bufAlloc > 0
    ensures Paths.Reaches(s, s', FairMoves) && FairInv(s') && Idle(s') && SameData(s, s')
    decreases Todo(s)
  {
    if Idle(s) {
      s' := s;
      Paths.Stays(s, FairMoves);
    } else {
      var next;
      if s.a.due.Some? {
        next := ReplyNext(s, true);
      } else if s.b.due.Some? {
        next := ReplyNext(s, false);
      } else if s.ab != [] {
        next := PollNext(s, false);
      } else {
        next := PollNext(s, true);
      }
      FairKeeps();
      s' := Settles(next);
      Paths.OneMove(s, next, FairMoves);
      Paths.Onward(s, next, s', FairMoves);
    }
  }

  // ---------------------------------------------------------------------------------------
  // One request and its answer

  /** A request makes its receiver owe the answer, and changes nothing else but what it knows of its peer. */
  lemma RequestHeard(x: End, y: End, xy: seq<Flight>, yx: seq<Flight>, y': End, xy': seq<Flight>)
    requires EndOk(y) && EndOk(x) && Peers(x, y) && Flow(x, y, xy, yx) && TakeStep(y, xy, true, y', xy')
    requires Listed(y) && xy[0].header.op == OP_CREDIT_REQUEST
    ensures y' == y.(info := y'.info, learned := y'.learned, due := Some(OP_CREDIT_UPDATE))
    ensures y'.info.bufAlloc == y.info.bufAlloc
  {
    ReceiveSucceeds(y, x, xy, yx, true);
    assert FlightOk(xy[0], x);
    WireDecodes(xy[0], y, x);
  }

  /** The answer tells how much has been read and how large the buffer is, and ends the waiting. */
  lemma AnswerHeard(x: End, y: End, xy: seq<Flight>, yx: seq<Flight>, x': End, yx': seq<Flight>)
    requires EndOk(y) && EndOk(x) && Peers(y, x) && Flow(y, x, yx, xy) && TakeStep(x, yx, true, x', yx')
    requires Listed(x) && yx[0].header.op == OP_CREDIT_UPDATE
    ensures x' == x.(info := x'.info, learned := yx[0].forwarded) && !x'.info.pendingCredit
    ensures x'.info.peerBufAlloc == y.info.bufAlloc && x'.info.bufAlloc == x.info.bufAlloc
  {
    ReceiveSucceeds(x, y, yx, xy, true);
    assert FlightOk(yx[0], y);
    WireDecodes(yx[0], x, y);
  }

  /** When everything has been read and the sender knows it, it may send as much as the buffer holds, less what it has
      charged and not queued. */
  lemma AllFree(x: End, y: End, xy: seq<Flight>, yx: seq<Flight>)
    requires EndOk(x) && EndOk(y) && Flow(x, y, xy, yx) && y.status.Open? && xy == [] && y.contents == []
    requires x.learned == |y.drained| && x.info.peerBufAlloc == y.info.bufAlloc
    ensures PeerFree(x.info) == y.info.bufAlloc - x.lost
  {
    EstimateIsSafe(x, y, xy, yx);
    assert Bodies([]) == [];
  }

  /** Nobody has ended the connection, and nothing is under way or owed. */
  ghost predicate Rests(s: Stream) {
    Inv(s) && Idle(s) && s.a.status.Open? && s.b.status.Open?
  }

  /** The sender's client is refused, and its endpoint asks. */
  lemma Asks(s: Stream, byA: bool, bytes: seq<byte>) returns (s': Stream)
    requires Rests(s) && !Side(s, byA).info.pendingCredit && PeerFree(Side(s, byA).info) < |bytes|
    ensures Send(Side(s, byA), bytes, true).2 == Err(Socket(InsufficientBufferSpaceInPeer))
    ensures FairMoves(s, s') && Inv(s') && Next(s, s', Act(byA, DoSend(bytes), true))
    ensures var x := Side(s, byA);
            && s' == WithOut(WithSide(s, byA, x.(info := x.info.(pendingCredit := true))), byA, Out(s', byA))
            && Out(s', byA) == [MakeFlight(x, OP_CREDIT_REQUEST, [])]
  {
    CanAct(s, byA, DoSend(bytes));
    s' := Acted(s, byA, DoSend(bytes));
    assert Next(s, s', Act(byA, DoSend(bytes), true));
    StepKeeps(s, s', Act(byA, DoSend(bytes), true));
  }

  /** The peer takes the request and answers. */
  lemma Answers(s: Stream, byA: bool) returns (s': Stream)
    requires Inv(s) && Listed(Side(s, !byA)) && Side(s, !byA).due.None? && Out(s, !byA) == []
    requires |Out(s, byA)| == 1 && Out(s, byA)[0].header.op == OP_CREDIT_REQUEST
    ensures Paths.Reaches(s, s', FairMoves) && Inv(s')
    ensures var y, y' := Side(s, !byA), Side(s', !byA);
            && y' == y.(info := y'.info, learned := y'.learned) && y'.info.bufAlloc == y.info.bufAlloc
            && s' == WithOut(WithOut(WithSide(s, !byA, y'), byA, []), !byA, Out(s', !byA))
            && |Out(s', !byA)| == 1 && Out(s', !byA)[0].header.op == OP_CREDIT_UPDATE
            && Out(s', !byA)[0].forwarded == |y.drained|
  {
    var heard := TakesRequest(s, byA);
    CanAct(heard, !byA, DoReply);
    s' := Acted(heard, !byA, DoReply);
    MoveKeeps(heard, s');
    Paths.OneMove(s, heard, FairMoves);
    Paths.OneMove(heard, s', FairMoves);
    Paths.Onward(s, heard, s', FairMoves);
  }

  lemma TakesRequest(s: Stream, byA: bool) returns (s': Stream)
    requires Inv(s) && Listed(Side(s, !byA)) && Side(s, !byA).due.None?
    requires |Out(s, byA)| == 1 && Out(s, byA)[0].header.op == OP_CREDIT_REQUEST
    ensures FairMoves(s, s') && Inv(s')
    ensures var y, y' := Side(s, !byA), Side(s', !byA);
            && y' == y.(info := y'.info, learned := y'.learned, due := Some(OP_CREDIT_UPDATE))
            && y'.info.bufAlloc == y.info.bufAlloc && s' == WithOut(WithSide(s, !byA, y'), byA, [])
  {
    SideInv(s, byA);
    s' := CanTakeNext(s, !byA);
    RequestHeard(Side(s, byA), Side(s, !byA), Out(s, byA), Out(s, !byA), Side(s', !byA), []);
    MoveKeeps(s, s');
  }

  lemma MoveKeeps(s: Stream, s': Stream)
    requires Inv(s) && FairMoves(s, s')
    ensures Inv(s')
  {
    var step :| Next(s, s', step) && Fair(step);
    StepKeeps(s, s', step);
  }

  /** The sender takes the answer. */
  lemma Learns(s: Stream, byA: bool) returns (s': Stream)
    requires Inv(s) && Side(s, byA).status.Open? && Side(s, byA).due.None? && Side(s, !byA).status.Open?
    requires Out(s, byA) == [] && Side(s, !byA).contents == []
    requires |Out(s, !byA)| == 1 && Out(s, !byA)[0].header.op == OP_CREDIT_UPDATE
    requires Out(s, !byA)[0].forwarded == |Side(s, !byA).drained|
    ensures Paths.Reaches(s, s', FairMoves) && Inv(s')
    ensures var x, x' := Side(s, byA), Side(s', byA);
            && x' == x.(info := x'.info, learned := x'.learned) && x'.info.bufAlloc == x.info.bufAlloc
            && s' == WithOut(WithSide(s, byA, x'), !byA, [])
            && !x'.info.pendingCredit && PeerFree(x'.info) == Side(s, !byA).info.bufAlloc - x.lost
  {
    SideInv(s, byA);
    s' := CanTakeNext(s, byA);
    AnswerHeard(Side(s, byA), Side(s, !byA), Out(s, byA), Out(s, !byA), Side(s', byA), []);
    MoveKeeps(s, s');
    SideInv(s', byA);
    AllFree(Side(s', byA), Side(s', !byA), [], []);
    Paths.OneMove(s, s', FairMoves);
  }

  /** In every run: when a send is refused, nothing is under way and the peer's client has read everything, the request,
      the answer and two polls leave the sender with credit for the peer's whole buffer, less what it has charged and
      not queued; and a retry within that is accepted. */
  lemma CreditRegained(s: Stream, byA: bool, bytes: seq<byte>) returns (s': Stream)
    requires Rests(s) && Side(s, !byA).contents == []
    requires !Side(s, byA).info.pendingCredit && PeerFree(Side(s, byA).info) < |bytes|
    ensures Send(Side(s, byA), bytes, true).2 == Err(Socket(InsufficientBufferSpaceInPeer))
    ensures Paths.Reaches(s, s', FairMoves) && Rests(s') && SameData(s, s') && Side(s', byA).lost == Side(s, byA).lost
    ensures var x, room := Side(s', byA), Side(s, !byA).info.bufAlloc - Side(s, byA).lost;
            && PeerFree(x.info) == room && !x.info.pendingCredit
            && forall more: seq<byte> :: Send(x, more, true).2.Ok? <==> |more| <= room
  {
    var asked := Asks(s, byA, bytes);
    Paths.OneMove(s, asked, FairMoves);
    var answered := Answers(asked, byA);
    Paths.Onward(s, asked, answered, FairMoves);
    s' := Learns(answered, byA);
    Paths.Onward(s, answered, s', FairMoves);
  }

  // ---------------------------------------------------------------------------------------
  // Nobody is refused for ever

  /** With nothing under way and the connection not ended, it is there on both sides, and nobody waits. */
  lemma IdleRests(s: Stream)
    requires FairInv(s) && Idle(s)
    ensures Rests(s) && !s.a.info.pendingCredit && !s.b.info.pendingCredit
  {
  }

  /** The client on that side reads everything. */
  lemma ReadsAll(s: Stream, byA: bool) returns (s': Stream)
    requires FairInv(s) && Idle(s) && Side(s, byA).info.bufAlloc > 0
    ensures Paths.Reaches(s, s', FairMoves) && FairInv(s') && Idle(s') && Side(s', byA).contents == []
    ensures Side(s', !byA) == Side(s, !byA) && Side(s', byA).info.bufAlloc == Side(s, byA).info.bufAlloc
    ensures Side(s', byA).sent == Side(s, byA).sent
  {
    IdleRests(s);
    var op := DoRecv(|Side(s, byA).contents|);
    CanAct(s, byA, op);
    s' := Acted(s, byA, op);
    FairKeeps();
    Paths.OneMove(s, s', FairMoves);
  }

  /** From every run in which nobody has ended the connection and the queues took every packet, driver and device can go
      on, sending nothing, so that data of any length up to the peer's buffer is accepted. */
  lemma NeverRefusedForever(start: Stream, s: Stream, byA: bool, bytes: seq<byte>) returns (s': Stream)
    requires Init(start) && Paths.Reaches(start, s, FairMoves)
    requires s.a.info.bufAlloc > 0 && s.b.info.bufAlloc > 0 && |bytes| <= Side(s, !byA).info.bufAlloc
    ensures Paths.Reaches(s, s', FairMoves) && s'.a.sent == s.a.sent && s'.b.sent == s.b.sent
    ensures s'.a.info.bufAlloc == s.a.info.bufAlloc && s'.b.info.bufAlloc == s.b.info.bufAlloc
    ensures Side(s', byA).due.None? && Send(Side(s', byA), bytes, true).2 == Ok(())
  {
    FairlyReached(start, s);
    var settled := Settles(s);
    var read := ReadsAll(settled, !byA);
    Paths.Onward(s, settled, read, FairMoves);
    IdleRests(read);
    if PeerFree(Side(read, byA).info) >= |bytes| {
      s' := read;
    } else {
      s' := CreditRegained(read, byA, bytes);
      Paths.Onward(s, read, s', FairMoves);
    }
  }

  // ---------------------------------------------------------------------------------------
  // A request that the queue does not take

  ghost predicate AnyMoves(s: Stream, s': Stream) {
    exists step :: Next(s, s', step)
  }

  /** Nothing is under way or owed, the peer has read everything and has its whole buffer free, and yet the sender on
      that side believes that there is no room at all, and waits for an answer. */
  ghost predicate Starved(s: Stream, byA: bool) {
    && Rests(s) && Side(s, !byA).contents == [] && Side(s, !byA).info.bufAlloc > 0
    && PeerFree(Side(s, byA).info) == 0 && Side(s, byA).info.pendingCredit
  }

  /** Whatever its client sends then is refused without asking again, nothing changes, and there is nothing to poll:
      only its peer's client can help, by sending something of its own. */
  lemma StarvedStays(s: Stream, s': Stream, byA: bool, bytes: seq<byte>, queued: bool)
    requires Starved(s, byA) && bytes != []
    ensures Next(s, s', Act(byA, DoSend(bytes), queued)) <==> s' == s
    ensures Send(Side(s, byA), bytes, queued) == (Side(s, byA), None, Err(Socket(InsufficientBufferSpaceInPeer)))
    ensures forall byA', listening :: !Next(s, s', Take(byA', listening))
  {
  }

  /** This comes about when the queue does not take the request: the endpoint notes that it has asked before it asks. */
  lemma RequestLost(s: Stream, byA: bool, bytes: seq<byte>) returns (s': Stream)
    requires Rests(s) && Side(s, !byA).contents == [] && Side(s, !byA).info.bufAlloc > 0
    requires PeerFree(Side(s, byA).info) == 0 && bytes != [] && !Side(s, byA).info.pendingCredit
    ensures Next(s, s', Act(byA, DoSend(bytes), false)) && Starved(s', byA)
  {
    var x := Side(s, byA);
    s' := WithSide(s, byA, x.(info := x.info.(pendingCredit := true)));
    StepKeeps(s, s', Act(byA, DoSend(bytes), false));
  }

  /** Sending as much as the buffer holds uses up the credit. */
  lemma UsedUp(x: End, y: End, xy: seq<Flight>, yx: seq<Flight>)
    requires EndOk(x) && EndOk(y) && Flow(x, y, xy, yx) && y.drained == [] && x.lost == 0
    requires |x.sent| == y.info.bufAlloc > 0
    ensures PeerFree(x.info) == 0
  {
    RisingFrom(x.learned, x.learned, yx, |y.drained|);
    PeerFreeExact(x.info, |x.sent| + x.lost, x.learned);
  }

  /** The sender fills the peer's buffer, the peer's client reads everything, and the sender has not heard of it. */
  lemma FillsUp(start: Stream, byA: bool, bytes: seq<byte>) returns (s: Stream)
    requires Init(start) && start.a.info.bufAlloc > 0 && start.b.info.bufAlloc > 0
    requires |bytes| == Side(start, !byA).info.bufAlloc
    ensures Paths.Reaches(start, s, FairMoves) && Rests(s) && Side(s, !byA).contents == []
    ensures Side(s, !byA).info.bufAlloc > 0 && PeerFree(Side(s, byA).info) == 0 && !Side(s, byA).info.pendingCredit
  {
    Paths.Stays(start, FairMoves);
    var may := NeverRefusedForever(start, start, byA, bytes);
    FairlyReached(start, may);
    var sent := SendsAll(may, byA, bytes);
    Paths.Onward(start, may, sent, FairMoves);
    var settled := Settles(sent);
    Paths.Onward(start, sent, settled, FairMoves);
    SideInv(settled, byA);
    UsedUp(Side(settled, byA), Side(settled, !byA), Out(settled, byA), Out(settled, !byA));
    s := ReadsAll(settled, !byA);
    Paths.Onward(start, settled, s, FairMoves);
    IdleRests(s);
  }

  lemma SendsAll(s: Stream, byA: bool, bytes: seq<byte>) returns (s': Stream)
    requires FairInv(s) && Send(Side(s, byA), bytes, true).2 == Ok(()) && Side(s, byA).due.None?
    requires Side(s, byA).sent == []
    ensures Paths.Reaches(s, s', FairMoves) && FairInv(s')
    ensures Side(s', byA).sent == bytes && Side(s', !byA).drained == []
    ensures s'.a.info.bufAlloc == s.a.info.bufAlloc && s'.b.info.bufAlloc == s.b.info.bufAlloc
  {
    SideInv(s, byA);
    CanAct(s, byA, DoSend(bytes));
    s' := Acted(s, byA, DoSend(bytes));
    FairKeeps();
    Paths.OneMove(s, s', FairMoves);
  }

  /** So there is a run, from the connection's request, for either side and buffers of any size, after which a sender is
      refused until its peer's client does something, although the peer has room for everything. */
  lemma StarvingRun(start: Stream, byA: bool) returns (s: Stream)
    requires Init(start) && start.a.info.bufAlloc > 0 && start.b.info.bufAlloc > 0
    ensures Paths.Reaches(start, s, AnyMoves) && Starved(s, byA)
  {
    var bytes := seq(Side(start, !byA).info.bufAlloc, _ => 0);
    var full := FillsUp(start, byA, bytes);
    s := RequestLost(full, byA, [0]);
    Paths.Widen(start, full, FairMoves, AnyMoves);
    Paths.OneMove(full, s, AnyMoves);
    Paths.Onward(start, full, s, AnyMoves);
  }
}
