/** Two endpoints of one vsock connection over first-in first-out channels, from the connection's
    request to its end.

    Each endpoint runs the operations of the source on its own counters and its own receive buffer,
    one operation at a time; the credit check and the charge of `send` are one step. */
module VsockStream {
  import opened Wrappers
  import opened Words
  import opened VsockPacket
  import opened ConnectionInfo

  /** Whether the manager's list holds the connection: not yet, yes, yes and the peer has shut it down
      while data was unread, or no longer. */
  datatype Status = Unborn | Open | Marked | Closed

  /** One endpoint. `due` is the operation code of the packet that it owes after an operation and sends
      next. `sent` is the data it put on the wire, `lost` the number of bytes it charged for packets
      that could not be queued, `drained` the data its client has read, and `learned` the peer's forward
      count that it heard of last, not wrapped. */
  datatype End = End(
    cid: nat, info: Info, contents: seq<byte>, status: Status, due: Option<nat>,
    sent: seq<byte>, lost: nat, drained: seq<byte>, learned: nat)

  /** The manager's list holds the connection. */
  predicate Listed(me: End) {
    me.status.Open? || me.status.Marked?
  }

  /** A packet under way, with the sender's forward count at that moment, not wrapped. */
  datatype Flight = Flight(header: Header, body: seq<byte>, forwarded: nat)

  datatype Stream = Stream(a: End, b: End, ab: seq<Flight>, ba: seq<Flight>)

  /** The bytes of a packet on the wire. */
  function Wire(f: Flight): (b: seq<byte>) {
    EncodeHeader(f.header) + f.body
  }

  // ---------------------------------------------------------------------------------------
  // Operations of one endpoint. `queued` says whether the queue accepts the packet.

  const SEND_AND_RECEIVE: nat := 3

  function MakeFlight(me: End, op: nat, body: seq<byte>): (f: Flight) {
    var header := NewHeader(me.info, me.cid, op, |body|);
    Flight(if op == OP_SHUTDOWN then header.(flags := SEND_AND_RECEIVE) else header, body, |me.drained|)
  }

  /** `send`: refuses when the peer's buffer may be too small, and then asks for credit once. Returns the
      endpoint, the packet handed to the queue, and the answer. */
  function Send(me: End, bytes: seq<byte>, queued: bool): (r: (End, Option<Flight>, Result<(), Error>))
  {
    if !Listed(me) then (me, None, Err(Socket(NotConnected)))
    else if PeerFree(me.info) >= |bytes| then
      var me' := me.(info := Charge(me.info, |bytes|));
      if queued then (me'.(sent := me.sent + bytes), Some(MakeFlight(me, OP_RW, bytes)), Ok(()))
      else (me'.(lost := me.lost + |bytes|), Some(MakeFlight(me, OP_RW, bytes)), Err(QueueFull))
    else if me.info.pendingCredit then (me, None, Err(Socket(InsufficientBufferSpaceInPeer)))
    else
      (me.(info := me.info.(pendingCredit := true)), Some(MakeFlight(me, OP_CREDIT_REQUEST, [])),
       if queued then Err(Socket(InsufficientBufferSpaceInPeer)) else Err(QueueFull))
  }

  /** `recv`: the call that empties a connection which its peer has shut down removes it and owes a
      reset. Draining a buffer without capacity divides by zero. */
  function Recv(me: End, room: nat): (r: Result<(End, seq<byte>), Error>)
  {
    if !Listed(me) then Err(Socket(NotConnected))
    else if me.info.bufAlloc == 0 then Err(Panicked)
    else
      var n := Min(|me.contents|, room);
      var me' := me.(contents := me.contents[n..], drained := me.drained + me.contents[..n],
                     info := DoneForwarding(me.info, n));
      Ok((if me.status.Marked? && n == |me.contents| then me'.(status := Closed, due := Some(OP_RST)) else me',
          me.contents[..n]))
  }

  /** `force_close`. */
  function ForceClose(me: End): (r: Result<End, Error>) {
    if !Listed(me) then Err(Socket(NotConnected)) else Ok(me.(status := Closed, due := Some(OP_RST)))
  }

  /** A connection as the manager makes it for a request. */
  function Born(me: End): (me': End) {
    me.(info := NewInfo(me.info.dst, me.info.srcPort, me.info.bufAlloc), contents := [], status := Open)
  }

  /** What `poll` does with an event for a connection in the list: the endpoint after it, and the event
      that is passed on to the client. Adding nothing to a buffer without capacity divides by zero. */
  function Handle(me: End, event: Event, body: seq<byte>, listening: bool): (r: Result<(End, Option<Event>), Error>)
  {
    match event.kind
    case Received(length) =>
      if |me.contents| + |body| > me.info.bufAlloc then Err(Socket(OutputBufferTooShort(length)))
      else if me.info.bufAlloc == 0 then Err(Panicked)
      else Ok((me.(contents := me.contents + body), Some(event)))
    case ConnectionRequest =>
      if listening then Ok((me.(due := Some(OP_RESPONSE)), Some(event)))
      else Ok((me.(status := Closed, due := Some(OP_RST)), None))
    case Disconnected(reason) =>
      if me.contents == [] then
        Ok((me.(status := Closed, due := if reason.Shutdown? then Some(OP_RST) else None), Some(event)))
      else Ok((me.(status := Marked), Some(event)))
    case CreditRequest => Ok((me.(due := Some(OP_CREDIT_UPDATE)), None))
    case Connected => Ok((me, Some(event)))
    case CreditUpdate => Ok((me, Some(event)))
  }

  /** What the peer says about its buffer is noted first. */
  function Heard(me: End, event: Event, forwarded: nat): (me': End) {
    me.(info := UpdateForEvent(me.info, event), learned := forwarded)
  }

  /** `poll` on the bytes of a packet. A packet for a connection that is not in the list is ignored, unless
      it asks for one. */
  function Receive(me: End, wire: seq<byte>, forwarded: nat, listening: bool): (r: Result<(End, Option<Event>), Error>)
  {
    match ReadHeaderAndBody(wire)
    case Err(error) => Err(Socket(error))
    case Ok((header, body)) =>
      match FromHeader(header)
      case Err(error) => Err(Socket(error))
      case Ok(event) =>
        if !MatchesConnection(event, me.info, me.cid) then Ok((me, None))
        else if !Listed(me) && !event.kind.ConnectionRequest? then Ok((me, None))
        else Handle(Heard(if Listed(me) then me else Born(me), event, forwarded), event, body, listening)
  }

  // ---------------------------------------------------------------------------------------
  // Steps

  /** What a client may do: `send`, `shutdown` or a credit message, `recv`, `force_close`; and sending the
      packet that is due. */
  datatype Op = DoSend(bytes: seq<byte>) | DoEmit(op: nat) | DoRecv(room: nat) | DoClose | DoReply

  predicate Allowed(me: End, op: Op) {
    if op.DoReply? then me.due.Some?
    else
      && me.due.None? && Listed(me)
      && (op.DoEmit? ==> op.op in {OP_SHUTDOWN, OP_CREDIT_UPDATE, OP_CREDIT_REQUEST})
      && (op.DoRecv? ==> me.info.bufAlloc > 0)
  }

  /** The packet that an operation hands to the queue. */
  function Attempt(me: End, op: Op): (f: Option<Flight>) {
    match op
    case DoSend(bytes) => Send(me, bytes, true).1
    case DoEmit(op) => Some(MakeFlight(me, op, []))
    case DoReply => if me.due.Some? then Some(MakeFlight(me, me.due.value, [])) else None
    case _ => None
  }

  function After(me: End, op: Op, queued: bool): (me': End)
    requires Allowed(me, op)
  {
    match op
    case DoSend(bytes) => Send(me, bytes, queued).0
    case DoEmit(_) => me
    case DoRecv(room) => Recv(me, room).value.0
    case DoClose => ForceClose(me).value
    case DoReply => me.(due := None)
  }

  function Put(out: seq<Flight>, f: Option<Flight>, queued: bool): (out': seq<Flight>) {
    if f.Some? && queued then out + [f.value] else out
  }

  ghost predicate ActStep(me: End, out: seq<Flight>, op: Op, queued: bool, me': End, out': seq<Flight>) {
    Allowed(me, op) && me' == After(me, op, queued) && out' == Put(out, Attempt(me, op), queued)
  }

  /** The endpoint does one thing at a time, and sends what it owes first. */
  predicate CanTake(me: End) {
    me.due.None?
  }

  ghost predicate TakeStep(me: End, inn: seq<Flight>, listening: bool, me': End, inn': seq<Flight>) {
    && CanTake(me) && inn != []
    && var r := Receive(me, Wire(inn[0]), inn[0].forwarded, listening);
    && r.Ok? && me' == r.value.0 && inn' == inn[1..]
  }

  datatype Step = Act(byA: bool, op: Op, queued: bool) | Take(byA: bool, listening: bool)

  ghost predicate Next(s: Stream, s': Stream, step: Step) {
    match step
    case Act(byA, op, queued) =>
      if byA then s'.b == s.b && s'.ba == s.ba && ActStep(s.a, s.ab, op, queued, s'.a, s'.ab)
      else s'.a == s.a && s'.ab == s.ab && ActStep(s.b, s.ba, op, queued, s'.b, s'.ba)
    case Take(byA, listening) =>
      if byA then s'.b == s.b && s'.ab == s.ab && TakeStep(s.a, s.ba, listening, s'.a, s'.ba)
      else s'.a == s.a && s'.ba == s.ba && TakeStep(s.b, s.ab, listening, s'.b, s'.ab)
  }

  function NewEnd(cid: nat, info: Info, status: Status): (me: End) {
    End(cid, NewInfo(info.dst, info.srcPort, info.bufAlloc), [], status, None, [], 0, [], 0)
  }

  /** `a` has asked for a connection; `b` has not heard of it yet. */
  ghost predicate Init(s: Stream) {
    && s.a == NewEnd(s.a.cid, s.a.info, Open) && s.b == NewEnd(s.b.cid, s.b.info, Unborn)
    && InfoOk(s.a.info) && InfoOk(s.b.info) && s.a.cid < Pow256(8) && s.b.cid < Pow256(8)
    && Peers(s.a, s.b)
    && s.ab == [MakeFlight(s.a, OP_REQUEST, [])] && s.ba == []
  }

  // ---------------------------------------------------------------------------------------
  // The invariant, for data from `x` to `y` and credit back from `y` to `x`

  function BodiesOf(fs: seq<Flight>): (bs: seq<seq<byte>>)
    ensures |bs| == |fs|
  {
    seq(|fs|, i requires 0 <= i < |fs| => fs[i].body)
  }

  function Bodies(fs: seq<Flight>): (b: seq<byte>) {
    Concat(BodiesOf(fs))
  }

  /** The packet is one that `x` makes, with a forward count that it had. */
  ghost predicate FlightOk(f: Flight, x: End) {
    && f.header ==
       NewHeader(x.info.(fwdCnt := f.forwarded % U32), x.cid, f.header.op, |f.body|).(flags := f.header.flags)
    && |f.body| < U32 && f.header.flags < U32
    && 1 <= f.header.op <= 7
    && (f.header.op != OP_RW ==> f.body == [])
  }

  ghost predicate Flights(fs: seq<Flight>, x: End) {
    forall i :: 0 <= i < |fs| ==> FlightOk(fs[i], x)
  }

  /** Forward counts on the wire never go backwards and never run ahead. */
  ghost predicate Rising(lo: nat, fs: seq<Flight>, hi: nat) {
    if fs == [] then lo <= hi
    else fs[|fs| - 1].forwarded <= hi && Rising(lo, fs[..|fs| - 1], fs[|fs| - 1].forwarded)
  }

  ghost predicate EndOk(x: End) {
    && InfoOk(x.info) && x.cid < Pow256(8)
    && x.info.fwdCnt == |x.drained| % U32
    && x.info.txCnt == (|x.sent| + x.lost) % U32
    && x.info.peerFwdCnt == x.learned % U32
    && (x.due.Some? ==> x.due.value in {OP_RESPONSE, OP_RST, OP_CREDIT_UPDATE})
    && (x.status.Unborn? ==> x == NewEnd(x.cid, x.info, Unborn))
    && (x.status.Marked? ==> x.contents != [])
  }

  ghost predicate Peers(x: End, y: End) {
    x.info.dst == Addr(y.cid, y.info.srcPort) && y.info.dst == Addr(x.cid, x.info.srcPort)
  }

  /** `x` never has more outstanding than `y` allowed; until it hears from `y` it may send nothing. */
  ghost predicate Credit(x: End, y: End) {
    && |x.sent| + x.lost <= x.learned + x.info.peerBufAlloc
    && (x.info.peerBufAlloc == y.info.bufAlloc || (x.info.peerBufAlloc == 0 && x.learned == 0))
  }

  /** Up to the end of the connection at `y`, its reads, its buffer and the wire make up what `x` sent;
      after it the reads are still a prefix. */
  ghost predicate Data(x: End, y: End, xy: seq<Flight>) {
    if y.status.Closed? then y.drained <= x.sent else y.drained + y.contents + Bodies(xy) == x.sent
  }

  /** The request is the first packet until `y` has heard of it, and there is no other. */
  ghost predicate Begins(y: End, xy: seq<Flight>) {
    && (y.status.Unborn? <==> xy != [] && xy[0].header.op == OP_REQUEST)
    && forall i :: 0 < i < |xy| ==> xy[i].header.op != OP_REQUEST
  }

  ghost predicate Flow(x: End, y: End, xy: seq<Flight>, yx: seq<Flight>) {
    && Data(x, y, xy)
    && Flights(xy, x)
    && Rising(x.learned, yx, |y.drained|)
    && Credit(x, y)
    && Begins(y, xy)
  }

  ghost predicate Inv(s: Stream) {
    && EndOk(s.a) && EndOk(s.b) && Peers(s.a, s.b)
    && Flow(s.a, s.b, s.ab, s.ba) && Flow(s.b, s.a, s.ba, s.ab)
  }

  // ---------------------------------------------------------------------------------------
  // Channels

  lemma BodiesAppend(fs: seq<Flight>, f: Flight)
    ensures Bodies(fs + [f]) == Bodies(fs) + f.body
  {
    assert BodiesOf(fs + [f]) == BodiesOf(fs) + [f.body];
    ConcatAppend(BodiesOf(fs), f.body);
  }

  lemma BodiesFirst(fs: seq<Flight>)
    requires fs != []
    ensures Bodies(fs) == fs[0].body + Bodies(fs[1..])
  {
    assert BodiesOf(fs)[1..] == BodiesOf(fs[1..]);
    ConcatFirst(BodiesOf(fs));
  }

  lemma RisingAppend(lo: nat, fs: seq<Flight>, hi: nat, f: Flight)
    requires Rising(lo, fs, hi) && f.forwarded == hi
    ensures Rising(lo, fs + [f], hi)
  {
    assert (fs + [f])[..|fs|] == fs;
  }

  lemma {:induction false} RisingFirst(lo: nat, fs: seq<Flight>, hi: nat)
    requires Rising(lo, fs, hi) && fs != []
    ensures lo <= fs[0].forwarded <= hi && Rising(fs[0].forwarded, fs[1..], hi)
    decreases |fs|
  {
    var last := |fs| - 1;
    var mid := fs[last].forwarded;
    if last == 0 {
      assert fs[1..] == [];
      assert Rising(lo, fs[..0], mid);
    } else {
      RisingFirst(lo, fs[..last], mid);
      assert fs[1..][..last - 1] == fs[..last][1..];
      assert fs[1..][last - 1] == fs[last];
    }
  }

  lemma {:induction false} RisingFrom(lo: nat, lo': nat, fs: seq<Flight>, hi: nat)
    requires Rising(lo', fs, hi) && lo <= lo'
    ensures Rising(lo, fs, hi) && lo' <= hi
    decreases |fs|
  {
    if fs != [] {
      RisingFrom(lo, lo', fs[..|fs| - 1], fs[|fs| - 1].forwarded);
    }
  }

  lemma RisingMore(lo: nat, fs: seq<Flight>, hi: nat, hi': nat)
    requires Rising(lo, fs, hi) && hi <= hi'
    ensures Rising(lo, fs, hi')
  {
  }

  lemma FlightsAppend(fs: seq<Flight>, x: End, f: Flight)
    requires Flights(fs, x) && FlightOk(f, x)
    ensures Flights(fs + [f], x)
  {
  }

  lemma FlightsRest(fs: seq<Flight>, x: End)
    requires Flights(fs, x) && fs != []
    ensures FlightOk(fs[0], x) && Flights(fs[1..], x)
  {
  }

  /** What a packet is called only depends on the endpoint's addresses and its allowance. */
  ghost predicate SameNames(x: End, x': End) {
    && x'.cid == x.cid && x'.info.dst == x.info.dst
    && x'.info.srcPort == x.info.srcPort && x'.info.bufAlloc == x.info.bufAlloc
  }

  lemma FlightsSame(fs: seq<Flight>, x: End, x': End)
    requires Flights(fs, x) && SameNames(x, x')
    ensures Flights(fs, x')
  {
    forall i | 0 <= i < |fs|
      ensures FlightOk(fs[i], x')
    {
      assert FlightOk(fs[i], x);
    }
  }

  // ---------------------------------------------------------------------------------------
  // Acting. `me` is the sender `x` of the flow in the first lemma of each pair and the receiver `y` in
  // the second.

  /** A packet without data joins the wire, or not. */
  lemma EmitOut(me: End, peer: End, out: seq<Flight>, inn: seq<Flight>, op: nat, queued: bool)
    requires EndOk(me) && 1 < op <= 7 && op != OP_RW && Flow(me, peer, out, inn)
    ensures Flow(me, peer, Put(out, Some(MakeFlight(me, op, [])), queued), inn)
  {
    if queued {
      var f := MakeFlight(me, op, []);
      FlightsAppend(out, me, f);
      BodiesAppend(out, f);
      assert Bodies(out) + [] == Bodies(out);
    }
  }

  lemma PutBack(me: End, peer: End, out: seq<Flight>, inn: seq<Flight>, f: Option<Flight>, queued: bool)
    requires Flow(peer, me, inn, out) && (f.Some? ==> f.value.forwarded == |me.drained|)
    ensures Flow(peer, me, inn, Put(out, f, queued))
  {
    if queued && f.Some? {
      RisingAppend(peer.learned, out, |me.drained|, f.value);
    }
  }

  /** Asking for credit. */
  lemma AskOut(me: End, peer: End, out: seq<Flight>, inn: seq<Flight>, queued: bool)
    requires EndOk(me) && Listed(me) && Flow(me, peer, out, inn)
    ensures var me' := me.(info := me.info.(pendingCredit := true));
            && EndOk(me') && SameNames(me, me')
            && Flow(me', peer, Put(out, Some(MakeFlight(me, OP_CREDIT_REQUEST, [])), queued), inn)
  {
    var me' := me.(info := me.info.(pendingCredit := true));
    FlightsSame(out, me, me');
    EmitOut(me', peer, out, inn, OP_CREDIT_REQUEST, queued);
  }

  /** A send that is let through leaves the sender within its allowance; one whose packet cannot be
      queued only makes it more conservative. */
  lemma SendOut(me: End, peer: End, out: seq<Flight>, inn: seq<Flight>, bytes: seq<byte>, queued: bool)
    requires EndOk(me) && EndOk(peer) && Listed(me) && Flow(me, peer, out, inn)
    ensures var (me', f, r) := Send(me, bytes, queued);
            EndOk(me') && SameNames(me, me') && Flow(me', peer, Put(out, f, queued), inn)
  {
    if PeerFree(me.info) >= |bytes| {
      ChargeOk(me, peer, out, inn, bytes, queued);
      SendDataOut(me, peer, out, inn, bytes, queued);
    } else if !me.info.pendingCredit {
      AskOut(me, peer, out, inn, queued);
    }
  }

  lemma SendDataOut(me: End, peer: End, out: seq<Flight>, inn: seq<Flight>, bytes: seq<byte>, queued: bool)
    requires EndOk(me) && Listed(me) && PeerFree(me.info) >= |bytes| && |bytes| < U32 && Flow(me, peer, out, inn)
    requires Credit(Send(me, bytes, queued).0, peer)
    ensures var (me', f, r) := Send(me, bytes, queued); Flow(me', peer, Put(out, f, queued), inn)
  {
    var (me', f, r) := Send(me, bytes, queued);
    FlightsSame(out, me, me');
    if queued {
      FlightsAppend(out, me', f.value);
      DataAppend(me, me', peer, out, f.value);
    }
  }

  lemma DataAppend(x: End, x': End, y: End, xy: seq<Flight>, f: Flight)
    requires Data(x, y, xy) && x'.sent == x.sent + f.body
    ensures Data(x', y, xy + [f])
  {
    BodiesAppend(xy, f);
    Regroup(y.drained + y.contents, Bodies(xy), f.body);
  }

  lemma ChargeOk(me: End, peer: End, out: seq<Flight>, inn: seq<Flight>, bytes: seq<byte>, queued: bool)
    requires EndOk(me) && EndOk(peer) && Listed(me) && Flow(me, peer, out, inn) && PeerFree(me.info) >= |bytes|
    ensures var me' := Send(me, bytes, queued).0; EndOk(me') && Credit(me', peer) && |bytes| < U32
  {
    var total := |me.sent| + me.lost;
    RisingFrom(me.learned, me.learned, inn, |peer.drained|);
    assert |peer.drained| <= |me.sent|;
    PeerFreeExact(me.info, total, me.learned);
    WrappedAdd(total, |bytes|);
  }

  lemma SendBack(me: End, peer: End, out: seq<Flight>, inn: seq<Flight>, bytes: seq<byte>, queued: bool)
    requires Flow(peer, me, inn, out) && Listed(me)
    ensures var (me', f, r) := Send(me, bytes, queued); Flow(peer, me', inn, Put(out, f, queued))
  {
    PutBack(me, peer, out, inn, Send(me, bytes, queued).1, queued);
  }

  lemma RecvOut(me: End, peer: End, out: seq<Flight>, inn: seq<Flight>, room: nat)
    requires EndOk(me) && Allowed(me, DoRecv(room)) && Flow(me, peer, out, inn)
    ensures var me' := Recv(me, room).value.0; EndOk(me') && SameNames(me, me') && Flow(me', peer, out, inn)
  {
    WrappedAdd(|me.drained|, Min(|me.contents|, room));
    FlightsSame(out, me, Recv(me, room).value.0);
  }

  lemma RecvBack(me: End, peer: End, out: seq<Flight>, inn: seq<Flight>, room: nat)
    requires EndOk(me) && Allowed(me, DoRecv(room)) && Flow(peer, me, inn, out)
    ensures Flow(peer, Recv(me, room).value.0, inn, out)
  {
    var n := Min(|me.contents|, room);
    RisingMore(peer.learned, out, |me.drained|, |me.drained| + n);
    assert me.drained + me.contents[..n] + me.contents[n..] == me.drained + me.contents;
  }

  lemma CloseOut(me: End, peer: End, out: seq<Flight>, inn: seq<Flight>)
    requires EndOk(me) && Listed(me) && Flow(me, peer, out, inn)
    ensures var me' := ForceClose(me).value; EndOk(me') && SameNames(me, me') && Flow(me', peer, out, inn)
  {
    FlightsSame(out, me, ForceClose(me).value);
  }

  lemma ActOut(me: End, peer: End, inn: seq<Flight>, out: seq<Flight>, op: Op, queued: bool)
    requires EndOk(me) && EndOk(peer) && Flow(me, peer, out, inn) && Allowed(me, op)
    ensures var me', out' := After(me, op, queued), Put(out, Attempt(me, op), queued);
            EndOk(me') && SameNames(me, me') && Flow(me', peer, out', inn)
  {
    match op
    case DoSend(bytes) => SendOut(me, peer, out, inn, bytes, queued);
    case DoEmit(op) => EmitOut(me, peer, out, inn, op, queued);
    case DoRecv(room) => RecvOut(me, peer, out, inn, room);
    case DoClose => CloseOut(me, peer, out, inn);
    case DoReply =>
      EmitOut(me, peer, out, inn, me.due.value, queued);
      FlightsSame(Put(out, Attempt(me, op), queued), me, me.(due := None));
  }

  lemma ActBack(me: End, peer: End, inn: seq<Flight>, out: seq<Flight>, op: Op, queued: bool)
    requires EndOk(me) && Flow(peer, me, inn, out) && Allowed(me, op)
    ensures Flow(peer, After(me, op, queued), inn, Put(out, Attempt(me, op), queued))
  {
    match op
    case DoSend(bytes) => SendBack(me, peer, out, inn, bytes, queued);
    case DoEmit(_) => PutBack(me, peer, out, inn, Attempt(me, op), queued);
    case DoRecv(room) => RecvBack(me, peer, out, inn, room);
    case DoClose =>
    case DoReply => PutBack(me, peer, out, inn, Attempt(me, op), queued);
  }

  // ---------------------------------------------------------------------------------------
  // Receiving

  /** The packets on the wire decode to what was sent, and belong to the connection. */
  lemma WireDecodes(f: Flight, me: End, peer: End)
    requires EndOk(me) && EndOk(peer) && Peers(peer, me) && FlightOk(f, peer)
    ensures ReadHeaderAndBody(Wire(f)) == Ok((f.header, f.body))
    ensures FromHeader(f.header).Ok?
    ensures var e := FromHeader(f.header).value;
            && MatchesConnection(e, me.info, me.cid)
            && e.bufAlloc == peer.info.bufAlloc && e.fwdCnt == f.forwarded % U32
            && OpOf(e.kind) == f.header.op && (e.kind.Received? ==> e.kind.length == |f.body|)
  {
    Sizes();
    assert InRange(f.header);
    PacketRoundTrip(f.header, f.body, []);
    assert Wire(f) + [] == Wire(f);
  }

  lemma Sizes()
    ensures Pow256(4) == U32 && Pow256(2) == 65536
  {
  }

  function EventOf(f: Flight): (e: Event)
    requires FromHeader(f.header).Ok?
  {
    FromHeader(f.header).value
  }

  /** Unread bytes and bytes under way never exceed the receiver's allowance. */
  lemma RoomForAll(x: End, y: End, xy: seq<Flight>, yx: seq<Flight>)
    requires Flow(x, y, xy, yx) && !y.status.Closed?
    ensures |y.contents| + |Bodies(xy)| <= y.info.bufAlloc
  {
    RisingFrom(x.learned, x.learned, yx, |y.drained|);
    assert |y.drained| + |y.contents| + |Bodies(xy)| == |x.sent|;
  }

  /** The sender's idea of the receiver's free room is never too large: it is what is really free
      less what has been drained but not heard of and what was charged but never queued. */
  lemma EstimateIsSafe(x: End, y: End, xy: seq<Flight>, yx: seq<Flight>)
    requires EndOk(x) && EndOk(y) && Flow(x, y, xy, yx) && !y.status.Closed?
    ensures var room := y.info.bufAlloc - |y.contents| - |Bodies(xy)|;
            && PeerFree(x.info) <= room
            && (x.info.peerBufAlloc == y.info.bufAlloc ==>
                  PeerFree(x.info) == room - (|y.drained| - x.learned) - x.lost)
  {
    RisingFrom(x.learned, x.learned, yx, |y.drained|);
    assert |y.drained| + |y.contents| + |Bodies(xy)| == |x.sent|;
    PeerFreeExact(x.info, |x.sent| + x.lost, x.learned);
  }

  /** The next packet is one that the source cannot take: empty data for a buffer without capacity. */
  predicate Panics(me: End, f: Flight) {
    Listed(me) && me.info.bufAlloc == 0 && f.header.op == OP_RW && f.body == []
  }

  /** What the endpoint does with the next packet. */
  ghost function Taken(me: End, f: Flight, listening: bool): (r: Result<(End, Option<Event>), Error>)
    requires FromHeader(f.header).Ok?
  {
    if !Listed(me) && f.header.op != OP_REQUEST then Ok((me, None))
    else Handle(Heard(if Listed(me) then me else Born(me), EventOf(f), f.forwarded), EventOf(f), f.body, listening)
  }

  /** The receiver always has room for the next packet, so polling fails exactly on an empty data packet for
      a buffer without capacity, on which the source divides by zero. */
  lemma ReceiveSucceeds(me: End, peer: End, inn: seq<Flight>, out: seq<Flight>, listening: bool)
    requires EndOk(me) && EndOk(peer) && Peers(peer, me) && Flow(peer, me, inn, out) && inn != []
    ensures FromHeader(inn[0].header).Ok?
    ensures var r := Receive(me, Wire(inn[0]), inn[0].forwarded, listening);
            && r == Taken(me, inn[0], listening)
            && (r.Ok? <==> !Panics(me, inn[0])) && (r.Err? ==> r == Err(Panicked))
  {
    var f := inn[0];
    assert FlightOk(f, peer);
    WireDecodes(f, me, peer);
    if Listed(me) {
      RoomForAll(peer, me, inn, out);
      BodiesFirst(inn);
    }
  }

  /** Receiving leaves what the endpoint has sent and read alone, and its names. */
  lemma ReceivedSame(me: End, f: Flight, listening: bool)
    requires EndOk(me) && FromHeader(f.header).Ok? && Taken(me, f, listening).Ok?
    requires f.header.op == OP_REQUEST ==> me.status.Unborn?
    requires OpOf(EventOf(f).kind) == f.header.op
    ensures var me' := Taken(me, f, listening).value.0;
            && SameNames(me, me') && me'.sent == me.sent && me'.lost == me.lost && me'.drained == me.drained
            && me'.info.fwdCnt == me.info.fwdCnt && me'.info.txCnt == me.info.txCnt
            && (me' == me || (me'.info == UpdateForEvent(me.info, EventOf(f)) && me'.learned == f.forwarded))
            && (me'.due == me.due || me'.due.None? || me'.due.value in {OP_RESPONSE, OP_RST, OP_CREDIT_UPDATE})
            && (me'.status.Unborn? ==> me' == me) && (me'.status.Marked? ==> me'.contents != [])
  {
  }

  lemma ReceivedData(me: End, f: Flight, listening: bool)
    requires EndOk(me) && FromHeader(f.header).Ok? && Taken(me, f, listening).Ok?
    requires OpOf(EventOf(f).kind) == f.header.op && (f.header.op != OP_RW ==> f.body == [])
    requires f.header.op == OP_REQUEST <==> me.status.Unborn?
    ensures var me' := Taken(me, f, listening).value.0;
            && !me'.status.Unborn?
            && (me.status.Closed? ==> me' == me)
            && (!me'.status.Closed? ==> me'.contents == me.contents + f.body)
  {
  }

  lemma DataTaken(x: End, y: End, y': End, xy: seq<Flight>)
    requires Data(x, y, xy) && xy != [] && y'.drained == y.drained
    requires y.status.Closed? ==> y' == y
    requires !y'.status.Closed? ==> y'.contents == y.contents + xy[0].body
    ensures Data(x, y', xy[1..])
  {
    BodiesFirst(xy);
    Regroup(y.drained, y.contents, xy[0].body);
    Regroup(y.drained + y.contents, xy[0].body, Bodies(xy[1..]));
  }

  lemma ReceiveBack(me: End, peer: End, inn: seq<Flight>, out: seq<Flight>, listening: bool)
    requires EndOk(me) && Flow(peer, me, inn, out) && inn != []
    requires FromHeader(inn[0].header).Ok? && Taken(me, inn[0], listening).Ok?
             && OpOf(EventOf(inn[0]).kind) == inn[0].header.op
    ensures Flow(peer, Taken(me, inn[0], listening).value.0, inn[1..], out)
  {
    FlightsRest(inn, peer);
    ReceivedSame(me, inn[0], listening);
    ReceivedData(me, inn[0], listening);
    DataTaken(peer, me, Taken(me, inn[0], listening).value.0, inn);
  }

  /** Hearing from the peer never takes credit away that was used, and never grants too much. */
  lemma HeardCredit(me: End, me': End, peer: End, inn: seq<Flight>, event: Event)
    requires EndOk(me) && EndOk(peer) && Credit(me, peer) && Rising(me.learned, inn, |peer.drained|) && inn != []
    requires event.bufAlloc == peer.info.bufAlloc && event.fwdCnt == inn[0].forwarded % U32
    requires me'.info == UpdateForEvent(me.info, event) && me'.learned == inn[0].forwarded
    requires me'.sent == me.sent && me'.lost == me.lost
    ensures Credit(me', peer) && InfoOk(me'.info) && me'.info.peerFwdCnt == me'.learned % U32
    ensures Rising(me'.learned, inn[1..], |peer.drained|)
  {
    RisingFirst(me.learned, inn, |peer.drained|);
  }

  lemma ReceiveOut(me: End, peer: End, inn: seq<Flight>, out: seq<Flight>, listening: bool)
    requires EndOk(me) && EndOk(peer) && Peers(peer, me) && Flow(me, peer, out, inn)
    requires inn != [] && FlightOk(inn[0], peer) && Begins(me, inn)
    requires FromHeader(inn[0].header).Ok? && Taken(me, inn[0], listening).Ok?
    ensures var me' := Taken(me, inn[0], listening).value.0;
            EndOk(me') && SameNames(me, me') && Flow(me', peer, out, inn[1..])
  {
    WireDecodes(inn[0], me, peer);
    ReceivedSame(me, inn[0], listening);
    HeardOut(me, Taken(me, inn[0], listening).value.0, peer, inn, out, EventOf(inn[0]));
  }

  lemma HeardOut(me: End, me': End, peer: End, inn: seq<Flight>, out: seq<Flight>, event: Event)
    requires EndOk(me) && EndOk(peer) && Flow(me, peer, out, inn) && inn != []
    requires event.bufAlloc == peer.info.bufAlloc && event.fwdCnt == inn[0].forwarded % U32
    requires me' == me || (me'.info == UpdateForEvent(me.info, event) && me'.learned == inn[0].forwarded)
    requires SameNames(me, me') && me'.sent == me.sent && me'.lost == me.lost && me'.drained == me.drained
    requires me'.due == me.due || me'.due.None? || me'.due.value in {OP_RESPONSE, OP_RST, OP_CREDIT_UPDATE}
    requires (me'.status.Unborn? ==> me' == me) && (me'.status.Marked? ==> me'.contents != [])
    ensures EndOk(me') && Flow(me', peer, out, inn[1..])
  {
    FlightsSame(out, me, me');
    if me' == me {
      RisingFirst(me.learned, inn, |peer.drained|);
      RisingFrom(me.learned, inn[0].forwarded, inn[1..], |peer.drained|);
    } else {
      HeardCredit(me, me', peer, inn, event);
    }
  }

  lemma ActKeeps(me: End, peer: End, inn: seq<Flight>, out: seq<Flight>, op: Op, queued: bool, me': End,
                 out': seq<Flight>)
    requires EndOk(me) && EndOk(peer) && Flow(peer, me, inn, out) && Flow(me, peer, out, inn)
    requires ActStep(me, out, op, queued, me', out')
    ensures EndOk(me') && SameNames(me, me') && Flow(peer, me', inn, out') && Flow(me', peer, out', inn)
  {
    ActOut(me, peer, inn, out, op, queued);
    ActBack(me, peer, inn, out, op, queued);
  }

  lemma TakeKeeps(me: End, peer: End, inn: seq<Flight>, out: seq<Flight>, listening: bool, me': End, inn': seq<Flight>)
    requires EndOk(me) && EndOk(peer) && Peers(peer, me) && Flow(peer, me, inn, out) && Flow(me, peer, out, inn)
    requires TakeStep(me, inn, listening, me', inn')
    ensures EndOk(me') && SameNames(me, me') && Flow(peer, me', inn', out) && Flow(me', peer, out, inn')
  {
    ReceiveSucceeds(me, peer, inn, out, listening);
    FlightsRest(inn, peer);
    WireDecodes(inn[0], me, peer);
    ReceiveBack(me, peer, inn, out, listening);
    ReceiveOut(me, peer, inn, out, listening);
  }

  // ---------------------------------------------------------------------------------------
  // All runs

  lemma InitInv(s: Stream)
    requires Init(s)
    ensures Inv(s)
  {
    Sizes();
    BodiesAppend([], s.ab[0]);
    assert s.ab == [] + s.ab;
    assert s.ab[..0] == [];
    assert Rising(0, s.ab, 0);
  }

  lemma StepKeeps(s: Stream, s': Stream, step: Step)
    requires Inv(s) && Next(s, s', step)
    ensures Inv(s')
  {
    match step
    case Act(byA, op, queued) =>
      if byA {
        ActKeeps(s.a, s.b, s.ba, s.ab, op, queued, s'.a, s'.ab);
      } else {
        ActKeeps(s.b, s.a, s.ab, s.ba, op, queued, s'.b, s'.ba);
      }
    case Take(byA, listening) =>
      if byA {
        TakeKeeps(s.a, s.b, s.ba, s.ab, listening, s'.a, s'.ba);
      } else {
        TakeKeeps(s.b, s.a, s.ab, s.ba, listening, s'.b, s'.ab);
      }
  }

  /** A run of the two endpoints, the latest step outermost. */
  datatype Run = Start(state: Stream) | Then(before: Run, step: Step, state: Stream)

  ghost predicate IsRun(r: Run) {
    match r
    case Start(s) => Init(s)
    case Then(before, step, s) => IsRun(before) && Next(before.state, s, step)
  }

  lemma {:induction false} RunInv(r: Run)
    requires IsRun(r)
    ensures Inv(r.state)
  {
    match r
    case Start(s) => InitInv(s);
    case Then(before, step, s) =>
      RunInv(before);
      StepKeeps(before.state, s, step);
  }

  /** What the flow from `x` to `y` promises. */
  ghost predicate Promise(x: End, y: End, xy: seq<Flight>, listening: bool) {
    && y.drained <= x.sent
    && (!y.status.Closed? ==> |y.contents| + |Bodies(xy)| + PeerFree(x.info) <= y.info.bufAlloc)
    && (xy != [] ==>
          var r := Receive(y, Wire(xy[0]), xy[0].forwarded, listening);
          (r.Ok? <==> !Panics(y, xy[0])) && (r.Err? ==> r == Err(Panicked)))
  }

  lemma FlowLaw(x: End, y: End, xy: seq<Flight>, yx: seq<Flight>, listening: bool)
    requires EndOk(x) && EndOk(y) && Peers(x, y) && Flow(x, y, xy, yx)
    ensures Promise(x, y, xy, listening)
  {
    if !y.status.Closed? {
      EstimateIsSafe(x, y, xy, yx);
    }
    if xy != [] {
      ReceiveSucceeds(y, x, xy, yx, listening);
    }
  }

  /** In every run, through shutdown, reset and forced closing, and in both directions: what the client has
      read is, in order and without duplication, a prefix of what the peer put on the wire; while the
      connection is there, unread bytes, bytes under way and what the peer believes it may still send never
      exceed the allowance advertised; and receiving the next packet fails exactly if it is empty and the
      buffer has no capacity. The 32-bit counters wrap any number of times. */
  lemma StreamLaw(r: Run, listening: bool)
    requires IsRun(r)
    ensures Promise(r.state.a, r.state.b, r.state.ab, listening) && Promise(r.state.b, r.state.a, r.state.ba, listening)
  {
    RunInv(r);
    FlowLaw(r.state.a, r.state.b, r.state.ab, r.state.ba, listening);
    FlowLaw(r.state.b, r.state.a, r.state.ba, r.state.ab, listening);
  }

  lemma RequestTaken(me: End, peer: End, inn: seq<Flight>, out: seq<Flight>)
    requires EndOk(me) && EndOk(peer) && Peers(peer, me) && Flow(peer, me, inn, out) && me.status.Unborn?
    ensures inn != []
    ensures var r := Receive(me, Wire(inn[0]), inn[0].forwarded, true);
            && r.Ok? && r.value.0.status.Open? && r.value.0.due == Some(OP_RESPONSE) && r.value.0.contents == []
            && r.value.0 == me.(info := r.value.0.info, status := Open, due := Some(OP_RESPONSE),
                                learned := r.value.0.learned)
            && r.value.0.info.bufAlloc == me.info.bufAlloc
  {
    ReceiveSucceeds(me, peer, inn, out, true);
    WireDecodes(inn[0], me, peer);
  }

  /** A listening peer accepts the request. */
  lemma Accept(r: Run) returns (r': Run)
    requires IsRun(r) && r.state.b.status.Unborn?
    ensures IsRun(r') && r.state.ab != [] && r'.state.ab == r.state.ab[1..] && r'.state.b.status.Open?
    ensures r'.state.b.info.bufAlloc == r.state.b.info.bufAlloc
  {
    var s := r.state;
    RunInv(r);
    RequestTaken(s.b, s.a, s.ab, s.ba);
    var b := Receive(s.b, Wire(s.ab[0]), s.ab[0].forwarded, true).value.0;
    var s' := s.(b := b, ab := s.ab[1..]);
    r' := Then(Then(r, Take(false, true), s'), Act(false, DoReply, true),
               s'.(b := After(b, DoReply, true), ba := Put(s'.ba, Attempt(b, DoReply), true)));
  }

  /** That case is reached: whenever the peer's buffer has no capacity, a run in which a client sends nothing
      at all makes the peer's `poll` stop the program. */
  lemma EmptyDataPanics(s: Stream, listening: bool) returns (r: Run)
    requires Init(s) && s.b.info.bufAlloc == 0
    ensures IsRun(r) && r.state.ab != []
    ensures Receive(r.state.b, Wire(r.state.ab[0]), r.state.ab[0].forwarded, listening) == Err(Panicked)
  {
    var s' := s.(a := After(s.a, DoSend([]), true), ab := Put(s.ab, Attempt(s.a, DoSend([])), true));
    r := Accept(Then(Start(s), Act(true, DoSend([]), true), s'));
    StreamLaw(r, listening);
  }
}
