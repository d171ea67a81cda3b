/** The endpoint of the stream model, as the manager's entry for a connection and as code over a ring buffer. */
module Endpoint {
  import opened Wrappers
  import opened VsockPacket
  import opened ConnectionInfo
  import opened ByteRing
  import opened ConnectionManager
  import opened VsockStream

  // ---------------------------------------------------------------------------------------
  // In the manager

  function KeyOfEnd(me: End): (k: Key) {
    Key(me.info.dst, me.info.srcPort)
  }

  /** The manager's map holds the endpoint as it is. */
  ghost predicate Agree(v: map<Key, Connection>, me: End) {
    var k := KeyOfEnd(me);
    && (k in v <==> Listed(me))
    && (k in v ==>
          && v[k].info == me.info && v[k].contents == me.contents
          && (v[k].peerRequestedShutdown <==> me.status.Marked?))
  }

  /** The packet that the endpoint owes, as the manager's methods send it. */
  ghost function Paid(me: End, localCid: nat, sent: Result<(), Error>): (hs: seq<Header>) {
    if me.due.Some? && sent.Ok? then [NewHeader(me.info, localCid, me.due.value, 0)] else []
  }

  ghost predicate PollMatches(s: Records, s': Records, me: End, answer: Result<(End, Option<Event>), Error>,
                              localCid: nat, sent: Result<(), Error>, r: Result<Option<Event>, Error>) {
    if answer.Err? then r == Err(answer.error)
    else
      var (me', passed) := answer.value;
      && Agree(s'.view, me') && s'.outbox == s.outbox + Paid(me', localCid, sent)
      && r == if me'.due.Some? && sent.Err? then Err(sent.error) else Ok(passed)
  }

  /** What `poll` does with an event for the connection is what the endpoint does, with the packet that it then
      owes sent at once. */
  lemma HandledIsHandle(s: Records, s': Records, me: End, event: Event, body: seq<byte>, forwarded: nat, capacity: nat,
                        id: nat, listening: bool, sent: Result<(), Error>, r: Result<Option<Event>, Error>)
    requires Agree(s.view, me) && me.due.None? && me.info.bufAlloc == capacity
    requires MatchesConnection(event, me.info, me.cid) && (Listed(me) || event.kind.ConnectionRequest?)
    requires Handled(s, s', event, body, Subject(s.view, event, capacity, id), listening, me.cid, sent, r)
    ensures var heard := Heard(if Listed(me) then me else Born(me), event, forwarded);
            PollMatches(s, s', me, Handle(heard, event, body, listening), me.cid, sent, r)
  {
  }

  /** The manager's `poll` of a packet for the connection. */
  method PollEndpoint(m: Manager, ghost me: End, packet: seq<byte>, ghost forwarded: nat, sent: Result<(), Error>)
    returns (r: Result<Option<Event>, Error>)
    requires m.Valid() && Agree(m.view, me) && me.due.None? && me.info.bufAlloc == m.capacity && me.cid == m.localCid
    requires Incoming(Some(packet)).Ok? && MatchesConnection(Incoming(Some(packet)).value.value.0, me.info, me.cid)
    modifies m
    ensures m.Valid()
    ensures PollMatches(old(m.Shown()), m.Shown(), me,
                        Receive(me, packet, forwarded, me.info.srcPort in m.listeningPorts),
                        me.cid, sent, r)
  {
    ghost var s, id := m.Shown(), m.nextId;
    ghost var (event, body) := Incoming(Some(packet)).value.value;
    r := m.Poll(Some(packet), sent);
    if Concerns(s.view, event, me.cid) {
      HandledIsHandle(s, m.Shown(), me, event, body, forwarded, m.capacity, id, me.info.srcPort in m.listeningPorts,
                      sent, r);
    }
  }

  /** The manager's `poll` of any other packet leaves the connection alone. */
  method PollOther(m: Manager, ghost me: End, packet: Option<seq<byte>>, sent: Result<(), Error>)
    returns (r: Result<Option<Event>, Error>)
    requires m.Valid() && Agree(m.view, me) && me.cid == m.localCid
    requires Incoming(packet).Ok? && Incoming(packet).value.Some? ==>
               !MatchesConnection(Incoming(packet).value.value.0, me.info, me.cid)
    modifies m
    ensures m.Valid() && Agree(m.view, me)
  {
    ghost var v, id := m.view, m.nextId;
    if Incoming(packet).Ok? && Incoming(packet).value.Some? {
      SubjectOk(m.connections, m.view, Incoming(packet).value.value.0, m.capacity, id);
    }
    r := m.Poll(packet, sent);
  }

  /** The manager's `recv`. */
  method RecvEndpoint(m: Manager, ghost me: End, k: Key, room: nat, sent: Result<(), Error>)
    returns (r: Result<seq<byte>, Error>)
    requires m.Valid() && Agree(m.view, me) && me.due.None? && me.info.bufAlloc == m.capacity && k == KeyOfEnd(me)
    modifies m
    ensures m.Valid()
    ensures var answer := Recv(me, room);
            if answer.Err? then r == Err(answer.error)
            else
              var (me', bytes) := answer.value;
              && Agree(m.view, me') && m.outbox == old(m.outbox) + Paid(me', m.localCid, sent)
              && r == if me'.due.Some? && sent.Err? then Err(sent.error) else Ok(bytes)
  {
    ghost var v := m.view;
    if k in m.view {
      assert ConnectionOk(m.view[k], m.capacity, m.nextId);
    }
    r := m.Recv(k, room, sent);
  }

  /** The manager's `force_close`. */
  method CloseEndpoint(m: Manager, ghost me: End, k: Key, sent: Result<(), Error>) returns (r: Result<(), Error>)
    requires m.Valid() && Agree(m.view, me) && me.due.None? && k == KeyOfEnd(me)
    modifies m
    ensures m.Valid()
    ensures var answer := ForceClose(me);
            if answer.Err? then r == Err(answer.error)
            else
              && Agree(m.view, answer.value) && r == sent
              && m.outbox == old(m.outbox) + Paid(answer.value, m.localCid, sent)
  {
    r := m.ForceClose(k, sent);
  }

  /** The manager's `shutdown`. */
  method ShutDownEndpoint(m: Manager, ghost me: End, k: Key, sent: Result<(), Error>) returns (r: Result<(), Error>)
    requires m.Valid() && Agree(m.view, me) && me.cid == m.localCid && k == KeyOfEnd(me)
    modifies m
    ensures m.Valid() && Agree(m.view, me)
    ensures Listed(me) ==>
              r == sent && m.outbox == old(m.outbox) + if sent.Ok? then [MakeFlight(me, OP_SHUTDOWN, []).header] else []
    ensures !Listed(me) ==> r == Err(Socket(NotConnected)) && m.outbox == old(m.outbox)
  {
    r := m.ShutDown(k, sent);
  }

  // ---------------------------------------------------------------------------------------
  // Over a ring buffer

  /** A connection with its ring buffer; `me` is what the stream model makes of it. */
  class RingEndpoint {
    const cid: nat
    var info: Info
    var ring: RingBuffer
    var status: Status
    var due: Option<nat>
    ghost var me: End

    ghost predicate Valid()
      reads this, ring, ring.buffer
    {
      && ring.Valid() && ring.buffer.Length == info.bufAlloc
      && me.cid == cid && me.info == info && me.status == status && me.due == due && me.contents == ring.Contents()
    }

    constructor (cid: nat, info: Info, status: Status)
      ensures Valid() && fresh(ring) && fresh(ring.buffer) && me == NewEnd(cid, info, status)
    {
      this.cid, this.status, this.due := cid, status, None;
      this.info := NewInfo(info.dst, info.srcPort, info.bufAlloc);
      ring := new RingBuffer(info.bufAlloc);
      me := NewEnd(cid, info, status);
    }

    /** `poll` of a packet. */
    method Poll(packet: seq<byte>, listening: bool, ghost forwarded: nat) returns (r: Result<Option<Event>, Error>)
      requires Valid() && due.None?
      modifies this, ring, ring.buffer
      ensures var answer := Receive(old(me), packet, forwarded, listening);
              && (answer.Ok? ==> Valid() && me == answer.value.0 && r == Ok(answer.value.1))
              && (answer.Err? ==> r == Err(answer.error))
      ensures ring == old(ring) || (fresh(ring) && fresh(ring.buffer))
    {
      var incoming := Incoming(Some(packet));
      if incoming.Err? {
        return Err(incoming.error);
      }
      var (event, body) := incoming.value.value;
      var listed := status.Open? || status.Marked?;
      if !MatchesConnection(event, info, cid) || (!listed && !event.kind.ConnectionRequest?) {
        return Ok(None);
      }
      if !listed {
        me := Born(me);
        info, status := NewInfo(info.dst, info.srcPort, info.bufAlloc), Open;
        ring := new RingBuffer(info.bufAlloc);
      }
      me := Heard(me, event, forwarded);
      info := UpdateForEvent(info, event);
      r := React(event, body, listening);
    }

    /** The event for a connection in the list. */
    method React(event: Event, body: seq<byte>, listening: bool) returns (r: Result<Option<Event>, Error>)
      requires Valid()
      modifies this`status, this`due, this`me, ring, ring.buffer
      ensures var answer := Handle(old(me), event, body, listening);
              && (answer.Ok? ==> Valid() && me == answer.value.0 && r == Ok(answer.value.1))
              && (answer.Err? ==> r == Err(answer.error))
    {
      ghost var answer := Handle(me, event, body, listening);
      r := Ok(Some(event));
      match event.kind {
        case Received(length) =>
          if ring.buffer.Length == 0 && body == [] {
            return Err(Panicked);
          }
          var added := ring.Add(body);
          if !added {
            return Err(Socket(OutputBufferTooShort(length)));
          }
        case ConnectionRequest =>
          if listening {
            due := Some(OP_RESPONSE);
          } else {
            status, due, r := Closed, Some(OP_RST), Ok(None);
          }
        case Disconnected(reason) =>
          var empty := ring.IsEmpty();
          if empty {
            status, due := Closed, if reason.Shutdown? then Some(OP_RST) else None;
          } else {
            status := Marked;
          }
        case CreditRequest => due, r := Some(OP_CREDIT_UPDATE), Ok(None);
        case Connected =>
        case CreditUpdate =>
      }
      me := answer.value.0;
    }

    /** `recv` into the client's buffer. */
    method Drain(out: array<byte>) returns (r: Result<nat, Error>)
      requires Valid() && out != ring.buffer && due.None?
      modifies this, ring, out
      ensures var answer := Recv(old(me), out.Length);
              && (answer.Ok? ==>
                    && Valid() && me == answer.value.0 && r == Ok(|answer.value.1|) && |answer.value.1| <= out.Length
                    && out[..|answer.value.1|] == answer.value.1)
              && (answer.Err? ==> r == Err(answer.error))
      ensures ring == old(ring)
    {
      if !(status.Open? || status.Marked?) {
        return Err(Socket(NotConnected));
      }
      if ring.buffer.Length == 0 {
        return Err(Panicked);
      }
      ghost var answer := Recv(me, out.Length);
      var n := ring.Drain(out);
      info := DoneForwarding(info, n);
      var empty := ring.IsEmpty();
      if status.Marked? && empty {
        status, due := Closed, Some(OP_RST);
      }
      me := answer.value.0;
      return Ok(n);
    }
  }
}
