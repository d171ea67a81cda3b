/** The vsock connection manager: a list of connections that stands for a map from (peer, local port)
    to connection. */
module ConnectionManager {
  import opened Wrappers
  import opened Words
  import opened VsockPacket
  import opened ConnectionInfo

  datatype Key = Key(peer: Addr, port: nat)

  /** One connection; `id` is the identity of its shared pointer and `contents` what its ring buffer
      holds. `received` and `delivered` are history: the data stored in the buffer and read from it. */
  datatype Connection = Connection(
    id: nat, info: Info, contents: seq<byte>, peerRequestedShutdown: bool,
    received: seq<byte>, delivered: seq<byte>)

  function KeyOf(c: Connection): (k: Key) {
    Key(c.info.dst, c.info.srcPort)
  }

  function NewConnection(k: Key, capacity: nat, id: nat): (c: Connection) {
    Connection(id, NewInfo(k.peer, k.port, capacity), [], false, [], [])
  }

  // ---------------------------------------------------------------------------------------
  // The list and the map it stands for

  /** `get_connection`: the first connection from `i` on with the given peer and local port. */
  function Find(cs: seq<Connection>, k: Key, i: nat := 0): (r: Option<nat>)
    requires i <= |cs|
    ensures r.Some? ==> i <= r.value < |cs| && KeyOf(cs[r.value]) == k
    ensures r.None? ==> forall j :: i <= j < |cs| ==> KeyOf(cs[j]) != k
    decreases |cs| - i
  {
    if i == |cs| then None else if KeyOf(cs[i]) == k then Some(i) else Find(cs, k, i + 1)
  }

  /** `get_connection_for_event`. */
  function FindForEvent(cs: seq<Connection>, event: Event, localCid: nat, i: nat := 0): (r: Option<nat>)
    requires i <= |cs|
    ensures r == if event.destination.cid == localCid then Find(cs, KeyOfEvent(event), i) else None
    decreases |cs| - i
  {
    if i == |cs| then None
    else if MatchesConnection(event, cs[i].info, localCid) then Some(i)
    else FindForEvent(cs, event, localCid, i + 1)
  }

  function KeyOfEvent(event: Event): (k: Key) {
    Key(event.source, event.destination.port)
  }

  /** `Vec::swap_remove`: the last element takes the place of the one removed. */
  function SwapRemove<T>(s: seq<T>, i: nat): (r: seq<T>)
    requires i < |s|
  {
    s[i := s[|s| - 1]][..|s| - 1]
  }

  /** `retain` with the identity test. */
  function Without(cs: seq<Connection>, id: nat): (r: seq<Connection>) {
    if cs == [] then []
    else
      var last := |cs| - 1;
      if cs[last].id == id then Without(cs[..last], id) else Without(cs[..last], id) + [cs[last]]
  }

  /** Nothing is lost between storing and reading, and a connection that its peer has shut down is only
      kept while it has unread data. */
  ghost predicate ConnectionOk(c: Connection, capacity: nat, nextId: nat) {
    && c.info.bufAlloc == capacity && |c.contents| <= capacity && c.id < nextId
    && c.delivered + c.contents == c.received
    && (c.peerRequestedShutdown ==> c.contents != [])
  }

  /** All the data that was stored for the connection was read from it. */
  ghost predicate Complete(c: Connection) {
    c.delivered == c.received
  }

  /** At most one connection per peer and local port. */
  ghost predicate Unique(cs: seq<Connection>) {
    forall i, j :: 0 <= i < j < |cs| ==> KeyOf(cs[i]) != KeyOf(cs[j]) && cs[i].id != cs[j].id
  }

  ghost predicate HasAt(cs: seq<Connection>, k: Key, i: nat) {
    i < |cs| && KeyOf(cs[i]) == k
  }

  ghost predicate Mapped(cs: seq<Connection>, v: map<Key, Connection>, i: nat)
    requires i < |cs|
  {
    KeyOf(cs[i]) in v && v[KeyOf(cs[i])] == cs[i]
  }

  /** The list holds exactly the connections of the map. */
  ghost predicate Stands(cs: seq<Connection>, v: map<Key, Connection>) {
    && Unique(cs)
    && (forall i :: 0 <= i < |cs| ==> Mapped(cs, v, i))
    && (forall k :: k in v ==> exists i :: HasAt(cs, k, i))
  }

  /** Looking up the list is looking up the map. */
  lemma StandsFind(cs: seq<Connection>, v: map<Key, Connection>, k: Key)
    requires Stands(cs, v)
    ensures k in v <==> Find(cs, k).Some?
    ensures k in v ==> Mapped(cs, v, Find(cs, k).value)
  {
    if k in v {
      var i :| HasAt(cs, k, i);
    }
    if Find(cs, k).Some? {
      assert Mapped(cs, v, Find(cs, k).value);
    }
  }

  lemma StandsPush(cs: seq<Connection>, v: map<Key, Connection>, c: Connection)
    requires Stands(cs, v) && KeyOf(c) !in v && forall i :: 0 <= i < |cs| ==> cs[i].id != c.id
    ensures Stands(cs + [c], v[KeyOf(c) := c])
  {
    var cs', v' := cs + [c], v[KeyOf(c) := c];
    forall i | 0 <= i < |cs'|
      ensures Mapped(cs', v', i)
    {
      if i < |cs| {
        assert Mapped(cs, v, i);
      }
    }
    forall i, j | 0 <= i < j < |cs'|
      ensures KeyOf(cs'[i]) != KeyOf(cs'[j]) && cs'[i].id != cs'[j].id
    {
      assert Mapped(cs, v, i);
    }
    forall k | k in v'
      ensures exists i :: HasAt(cs', k, i)
    {
      if k == KeyOf(c) {
        assert HasAt(cs', k, |cs|);
      } else {
        var i :| HasAt(cs, k, i);
        assert HasAt(cs', k, i);
      }
    }
  }

  lemma StandsSet(cs: seq<Connection>, v: map<Key, Connection>, at: nat, c: Connection)
    requires Stands(cs, v) && at < |cs| && KeyOf(c) == KeyOf(cs[at]) && c.id == cs[at].id
    ensures Stands(cs[at := c], v[KeyOf(c) := c])
  {
    var cs', v' := cs[at := c], v[KeyOf(c) := c];
    forall i | 0 <= i < |cs'|
      ensures Mapped(cs', v', i)
    {
      assert Mapped(cs, v, i);
    }
    forall k | k in v'
      ensures exists i :: HasAt(cs', k, i)
    {
      assert Mapped(cs, v, at);
      var i :| HasAt(cs, k, i);
      assert HasAt(cs', k, i);
    }
  }

  /** Removing an element by moving the last one into its place removes it from the map. */
  lemma StandsSwapRemove(cs: seq<Connection>, v: map<Key, Connection>, at: nat)
    requires Stands(cs, v) && at < |cs|
    ensures Stands(SwapRemove(cs, at), v - {KeyOf(cs[at])})
  {
    var cs', v' := SwapRemove(cs, at), v - {KeyOf(cs[at])};
    var last := |cs| - 1;
    forall i | 0 <= i < |cs'|
      ensures Mapped(cs', v', i)
    {
      assert Mapped(cs, v, if i == at then last else i);
    }
    forall k | k in v'
      ensures exists i :: HasAt(cs', k, i)
    {
      var i :| HasAt(cs, k, i);
      assert HasAt(cs', k, if i == last then at else i);
    }
  }

  lemma StandsCut(cs: seq<Connection>, v: map<Key, Connection>, at: nat)
    requires Stands(cs, v) && at < |cs|
    ensures Stands(cs[..at] + cs[at + 1..], v - {KeyOf(cs[at])})
  {
    var cs', v' := cs[..at] + cs[at + 1..], v - {KeyOf(cs[at])};
    forall i | 0 <= i < |cs'|
      ensures Mapped(cs', v', i)
    {
      assert Mapped(cs, v, if i < at then i else i + 1);
    }
    forall k | k in v'
      ensures exists i :: HasAt(cs', k, i)
    {
      var i: nat :| HasAt(cs, k, i);
      var i' := if i < at then i else i - 1;
      assert cs'[i'] == cs[i];
      assert HasAt(cs', k, i');
    }
  }

  lemma {:induction false} WithoutNone(cs: seq<Connection>, id: nat)
    requires forall i :: 0 <= i < |cs| ==> cs[i].id != id
    ensures Without(cs, id) == cs
  {
    if cs != [] {
      WithoutNone(cs[..|cs| - 1], id);
    }
  }

  lemma {:induction false} WithoutOne(cs: seq<Connection>, at: nat)
    requires Unique(cs) && at < |cs|
    ensures Without(cs, cs[at].id) == cs[..at] + cs[at + 1..]
  {
    var last := |cs| - 1;
    if at == last {
      WithoutNone(cs[..last], cs[at].id);
    } else {
      WithoutOne(cs[..last], at);
      assert cs[..last][at + 1..] + [cs[last]] == cs[at + 1..];
    }
  }

  // ---------------------------------------------------------------------------------------
  // What an event does to the map

  /** What a packet says: nothing received, an error, or an event with its data. */
  function Incoming(packet: Option<seq<byte>>): (r: Result<Option<(Event, seq<byte>)>, Error>) {
    if packet.None? then Ok(None)
    else
      match ReadHeaderAndBody(packet.value)
      case Err(error) => Err(Socket(error))
      case Ok((header, body)) =>
        match FromHeader(header)
        case Err(error) => Err(Socket(error))
        case Ok(event) => Ok(Some((event, body)))
  }

  /** The connection of `k` is gone, with data that was not read. */
  ghost predicate Lost(v: map<Key, Connection>, v': map<Key, Connection>, k: Key) {
    k in v && v[k].contents != [] && k !in v'
  }

  /** The packet asks us for a connection that we have, with data unread, on a port on which nobody listens. */
  predicate Repeats(v: map<Key, Connection>, packet: Option<seq<byte>>, localCid: nat, listeningPorts: seq<nat>) {
    && Incoming(packet).Ok? && Incoming(packet).value.Some?
    && var event := Incoming(packet).value.value.0;
    && event.kind.ConnectionRequest? && event.destination.cid == localCid && event.destination.port !in listeningPorts
    && KeyOfEvent(event) in v && v[KeyOfEvent(event)].contents != []
  }

  /** The event is for a connection we have, or asks for one on our side. */
  predicate Concerns(v: map<Key, Connection>, event: Event, localCid: nat) {
    event.destination.cid == localCid && (KeyOfEvent(event) in v || event.kind.ConnectionRequest?)
  }

  /** The connection the event is about: a new one, if there is none. */
  function Subject(v: map<Key, Connection>, event: Event, capacity: nat, id: nat): (c: Connection) {
    var k := KeyOfEvent(event);
    if k in v then v[k] else NewConnection(k, capacity, id)
  }

  predicate HasRoomFor(c: Connection, body: seq<byte>) {
    |c.contents| + |body| <= c.info.bufAlloc
  }

  /** The connection after the callback: what the peer says about its buffer is noted, and data is
      stored if there is room for it. */
  function Updated(c: Connection, event: Event, body: seq<byte>): (c': Connection) {
    var c1 := c.(info := UpdateForEvent(c.info, event));
    if event.kind.Received? && HasRoomFor(c, body) then
      c1.(contents := c.contents + body, received := c.received + body)
    else c1
  }

  /** The data of the event cannot be stored. */
  predicate Refuses(c: Connection, event: Event, body: seq<byte>) {
    event.kind.Received? && (!HasRoomFor(c, body) || (c.info.bufAlloc == 0 && body == []))
  }

  /** The connection after its client has read as much as fits. */
  function Drained(c: Connection, room: nat): (c': Connection) {
    var n := Min(|c.contents|, room);
    c.(contents := c.contents[n..], delivered := c.delivered + c.contents[..n], info := DoneForwarding(c.info, n))
  }

  /** The event ends the connection at once. */
  predicate Ends(event: Event, c: Connection, listening: bool) {
    (event.kind.ConnectionRequest? && !listening) || (event.kind.Disconnected? && c.contents == [])
  }

  function AfterEvent(v: map<Key, Connection>, event: Event, c: Connection, listening: bool)
    : (v': map<Key, Connection>)
  {
    if Ends(event, c, listening) then v - {KeyOf(c)}
    else v[KeyOf(c) := if event.kind.Disconnected? then c.(peerRequestedShutdown := true) else c]
  }

  /** The operation code of the packet with which the event is answered. */
  function Answer(event: Event, c: Connection, listening: bool): (op: Option<nat>) {
    match event.kind
    case ConnectionRequest => Some(if listening then OP_RESPONSE else OP_RST)
    case Disconnected(reason) => if c.contents == [] && reason == Shutdown then Some(OP_RST) else None
    case CreditRequest => Some(OP_CREDIT_UPDATE)
    case _ => None
  }

  /** What a manager has to show: its connections, those that ended because the peer disconnected, and the
      packets handed to the queue. */
  datatype Records = Records(view: map<Key, Connection>, finished: seq<Connection>, outbox: seq<Header>)

  /** What `poll` does with an event that concerns us: `c` is its connection before. */
  ghost predicate Handled(s: Records, s': Records, event: Event, body: seq<byte>, c: Connection, listening: bool,
                          localCid: nat, sent: Result<(), Error>, r: Result<Option<Event>, Error>) {
    var c1 := Updated(c, event, body);
    if Refuses(c, event, body) then
      && s' == s.(view := s.view[KeyOf(c1) := c1])
      && r == Err(if HasRoomFor(c, body) then Panicked else Socket(OutputBufferTooShort(event.kind.length)))
    else
      var answer := Answer(event, c1, listening);
      && s'.view == AfterEvent(s.view, event, c1, listening)
      && s'.finished == s.finished + (if event.kind.Disconnected? && c1.contents == [] then [c1] else [])
      && s'.outbox == s.outbox
                      + (if answer.Some? && sent.Ok? then [NewHeader(c1.info, localCid, answer.value, 0)] else [])
      && r == if answer.Some? && sent.Err? then Err(sent.error)
              else if event.kind.CreditRequest? || (event.kind.ConnectionRequest? && !listening) then Ok(None)
              else Ok(Some(event))
  }

  /** A packet of the connection, without data and with this operation code, that tells of its buffer. */
  predicate IsPacket(h: Header, info: Info, localCid: nat, op: nat) {
    && h.srcCid == localCid && h.dstCid == info.dst.cid && h.srcPort == info.srcPort && h.dstPort == info.dst.port
    && h.len == 0 && h.socketType == 1 && h.op == op && h.flags == 0
    && h.bufAlloc == info.bufAlloc && h.fwdCnt == info.fwdCnt
  }

  /** The packets with which `poll` answers an event for connection `c`: a request for a connection is accepted or
      rejected, a shutdown that finds nothing unread is acknowledged, and a request for credit is answered with how much
      there is; nothing else is answered. */
  predicate RepliesTo(event: Event, c: Connection, listening: bool, localCid: nat, replies: seq<Header>) {
    match event.kind
    case ConnectionRequest =>
      |replies| == 1 && IsPacket(replies[0], c.info, localCid, if listening then OP_RESPONSE else OP_RST)
    case Disconnected(reason) =>
      if reason.Shutdown? && c.contents == [] then |replies| == 1 && IsPacket(replies[0], c.info, localCid, OP_RST)
      else replies == []
    case CreditRequest => |replies| == 1 && IsPacket(replies[0], c.info, localCid, OP_CREDIT_UPDATE)
    case _ => replies == []
  }

  lemma HandledReplies(s: Records, s': Records, event: Event, body: seq<byte>, c: Connection, listening: bool,
                       localCid: nat, sent: Result<(), Error>, r: Result<Option<Event>, Error>)
    requires Handled(s, s', event, body, c, listening, localCid, sent, r)
    ensures s.outbox <= s'.outbox && (sent.Err? ==> s'.outbox == s.outbox)
    ensures sent.Ok? ==> RepliesTo(event, c, listening, localCid, s'.outbox[|s.outbox|..])
  {
  }

  /** What `poll` makes of the connections: only that of the event changes. It is gone if a request for it was rejected,
      or if it was disconnected with nothing unread; otherwise it knows what the peer said of its buffer, keeps what is
      unread with the data of the event behind it, if there is room, and notes that it was disconnected. */
  ghost predicate Becomes(event: Event, body: seq<byte>, c: Connection, listening: bool, v: map<Key, Connection>,
                          v': map<Key, Connection>) {
    var k := KeyOfEvent(event);
    && (forall j :: j != k ==> SameAt(v, v', j))
    && (k !in v' <==> (event.kind.ConnectionRequest? && !listening) || (event.kind.Disconnected? && c.contents == []))
    && (k in v' ==>
          && v'[k].id == c.id
          && v'[k].info.peerBufAlloc == event.bufAlloc && v'[k].info.peerFwdCnt == event.fwdCnt
          && (v'[k].peerRequestedShutdown <==> c.peerRequestedShutdown || event.kind.Disconnected?)
          && v'[k].contents == c.contents + (if event.kind.Received? && HasRoomFor(c, body) then body else []))
  }

  ghost predicate SameAt(v: map<Key, Connection>, v': map<Key, Connection>, k: Key) {
    (k in v' <==> k in v) && (k in v ==> v'[k] == v[k])
  }

  lemma HandledBecomes(s: Records, s': Records, event: Event, body: seq<byte>, c: Connection, listening: bool,
                       localCid: nat, sent: Result<(), Error>, r: Result<Option<Event>, Error>)
    requires Handled(s, s', event, body, c, listening, localCid, sent, r) && KeyOf(c) == KeyOfEvent(event)
    ensures Becomes(event, body, c, listening, s.view, s'.view)
  {
  }

  // ---------------------------------------------------------------------------------------

  /** `nextId` counts the connections made so far; `outbox` are the packets handed to the queue;
      `finished` are the connections that ended because the peer disconnected. The argument `sent` of a
      method is the queue's answer to the packet that it sends, if it does. */
  class Manager {
    const localCid: nat
    const capacity: nat
    var connections: seq<Connection>
    var listeningPorts: seq<nat>
    var nextId: nat
    var outbox: seq<Header>
    ghost var view: map<Key, Connection>
    ghost var finished: seq<Connection>

    ghost function Shown(): (s: Records)
      reads this
    {
      Records(view, finished, outbox)
    }

    ghost predicate Valid()
      reads this
    {
      && Stands(connections, view)
      && (forall k :: k in view ==> ConnectionOk(view[k], capacity, nextId))
      && (forall i :: 0 <= i < |finished| ==> Complete(finished[i]))
    }

    constructor (localCid: nat, capacity: nat)
      ensures Valid() && this.localCid == localCid && this.capacity == capacity
      ensures view == map[] && listeningPorts == [] && outbox == [] && finished == [] && nextId == 0
    {
      this.localCid, this.capacity := localCid, capacity;
      connections, listeningPorts, nextId, outbox, view, finished := [], [], 0, [], map[], [];
    }

    method Transmit(c: Connection, op: nat, sent: Result<(), Error>)
      modifies this`outbox
      ensures outbox == old(outbox) + if sent.Ok? then [NewHeader(c.info, localCid, op, 0)] else []
    {
      if sent.Ok? {
        outbox := outbox + [NewHeader(c.info, localCid, op, 0)];
      }
    }

    method Push(c: Connection)
      requires Valid() && KeyOf(c) !in view && c.id == nextId && ConnectionOk(c, capacity, nextId + 1)
      modifies this`connections, this`nextId, this`view
      ensures Valid() && view == old(view)[KeyOf(c) := c] && nextId == old(nextId) + 1
      ensures connections == old(connections) + [c]
    {
      IdsBelow(connections, view, capacity, nextId);
      StandsPush(connections, view, c);
      connections := connections + [c];
      view := view[KeyOf(c) := c];
      nextId := nextId + 1;
    }

    /** The first half of `connect`, under the lock: registers the connection. */
    method BeginConnect(k: Key) returns (r: Result<Connection, Error>)
      requires Valid()
      modifies this`connections, this`view, this`nextId
      ensures Valid()
      ensures r.Err? <==> k in old(view)
      ensures r.Err? ==> r == Err(Socket(ConnectionExists)) && view == old(view)
      ensures r.Ok? ==> r.value == NewConnection(k, capacity, old(nextId)) && view == old(view)[k := r.value]
    {
      StandsFind(connections, view, k);
      if Find(connections, k).Some? {
        return Err(Socket(ConnectionExists));
      }
      var c := NewConnection(k, capacity, nextId);
      Push(c);
      return Ok(c);
    }

    /** The second half of `connect`, after the lock was given up and the list may have changed: asks the
        peer, and if that fails removes this very connection, if it is still there. */
    method FinishConnect(c: Connection, sent: Result<(), Error>) returns (r: Result<(), Error>)
      requires Valid()
      modifies this`connections, this`view, this`outbox
      ensures Valid() && r == sent
      ensures sent.Ok? ==> view == old(view) && outbox == old(outbox) + [NewHeader(c.info, localCid, OP_REQUEST, 0)]
      ensures sent.Err? ==>
                outbox == old(outbox) && view == map k | k in old(view) && old(view)[k].id != c.id :: old(view)[k]
    {
      Transmit(c, OP_REQUEST, sent);
      if sent.Err? {
        RetainOthers(connections, view, c.id);
        view := map k | k in view && view[k].id != c.id :: view[k];
        connections := Without(connections, c.id);
      }
      return sent;
    }

    method Replace(index: nat, c: Connection)
      requires Valid() && index < |connections| && KeyOf(c) == KeyOf(connections[index])
               && c.id == connections[index].id
      requires ConnectionOk(c, capacity, nextId)
      modifies this`connections, this`view
      ensures Valid() && view == old(view)[KeyOf(c) := c] && connections == old(connections)[index := c]
    {
      StandsSet(connections, view, index, c);
      connections := connections[index := c];
      view := view[KeyOf(c) := c];
    }

    method Remove(index: nat)
      requires Valid() && index < |connections|
      modifies this`connections, this`view
      ensures Valid() && view == old(view) - {KeyOf(old(connections)[index])}
    {
      StandsSwapRemove(connections, view, index);
      view := view - {KeyOf(connections[index])};
      connections := SwapRemove(connections, index);
    }

    /** The connection that an event is about; a request for a new one adds it to the list. */
    method Locate(event: Event) returns (index: Option<nat>)
      requires Valid()
      modifies this`connections, this`view, this`nextId
      ensures Valid()
      ensures index.None? <==> !Concerns(old(view), event, localCid)
      ensures index.None? ==> unchanged(this)
      ensures index.Some? ==>
                && index.value < |connections|
                && connections[index.value] == Subject(old(view), event, capacity, old(nextId))
                && view == old(view)[KeyOfEvent(event) := connections[index.value]]
    {
      var k := KeyOfEvent(event);
      StandsFind(connections, view, k);
      index := FindForEvent(connections, event, localCid);
      if index.Some? {
        assert Mapped(connections, view, index.value);
        assert view == view[k := connections[index.value]];
      } else if event.kind.ConnectionRequest? && event.destination.cid == localCid {
        index := Some(|connections|);
        Push(NewConnection(k, capacity, nextId));
      }
    }

    /** The callback of `poll`. Adding nothing to a buffer without capacity divides by zero. */
    method Callback(event: Event, body: seq<byte>) returns (r: Result<Option<Event>, Error>)
      requires Valid()
      modifies this`connections, this`view, this`nextId
      ensures Valid()
      ensures !Concerns(old(view), event, localCid) ==> r == Ok(None) && unchanged(this)
      ensures Concerns(old(view), event, localCid) ==>
                var c := Subject(old(view), event, capacity, old(nextId));
                && view == old(view)[KeyOfEvent(event) := Updated(c, event, body)]
                && r == if !event.kind.Received? then Ok(Some(event))
                        else if !HasRoomFor(c, body) then Err(Socket(OutputBufferTooShort(event.kind.length)))
                        else if capacity == 0 && body == [] then Err(Panicked)
                        else Ok(Some(event))
    {
      SubjectOk(connections, view, event, capacity, nextId);
      var index := Locate(event);
      if index.None? {
        return Ok(None);
      }
      var c := connections[index.value];
      assert Mapped(connections, view, index.value);
      UpdatedOk(c, event, body, capacity, nextId);
      Replace(index.value, Updated(c, event, body));
      if event.kind.Received? {
        if !HasRoomFor(c, body) {
          return Err(Socket(OutputBufferTooShort(event.kind.length)));
        }
        if capacity == 0 && body == [] {
          return Err(Panicked);
        }
      }
      return Ok(Some(event));
    }

    /** The rest of `poll` for an event that the callback let through. The connection is found again. */
    method React(event: Event, sent: Result<(), Error>) returns (r: Result<Option<Event>, Error>)
      requires Valid() && event.destination.cid == localCid && KeyOfEvent(event) in view
      modifies this`connections, this`view, this`outbox, this`finished
      ensures Valid()
      ensures var c, listening := old(view)[KeyOfEvent(event)], event.destination.port in listeningPorts;
              var answer := Answer(event, c, listening);
              && view == AfterEvent(old(view), event, c, listening)
              && finished == old(finished) + (if event.kind.Disconnected? && c.contents == [] then [c] else [])
              && outbox == old(outbox)
                           + (if answer.Some? && sent.Ok? then [NewHeader(c.info, localCid, answer.value, 0)] else [])
              && r == if answer.Some? && sent.Err? then Err(sent.error)
                      else if event.kind.CreditRequest? || (event.kind.ConnectionRequest? && !listening) then Ok(None)
                      else Ok(Some(event))
    {
      StandsFind(connections, view, KeyOfEvent(event));
      var found := FindForEvent(connections, event, localCid);
      assert found.Some?;
      var index := found.value;
      var c := connections[index];
      assert Mapped(connections, view, index);
      assert view[KeyOf(c) := c] == view;
      var answer: Option<nat> := None;
      var quiet := false;
      match event.kind {
        case ConnectionRequest =>
          if event.destination.port in listeningPorts {
            answer := Some(OP_RESPONSE);
          } else {
            Remove(index);
            answer, quiet := Some(OP_RST), true;
          }
        case Connected =>
        case Disconnected(reason) =>
          if c.contents == [] {
            Remove(index);
            finished := finished + [c];
            if reason == Shutdown {
              answer := Some(OP_RST);
            }
          } else {
            Replace(index, c.(peerRequestedShutdown := true));
          }
        case Received(_) =>
        case CreditRequest => answer, quiet := Some(OP_CREDIT_UPDATE), true;
        case CreditUpdate =>
      }
      if answer.Some? {
        Transmit(c, answer.value, sent);
        if sent.Err? {
          return Err(sent.error);
        }
      }
      return Ok(if quiet then None else Some(event));
    }

    /** `poll` for an event that was received. */
    method PollEvent(event: Event, body: seq<byte>, sent: Result<(), Error>) returns (r: Result<Option<Event>, Error>)
      requires Valid()
      modifies this`connections, this`view, this`nextId, this`outbox, this`finished
      ensures Valid()
      ensures !Concerns(old(view), event, localCid) ==> r == Ok(None) && unchanged(this)
      ensures Concerns(old(view), event, localCid) ==>
                var c := Subject(old(view), event, capacity, old(nextId));
                Handled(old(Shown()), Shown(), event, body, c, event.destination.port in listeningPorts, localCid,
                        sent, r)
    {
      SubjectOk(connections, view, event, capacity, nextId);
      var result := Callback(event, body);
      if result.Err? {
        return Err(result.error);
      }
      if result.value.None? {
        return Ok(None);
      }
      AfterEventAgain(old(view), event, view[KeyOfEvent(event)], event.destination.port in listeningPorts);
      r := React(event, sent);
    }

    /** `poll`. */
    method Poll(packet: Option<seq<byte>>, sent: Result<(), Error>) returns (r: Result<Option<Event>, Error>)
      requires Valid()
      modifies this`connections, this`view, this`nextId, this`outbox, this`finished
      ensures Valid()
      ensures Incoming(packet).Err? ==> r == Err(Incoming(packet).error) && unchanged(this)
      ensures Incoming(packet) == Ok(None) ==> r == Ok(None) && unchanged(this)
      ensures Incoming(packet).Ok? && Incoming(packet).value.Some? ==>
                var (event, body) := Incoming(packet).value.value;
                if !Concerns(old(view), event, localCid) then r == Ok(None) && unchanged(this)
                else
                  var c := Subject(old(view), event, capacity, old(nextId));
                  Handled(old(Shown()), Shown(), event, body, c, event.destination.port in listeningPorts, localCid,
                          sent, r)
      ensures old(outbox) <= outbox && (sent.Err? ==> outbox == old(outbox))
      ensures Incoming(packet).Ok? && Incoming(packet).value.Some? && sent.Ok? ==>
                var event, replies := Incoming(packet).value.value.0, outbox[|old(outbox)|..];
                if !Concerns(old(view), event, localCid) then replies == []
                else RepliesTo(event, Subject(old(view), event, capacity, old(nextId)),
                               event.destination.port in listeningPorts, localCid, replies)
      ensures Incoming(packet).Ok? && Incoming(packet).value.Some? ==>
                var (event, body) := Incoming(packet).value.value;
                if !Concerns(old(view), event, localCid) then view == old(view)
                else Becomes(event, body, Subject(old(view), event, capacity, old(nextId)),
                             event.destination.port in listeningPorts, old(view), view)
      ensures (exists k :: Lost(old(view), view, k)) <==> Repeats(old(view), packet, localCid, listeningPorts)
    {
      var incoming := Incoming(packet);
      if incoming.Err? {
        return Err(incoming.error);
      }
      if incoming.value.None? {
        return Ok(None);
      }
      var (event, body) := incoming.value.value;
      SubjectOk(connections, view, event, capacity, nextId);
      KeysOk(connections, view);
      ghost var c := Subject(view, event, capacity, nextId);
      r := PollEvent(event, body, sent);
      if Concerns(old(view), event, localCid) {
        DataLostIff(old(Shown()), Shown(), event, body, c, event.destination.port in listeningPorts, localCid, sent, r);
        HandledReplies(old(Shown()), Shown(), event, body, c, event.destination.port in listeningPorts, localCid, sent,
                       r);
        HandledBecomes(old(Shown()), Shown(), event, body, c, event.destination.port in listeningPorts, localCid, sent,
                       r);
      }
    }

    /** `recv`: the call that empties a connection whose peer has shut it down also removes it. If the reset
        cannot be sent then, the client gets the error and no length, although the bytes are in its buffer
        and count as delivered, and the connection is gone. */
    method Recv(k: Key, room: nat, sent: Result<(), Error>) returns (r: Result<seq<byte>, Error>)
      requires Valid()
      modifies this`connections, this`view, this`outbox, this`finished
      ensures Valid()
      ensures k !in old(view) ==> r == Err(Socket(NotConnected)) && unchanged(this)
      ensures k in old(view) && capacity == 0 ==> r == Err(Panicked)
      ensures k in old(view) && capacity > 0 ==>
                var c := old(view)[k];
                var c1, closes := Drained(c, room), c.peerRequestedShutdown && |c.contents| <= room;
                && view == (if closes then old(view) - {k} else old(view)[k := c1])
                && finished == old(finished) + (if closes then [c1] else [])
                && r == (if closes && sent.Err? then Err(sent.error) else Ok(c.contents[..Min(|c.contents|, room)]))
                && outbox == old(outbox)
                             + (if closes && sent.Ok? then [NewHeader(c1.info, localCid, OP_RST, 0)] else [])
    {
      StandsFind(connections, view, k);
      var found := Find(connections, k);
      if found.None? {
        return Err(Socket(NotConnected));
      }
      if capacity == 0 {
        return Err(Panicked);
      }
      var c := connections[found.value];
      assert Mapped(connections, view, found.value);
      DrainedOk(c, room, capacity, nextId);
      var c1 := Drained(c, room);
      if c1.peerRequestedShutdown && c1.contents == [] {
        Remove(found.value);
        finished := finished + [c1];
        Transmit(c1, OP_RST, sent);
        if sent.Err? {
          return Err(sent.error);
        }
      } else {
        Replace(found.value, c1);
      }
      return Ok(c.contents[..Min(|c.contents|, room)]);
    }

    /** `shutdown`: only asks the peer. */
    method ShutDown(k: Key, sent: Result<(), Error>) returns (r: Result<(), Error>)
      requires Valid()
      modifies this`outbox
      ensures Valid()
      ensures k !in view ==> r == Err(Socket(NotConnected)) && unchanged(this)
      ensures k in view ==>
                && r == sent
                && outbox == old(outbox)
                             + if sent.Ok? then [NewHeader(view[k].info, localCid, OP_SHUTDOWN, 0).(flags := 3)] else []
    {
      StandsFind(connections, view, k);
      var found := Find(connections, k);
      if found.None? {
        return Err(Socket(NotConnected));
      }
      if sent.Ok? {
        outbox := outbox + [NewHeader(connections[found.value].info, localCid, OP_SHUTDOWN, 0).(flags := 3)];
      }
      return sent;
    }

    /** `force_close`: removes the connection, unread data and all, even if the packet cannot be sent. */
    method ForceClose(k: Key, sent: Result<(), Error>) returns (r: Result<(), Error>)
      requires Valid()
      modifies this`connections, this`view, this`outbox
      ensures Valid()
      ensures k !in old(view) ==> r == Err(Socket(NotConnected)) && unchanged(this)
      ensures k in old(view) ==>
                && r == sent && view == old(view) - {k}
                && outbox == old(outbox) + if sent.Ok? then [NewHeader(old(view)[k].info, localCid, OP_RST, 0)] else []
    {
      StandsFind(connections, view, k);
      var found := Find(connections, k);
      if found.None? {
        return Err(Socket(NotConnected));
      }
      var c := connections[found.value];
      Remove(found.value);
      Transmit(c, OP_RST, sent);
      return sent;
    }
  }

  lemma DrainedOk(c: Connection, room: nat, capacity: nat, nextId: nat)
    requires ConnectionOk(c, capacity, nextId)
    ensures var c1 := Drained(c, room);
            && KeyOf(c1) == KeyOf(c) && c1.id == c.id
            && (c1.contents == [] <==> |c.contents| <= room)
            && (c1.peerRequestedShutdown && c1.contents == [] ==> Complete(c1))
            && (!(c1.peerRequestedShutdown && c1.contents == []) ==> ConnectionOk(c1, capacity, nextId))
  {
    var n := Min(|c.contents|, room);
    assert c.delivered + c.contents[..n] + c.contents[n..] == c.delivered + c.contents;
  }

  lemma UpdatedOk(c: Connection, event: Event, body: seq<byte>, capacity: nat, nextId: nat)
    requires ConnectionOk(c, capacity, nextId)
    ensures ConnectionOk(Updated(c, event, body), capacity, nextId)
    ensures KeyOf(Updated(c, event, body)) == KeyOf(c) && Updated(c, event, body).id == c.id
  {
    assert c.delivered + (c.contents + body) == c.delivered + c.contents + body;
  }

  lemma SubjectOk(cs: seq<Connection>, v: map<Key, Connection>, event: Event, capacity: nat, nextId: nat)
    requires Stands(cs, v) && forall k :: k in v ==> ConnectionOk(v[k], capacity, nextId)
    ensures var c := Subject(v, event, capacity, nextId);
            KeyOf(c) == KeyOfEvent(event) && c.info.bufAlloc == capacity
  {
    StandsFind(cs, v, KeyOfEvent(event));
  }

  lemma IdsBelow(cs: seq<Connection>, v: map<Key, Connection>, capacity: nat, nextId: nat)
    requires Stands(cs, v) && forall k :: k in v ==> ConnectionOk(v[k], capacity, nextId)
    ensures forall i :: 0 <= i < |cs| ==> cs[i].id < nextId
  {
    forall i | 0 <= i < |cs|
      ensures cs[i].id < nextId
    {
      assert Mapped(cs, v, i);
    }
  }

  /** `retain` by identity removes at most one connection. */
  lemma RetainOthers(cs: seq<Connection>, v: map<Key, Connection>, id: nat)
    requires Stands(cs, v)
    ensures Stands(Without(cs, id), map k | k in v && v[k].id != id :: v[k])
  {
    var v' := map k | k in v && v[k].id != id :: v[k];
    if at :| 0 <= at < |cs| && cs[at].id == id {
      WithoutOne(cs, at);
      StandsCut(cs, v, at);
      OnlyOne(cs, v, at);
    } else {
      WithoutNone(cs, id);
      forall k | k in v
        ensures v[k].id != id
      {
        var i: nat :| HasAt(cs, k, i);
        assert Mapped(cs, v, i);
      }
      assert v' == v;
    }
  }

  lemma OnlyOne(cs: seq<Connection>, v: map<Key, Connection>, at: nat)
    requires Stands(cs, v) && at < |cs|
    ensures (map k | k in v && v[k].id != cs[at].id :: v[k]) == v - {KeyOf(cs[at])}
  {
    assert Mapped(cs, v, at);
    forall k | k in v && k != KeyOf(cs[at])
      ensures v[k].id != cs[at].id
    {
      var i: nat :| HasAt(cs, k, i);
      assert Mapped(cs, v, i);
    }
  }

  // ---------------------------------------------------------------------------------------

  lemma AfterEventAgain(v: map<Key, Connection>, event: Event, c: Connection, listening: bool)
    ensures AfterEvent(v[KeyOf(c) := c], event, c, listening) == AfterEvent(v, event, c, listening)
  {
  }

  /** An event touches no connection but its own; a disconnection removes that one exactly if all its data
      was read, and otherwise leaves the data and marks it. */
  lemma DisconnectionWaits(v: map<Key, Connection>, event: Event, body: seq<byte>, capacity: nat, id: nat,
                           listening: bool)
    requires event.kind.Disconnected? && KeyOfEvent(event) in v && KeyOf(v[KeyOfEvent(event)]) == KeyOfEvent(event)
    ensures var k, c := KeyOfEvent(event), Updated(Subject(v, event, capacity, id), event, body);
            var v' := AfterEvent(v, event, c, listening);
            && (k in v' <==> v[k].contents != [])
            && (k in v' ==> v'[k].contents == v[k].contents && v'[k].peerRequestedShutdown)
            && (forall k' :: k' != k ==> (k' in v <==> k' in v') && (k' in v ==> v'[k'] == v[k']))
  {
  }

  /** An event that concerns us takes unread data away exactly if it is a connection request, for a connection
      that exists, on a port on which nobody listens. */
  lemma DataLostIff(s: Records, s': Records, event: Event, body: seq<byte>, c: Connection, listening: bool,
                    localCid: nat, sent: Result<(), Error>, r: Result<Option<Event>, Error>)
    requires Handled(s, s', event, body, c, listening, localCid, sent, r)
    requires KeyOf(c) == KeyOfEvent(event) && (KeyOfEvent(event) in s.view ==> c == s.view[KeyOfEvent(event)])
    ensures (exists k :: Lost(s.view, s'.view, k)) <==>
            && event.kind.ConnectionRequest? && !listening
            && KeyOfEvent(event) in s.view && s.view[KeyOfEvent(event)].contents != []
  {
    var k := KeyOfEvent(event);
    if event.kind.ConnectionRequest? && !listening && k in s.view && s.view[k].contents != [] {
      assert Lost(s.view, s'.view, k);
    }
  }

  lemma KeysOk(cs: seq<Connection>, v: map<Key, Connection>)
    requires Stands(cs, v)
    ensures forall k :: k in v ==> KeyOf(v[k]) == k
  {
    forall k | k in v
      ensures KeyOf(v[k]) == k
    {
      StandsFind(cs, v, k);
    }
  }

  function PacketFrom(peer: Addr, port: nat, localCid: nat, op: nat, body: seq<byte>): (b: seq<byte>) {
    EncodeHeader(Header(peer.cid, localCid, peer.port, port, |body|, SOCKET_STREAM, op, 0, 0, 0)) + body
  }

  lemma PacketDecodes(peer: Addr, port: nat, localCid: nat, op: nat, body: seq<byte>)
    requires peer.cid < Pow256(8) && localCid < Pow256(8) && peer.port < Pow256(4) && port < Pow256(4)
             && |body| < Pow256(4)
    requires op == OP_RW || (op == OP_REQUEST && body == [])
    ensures Incoming(Some(PacketFrom(peer, port, localCid, op, body))) ==
            Ok(Some((Event(peer, Addr(localCid, port), 0, 0,
                           if op == OP_RW then Received(|body|) else ConnectionRequest), body)))
  {
    assert Pow256(2) > 7;
    var h := Header(peer.cid, localCid, peer.port, port, |body|, SOCKET_STREAM, op, 0, 0, 0);
    PacketRoundTrip(h, body, []);
    assert EncodeHeader(h) + body + [] == EncodeHeader(h) + body;
  }

  /** A connection is made from this side. */
  method ConnectFromHere(localCid: nat, capacity: nat, k: Key) returns (m: Manager)
    ensures fresh(m) && m.Valid() && m.view == map[k := NewConnection(k, capacity, 0)] && m.finished == []
    ensures m.localCid == localCid && m.capacity == capacity && m.listeningPorts == []
  {
    m := new Manager(localCid, capacity);
    var begun := m.BeginConnect(k);
    var finished := m.FinishConnect(begun.value, Ok(()));
  }

  /** Data comes in. */
  method DataArrives(m: Manager, k: Key, data: seq<byte>)
    requires m.Valid() && k in m.view && m.view[k].contents == [] && m.view[k].delivered == []
    requires k.peer.cid < Pow256(8) && m.localCid < Pow256(8) && k.peer.port < Pow256(4) && k.port < Pow256(4)
    requires 0 < |data| <= m.capacity < Pow256(4)
    modifies m
    ensures m.Valid() && m.finished == old(m.finished) && m.listeningPorts == old(m.listeningPorts)
    ensures m.view.Keys == old(m.view).Keys && m.view[k].contents == data && m.view[k].delivered == []
  {
    KeysOk(m.connections, m.view);
    PacketDecodes(k.peer, k.port, m.localCid, OP_RW, data);
    var received := m.Poll(Some(PacketFrom(k.peer, k.port, m.localCid, OP_RW, data)), Ok(()));
  }

  /** A request for the same pair comes in. */
  method RequestArrives(m: Manager, k: Key)
    requires m.Valid() && k in m.view && k.port !in m.listeningPorts
    requires k.peer.cid < Pow256(8) && m.localCid < Pow256(8) && k.peer.port < Pow256(4) && k.port < Pow256(4)
    modifies m
    ensures m.Valid() && m.finished == old(m.finished) && m.view == old(m.view) - {k}
  {
    KeysOk(m.connections, m.view);
    PacketDecodes(k.peer, k.port, m.localCid, OP_REQUEST, []);
    var requested := m.Poll(Some(PacketFrom(k.peer, k.port, m.localCid, OP_REQUEST, [])), Ok(()));
  }

  /** How data is lost, from a new manager on: a connection is made from this side, data comes in, and a request
      for the same pair takes the connection away with the data unread. */
  method RequestDropsData(localCid: nat, capacity: nat, k: Key, data: seq<byte>)
    returns (m: Manager, ghost before: map<Key, Connection>)
    requires k.peer.cid < Pow256(8) && localCid < Pow256(8) && k.peer.port < Pow256(4) && k.port < Pow256(4)
    requires 0 < |data| <= capacity < Pow256(4)
    ensures fresh(m) && m.Valid() && m.view == map[] && m.finished == []
    ensures k in before && before[k].contents == data && before[k].delivered == []
  {
    m := ConnectFromHere(localCid, capacity, k);
    DataArrives(m, k, data);
    before := m.view;
    RequestArrives(m, k);
  }
}
