/** The vsock packet format: a 44-byte little-endian header followed by the body. */
module VsockPacket {
  import opened Wrappers

  datatype Header = Header(
    srcCid: nat, dstCid: nat, srcPort: nat, dstPort: nat, len: nat,
    socketType: nat, op: nat, flags: nat, bufAlloc: nat, fwdCnt: nat)

  const HEADER_SIZE: nat := 44

  function Pow256(n: nat): (p: nat)
    ensures p >= 1
  {
    if n == 0 then 1 else 256 * Pow256(n - 1)
  }

  /** Every field fits its width. */
  predicate InRange(h: Header) {
    && h.srcCid < Pow256(8) && h.dstCid < Pow256(8)
    && h.srcPort < Pow256(4) && h.dstPort < Pow256(4) && h.len < Pow256(4)
    && h.socketType < Pow256(2) && h.op < Pow256(2)
    && h.flags < Pow256(4) && h.bufAlloc < Pow256(4) && h.fwdCnt < Pow256(4)
  }

  function ToLe(n: nat, width: nat): (b: seq<byte>)
    ensures |b| == width
  {
    if width == 0 then [] else [n % 256] + ToLe(n / 256, width - 1)
  }

  function FromLe(b: seq<byte>): (n: nat) {
    if b == [] then 0 else b[0] + 256 * FromLe(b[1..])
  }

  function EncodeHeader(h: Header): (b: seq<byte>)
    ensures |b| == HEADER_SIZE
  {
    ToLe(h.srcCid, 8) + ToLe(h.dstCid, 8) + ToLe(h.srcPort, 4) + ToLe(h.dstPort, 4) + ToLe(h.len, 4)
    + ToLe(h.socketType, 2) + ToLe(h.op, 2) + ToLe(h.flags, 4) + ToLe(h.bufAlloc, 4) + ToLe(h.fwdCnt, 4)
  }

  function DecodeHeader(b: seq<byte>): (h: Header)
    requires |b| >= HEADER_SIZE
  {
    Header(FromLe(b[..8]), FromLe(b[8..16]), FromLe(b[16..20]), FromLe(b[20..24]), FromLe(b[24..28]),
           FromLe(b[28..30]), FromLe(b[30..32]), FromLe(b[32..36]), FromLe(b[36..40]), FromLe(b[40..44]))
  }

  /** `read_header_and_body`. */
  function ReadHeaderAndBody(buffer: seq<byte>): (r: Result<(Header, seq<byte>), SocketError>)
  {
    if |buffer| < HEADER_SIZE then Err(BufferTooShort)
    else
      var header := DecodeHeader(buffer);
      var dataEnd := HEADER_SIZE + header.len;
      if dataEnd > |buffer| then Err(BufferTooShort) else Ok((header, buffer[HEADER_SIZE..dataEnd]))
  }

  // ---------------------------------------------------------------------------------------

  lemma {:induction false} LeRoundTrip(n: nat, width: nat)
    requires n < Pow256(width)
    ensures FromLe(ToLe(n, width)) == n
  {
    if width > 0 {
      LeRoundTrip(n / 256, width - 1);
      assert ToLe(n, width)[1..] == ToLe(n / 256, width - 1);
    }
  }

  lemma {:induction false} LeInverse(b: seq<byte>)
    ensures FromLe(b) < Pow256(|b|) && ToLe(FromLe(b), |b|) == b
  {
    if b != [] {
      LeInverse(b[1..]);
      assert FromLe(b) % 256 == b[0] && FromLe(b) / 256 == FromLe(b[1..]);
      assert b == [b[0]] + b[1..];
    }
  }

  lemma DivideTwice(n: nat, p: nat)
    requires p > 0
    ensures n / 256 / p == n / (256 * p)
  {
    var q := n / 256 / p;
    var rest := n - 256 * p * q;
    assert n == 256 * (n / 256) + n % 256 && n / 256 == p * q + n / 256 % p;
    assert rest == 256 * (n / 256 % p) + n % 256;
    assert 0 <= rest < 256 * p;
    assert n == q * (256 * p) + rest;
    Quotient(n, 256 * p, q, rest);
  }

  lemma Quotient(n: nat, d: nat, q: nat, rest: nat)
    requires d > 0 && n == q * d + rest && rest < d
    ensures n / d == q
  {
    var k := n / d;
    assert n == k * d + n % d;
    if k < q {
      TimesGrows(k + 1, q, d);
    } else if k > q {
      TimesGrows(q + 1, k, d);
    }
  }

  lemma TimesGrows(a: nat, b: nat, d: nat)
    requires a <= b
    ensures a * d <= b * d
  {
  }

  /** Little-endian: byte `k` is the one of weight 256 to the power `k`. */
  lemma {:induction false} LeByte(n: nat, width: nat, k: nat)
    requires k < width
    ensures ToLe(n, width)[k] == n / Pow256(k) % 256
  {
    if k > 0 {
      LeByte(n / 256, width - 1, k - 1);
      DivideTwice(n, Pow256(k - 1));
    }
  }

  /** `b` holds `n` in so many bytes from `at` on, the least significant byte first. */
  ghost predicate HoldsAt(b: seq<byte>, at: nat, n: nat, width: nat) {
    at + width <= |b| && forall k :: 0 <= k < width ==> b[at + k] == n / Pow256(k) % 256
  }

  lemma LeHeld(b: seq<byte>, at: nat, n: nat, width: nat)
    requires at + width <= |b| && b[at..at + width] == ToLe(n, width)
    ensures HoldsAt(b, at, n, width)
  {
    forall k | 0 <= k < width
      ensures b[at + k] == n / Pow256(k) % 256
    {
      LeByte(n, width, k);
      assert b[at + k] == b[at..at + width][k];
    }
  }

  /** Where each field is in the encoded header. */
  lemma EncodedBytes(h: Header)
    ensures var b := EncodeHeader(h);
            && HoldsAt(b, 0, h.srcCid, 8) && HoldsAt(b, 8, h.dstCid, 8)
            && HoldsAt(b, 16, h.srcPort, 4) && HoldsAt(b, 20, h.dstPort, 4) && HoldsAt(b, 24, h.len, 4)
            && HoldsAt(b, 28, h.socketType, 2) && HoldsAt(b, 30, h.op, 2)
            && HoldsAt(b, 32, h.flags, 4) && HoldsAt(b, 36, h.bufAlloc, 4) && HoldsAt(b, 40, h.fwdCnt, 4)
  {
    var b := EncodeHeader(h);
    EncodedFields(h, []);
    assert b + [] == b;
    LeHeld(b, 0, h.srcCid, 8);
    LeHeld(b, 8, h.dstCid, 8);
    LeHeld(b, 16, h.srcPort, 4);
    LeHeld(b, 20, h.dstPort, 4);
    LeHeld(b, 24, h.len, 4);
    LeHeld(b, 28, h.socketType, 2);
    LeHeld(b, 30, h.op, 2);
    LeHeld(b, 32, h.flags, 4);
    LeHeld(b, 36, h.bufAlloc, 4);
    LeHeld(b, 40, h.fwdCnt, 4);
  }

  lemma FourBytes(b: seq<byte>)
    requires |b| == 4
    ensures FromLe(b) == (b[0] as int) + 256 * (b[1] as int) + 65536 * (b[2] as int) + 16777216 * (b[3] as int)
  {
    assert FromLe(b[1..]) == (b[1] as int) + 256 * FromLe(b[2..]) by {
      assert b[1..][1..] == b[2..];
    }
    assert FromLe(b[2..]) == (b[2] as int) + 256 * FromLe(b[3..]) by {
      assert b[2..][1..] == b[3..];
    }
    assert FromLe(b[3..]) == b[3] as int by {
      assert b[3..][1..] == [];
    }
  }

  lemma EncodedFields(h: Header, rest: seq<byte>)
    ensures var b := EncodeHeader(h) + rest;
            && b[..8] == ToLe(h.srcCid, 8) && b[8..16] == ToLe(h.dstCid, 8)
            && b[16..20] == ToLe(h.srcPort, 4) && b[20..24] == ToLe(h.dstPort, 4) && b[24..28] == ToLe(h.len, 4)
            && b[28..30] == ToLe(h.socketType, 2) && b[30..32] == ToLe(h.op, 2)
            && b[32..36] == ToLe(h.flags, 4) && b[36..40] == ToLe(h.bufAlloc, 4) && b[40..44] == ToLe(h.fwdCnt, 4)
  {
  }

  lemma HeaderRoundTrip(h: Header, rest: seq<byte>)
    requires InRange(h)
    ensures DecodeHeader(EncodeHeader(h) + rest) == h
  {
    EncodedFields(h, rest);
    LeRoundTrip(h.srcCid, 8);
    LeRoundTrip(h.dstCid, 8);
    LeRoundTrip(h.srcPort, 4);
    LeRoundTrip(h.dstPort, 4);
    LeRoundTrip(h.len, 4);
    LeRoundTrip(h.socketType, 2);
    LeRoundTrip(h.op, 2);
    LeRoundTrip(h.flags, 4);
    LeRoundTrip(h.bufAlloc, 4);
    LeRoundTrip(h.fwdCnt, 4);
  }

  /** Decoding an encoded packet gives back the header and the body, whatever follows them. */
  lemma PacketRoundTrip(h: Header, body: seq<byte>, rest: seq<byte>)
    requires InRange(h) && h.len == |body|
    ensures ReadHeaderAndBody(EncodeHeader(h) + body + rest) == Ok((h, body))
  {
    var buffer := EncodeHeader(h) + body + rest;
    assert buffer == EncodeHeader(h) + (body + rest);
    HeaderRoundTrip(h, body + rest);
  }

  /** Decoding succeeds exactly when the buffer holds a header and as many bytes after it as the
      header says; the packet is then a prefix of the buffer. */
  lemma DecodeExact(buffer: seq<byte>)
    ensures ReadHeaderAndBody(buffer).Ok? <==>
              && |buffer| >= 44
              && |buffer| >= 44 + (buffer[24] as int) + 256 * (buffer[25] as int) + 65536 * (buffer[26] as int)
                             + 16777216 * (buffer[27] as int)
    ensures ReadHeaderAndBody(buffer).Err? ==> ReadHeaderAndBody(buffer) == Err(BufferTooShort)
    ensures ReadHeaderAndBody(buffer).Ok? ==>
              var (h, body) := ReadHeaderAndBody(buffer).value;
              InRange(h) && h.len == |body| && EncodeHeader(h) + body <= buffer
  {
    if |buffer| >= HEADER_SIZE {
      HeaderInverse(buffer);
      FourBytes(buffer[24..28]);
    }
  }

  lemma HeaderInverse(b: seq<byte>)
    requires |b| >= HEADER_SIZE
    ensures InRange(DecodeHeader(b)) && EncodeHeader(DecodeHeader(b)) == b[..HEADER_SIZE]
  {
    LeInverse(b[..8]);
    LeInverse(b[8..16]);
    LeInverse(b[16..20]);
    LeInverse(b[20..24]);
    LeInverse(b[24..28]);
    LeInverse(b[28..30]);
    LeInverse(b[30..32]);
    LeInverse(b[32..36]);
    LeInverse(b[36..40]);
    LeInverse(b[40..44]);
    FieldsJoin(b);
  }

  lemma FieldsJoin(b: seq<byte>)
    requires |b| >= HEADER_SIZE
    ensures b[..8] + b[8..16] + b[16..20] + b[20..24] + b[24..28] + b[28..30] + b[30..32] + b[32..36] + b[36..40]
            + b[40..44]
            == b[..HEADER_SIZE]
  {
    assert b[..8] + b[8..16] == b[..16];
    assert b[..16] + b[16..20] == b[..20];
    assert b[..20] + b[20..24] == b[..24];
    assert b[..24] + b[24..28] == b[..28];
    assert b[..28] + b[28..30] == b[..30];
    assert b[..30] + b[30..32] == b[..32];
    assert b[..32] + b[32..36] == b[..36];
    assert b[..36] + b[36..40] == b[..40];
  }

  // ---------------------------------------------------------------------------------------
  // Events

  datatype Addr = Addr(cid: nat, port: nat)

  datatype DisconnectReason = Reset | Shutdown

  datatype EventType =
    | ConnectionRequest
    | Connected
    | Disconnected(reason: DisconnectReason)
    | Received(length: nat)
    | CreditRequest
    | CreditUpdate

  datatype Event = Event(source: Addr, destination: Addr, bufAlloc: nat, fwdCnt: nat, kind: EventType)

  const OP_REQUEST: nat := 1
  const OP_RESPONSE: nat := 2
  const OP_RST: nat := 3
  const OP_SHUTDOWN: nat := 4
  const OP_RW: nat := 5
  const OP_CREDIT_UPDATE: nat := 6
  const OP_CREDIT_REQUEST: nat := 7

  /** The operation code that announces an event. */
  function OpOf(kind: EventType): (op: nat) {
    match kind
    case ConnectionRequest => OP_REQUEST
    case Connected => OP_RESPONSE
    case Disconnected(Reset) => OP_RST
    case Disconnected(Shutdown) => OP_SHUTDOWN
    case Received(_) => OP_RW
    case CreditUpdate => OP_CREDIT_UPDATE
    case CreditRequest => OP_CREDIT_REQUEST
  }

  /** `VsockEvent::from_header`. */
  function FromHeader(h: Header): (r: Result<Event, SocketError>) {
    var event := (kind: EventType) =>
      Event(Addr(h.srcCid, h.srcPort), Addr(h.dstCid, h.dstPort), h.bufAlloc, h.fwdCnt, kind);
    if h.op > OP_CREDIT_REQUEST then Err(UnknownOperation(h.op))
    else if h.op == 0 then Err(InvalidOperation)
    else if h.op == OP_RW then Ok(event(Received(h.len)))
    else if h.len != 0 then Err(UnexpectedDataInPacket)
    else if h.op == OP_REQUEST then Ok(event(ConnectionRequest))
    else if h.op == OP_RESPONSE then Ok(event(Connected))
    else if h.op == OP_CREDIT_UPDATE then Ok(event(CreditUpdate))
    else if h.op == OP_CREDIT_REQUEST then Ok(event(CreditRequest))
    else Ok(event(Disconnected(if h.op == OP_RST then Reset else Shutdown)))
  }

  /** An event is read from a header exactly when the header has that event's operation code and, unless it carries
      data, no body; it names both ends and tells of the sender's buffer. Each error has its own headers. */
  lemma FromHeaderExact(h: Header, kind: EventType)
    ensures var code := match kind
              case ConnectionRequest => 1
              case Connected => 2
              case Disconnected(Reset) => 3
              case Disconnected(Shutdown) => 4
              case Received(_) => 5
              case CreditUpdate => 6
              case CreditRequest => 7;
            var event := Event(Addr(h.srcCid, h.srcPort), Addr(h.dstCid, h.dstPort), h.bufAlloc, h.fwdCnt, kind);
            FromHeader(h) == Ok(event) <==> h.op == code && h.len == if kind.Received? then kind.length else 0
    ensures FromHeader(h) == Err(InvalidOperation) <==> h.op == 0
    ensures FromHeader(h) == Err(UnknownOperation(h.op)) <==> h.op > 7
    ensures FromHeader(h) == Err(UnexpectedDataInPacket) <==> 1 <= h.op <= 7 && h.op != 5 && h.len != 0
    ensures FromHeader(h).Ok? <==> 1 <= h.op <= 7 && (h.op != 5 ==> h.len == 0)
  {
  }
}
