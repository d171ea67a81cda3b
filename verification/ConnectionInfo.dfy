/** The credit counters of a vsock connection (section 5.10.6.3 of VirtIO v1.1). */
module ConnectionInfo {
  import opened Words
  import opened VsockPacket

  datatype Info = Info(
    dst: Addr, srcPort: nat,
    peerBufAlloc: nat, peerFwdCnt: nat, txCnt: nat,
    bufAlloc: nat, fwdCnt: nat,
    pendingCredit: bool)

  const SOCKET_STREAM: nat := 1

  /** The fields fit their `u32` and `u64` types. */
  predicate InfoOk(info: Info) {
    && info.dst.cid < Pow256(8) && info.dst.port < Pow256(4) && info.srcPort < Pow256(4)
    && info.peerBufAlloc < U32 && info.peerFwdCnt < U32 && info.txCnt < U32
    && info.bufAlloc < U32 && info.fwdCnt < U32
  }

  function NewInfo(dst: Addr, srcPort: nat, bufAlloc: nat): (info: Info) {
    Info(dst, srcPort, 0, 0, 0, bufAlloc, 0, false)
  }

  function UpdateForEvent(info: Info, event: Event): (info': Info) {
    var info1 := info.(peerBufAlloc := event.bufAlloc, peerFwdCnt := event.fwdCnt);
    if event.kind.CreditUpdate? then info1.(pendingCredit := false) else info1
  }

  function DoneForwarding(info: Info, length: nat): (info': Info) {
    info.(fwdCnt := (info.fwdCnt + length % U32) % U32)
  }

  /** The room the peer has left, as far as we know. */
  function PeerFree(info: Info): (n: nat)
  {
    var outstanding := (info.txCnt - info.peerFwdCnt) % U32;
    if outstanding <= info.peerBufAlloc then info.peerBufAlloc - outstanding else 0
  }

  function Charge(info: Info, length: nat): (info': Info) {
    info.(txCnt := (info.txCnt + length % U32) % U32)
  }

  function NewHeader(info: Info, srcCid: nat, op: nat, len: nat): (h: Header) {
    Header(srcCid, info.dst.cid, info.srcPort, info.dst.port, len, SOCKET_STREAM, op, 0, info.bufAlloc, info.fwdCnt)
  }

  predicate MatchesConnection(event: Event, info: Info, localCid: nat) {
    && event.source == info.dst
    && event.destination.cid == localCid
    && event.destination.port == info.srcPort
  }

  // ---------------------------------------------------------------------------------------

  lemma WrappedAdd(t: nat, n: nat)
    ensures (t % U32 + n % U32) % U32 == (t + n) % U32
  {
  }

  /** Subtracting wrapped counters gives the true difference while it is less than 2^32. */
  lemma WrappedDifference(t: nat, f: nat)
    requires f <= t < f + U32
    ensures (t % U32 - f % U32) % U32 == t - f
  {
  }

  /** With counters that stand for unbounded counts, `peer_free` is the room left under the peer's
      allowance, however often they have wrapped. */
  lemma PeerFreeExact(info: Info, sent: nat, forwarded: nat)
    requires info.txCnt == sent % U32 && info.peerFwdCnt == forwarded % U32
    requires forwarded <= sent <= forwarded + info.peerBufAlloc && info.peerBufAlloc < U32
    ensures PeerFree(info) == forwarded + info.peerBufAlloc - sent
  {
    WrappedDifference(sent, forwarded);
  }
}
