/** The sound driver's blocking transfer: periods of a stream kept in flight through a window of
    parallel arrays. */
module PcmTransfer {
  import opened Wrappers
  import opened Words
  import opened Descriptors
  import opened DescriptorPool
  import opened RingMemory
  import opened VirtQueue

  const QUEUE_SIZE: nat := 32

  function StatusBuffer(slot: nat): (b: Buffer) {
    Buffer(slot, seq(8, _ => 0))
  }

  function StreamBuffer(streamId: seq<byte>): (b: Buffer) {
    Buffer(QUEUE_SIZE, streamId)
  }

  /** The bus addresses of the three buffers of a period, and of its table. */
  datatype Addresses = Addresses(addrs: seq<nat>, table: nat)

  type PeriodAddresses = a: Addresses | |a.addrs| == 3 witness Addresses([0, 0, 0], 0)

  /** The descriptors that one period takes: three, or one that points to a table of three. */
  function Cost(p: Pool): (n: nat) {
    if p.indirect then 1 else 3
  }

  // ---------------------------------------------------------------------------------------
  // The periods in flight: those from `popped` on of all that were queued

  /** Period `k` was queued under `toks[k]` with the buffers that slot `k` of the arrays names. */
  ghost predicate InFlightAt(p: Pool, toks: seq<nat>, sent: seq<Buffer>, streamId: seq<byte>, k: nat)
    requires k < |toks| == |sent|
  {
    && toks[k] in p.chains && toks[k] < p.size
    && |p.chains[toks[k]].descs| == Cost(p)
    && SameBuffers(p.chains[toks[k]].parts, [StreamBuffer(streamId), sent[k]],
                   [StatusBuffer(Slot(k, QUEUE_SIZE))])
  }

  ghost predicate InFlight(p: Pool, toks: seq<nat>, sent: seq<Buffer>, streamId: seq<byte>, popped: nat) {
    && popped <= |toks| == |sent|
    && NumUsed(p) == Cost(p) * (|toks| - popped)
    && (forall k :: popped <= k < |toks| ==> InFlightAt(p, toks, sent, streamId, k))
    && (forall j, k :: popped <= j < k < |toks| ==> toks[j] != toks[k])
  }

  /** The buffers of a period in flight: the stream that it belongs to and its frames, for the device to read, and eight
      bytes for the status, for it to write. */
  lemma PeriodParts(p: Pool, toks: seq<nat>, sent: seq<Buffer>, streamId: seq<byte>, popped: nat, k: nat)
    requires InFlight(p, toks, sent, streamId, popped) && popped <= k < |toks|
    ensures toks[k] in p.chains
    ensures var parts := p.chains[toks[k]].parts;
            && |parts| == 3 && parts[0].dir == parts[1].dir == DriverToDevice && parts[2].dir == DeviceToDriver
            && parts[0].buffer.bytes == streamId && parts[1].buffer == sent[k] && |parts[2].buffer.bytes| == 8
  {
    assert InFlightAt(p, toks, sent, streamId, k);
    var parts, inputs := p.chains[toks[k]].parts, [StreamBuffer(streamId), sent[k]];
    forall i | 0 <= i < 3
      ensures (parts[i].buffer, parts[i].dir) == BufferAt(inputs, [StatusBuffer(Slot(k, QUEUE_SIZE))], i)
    {
    }
  }

  /** The arrays hold the token and the period of everything in flight. */
  ghost predicate Recorded(tokens: seq<nat>, buffers: seq<Option<Buffer>>, toks: seq<nat>,
                           sent: seq<Buffer>, popped: nat) {
    && |tokens| == |buffers| == QUEUE_SIZE
    && popped <= |toks| == |sent| <= popped + QUEUE_SIZE
    && forall k :: popped <= k < |toks| ==> RecordedAt(tokens, buffers, toks, sent, k)
  }

  ghost predicate RecordedAt(tokens: seq<nat>, buffers: seq<Option<Buffer>>, toks: seq<nat>,
                             sent: seq<Buffer>, k: nat)
    requires |tokens| == |buffers| == QUEUE_SIZE && k < |toks| == |sent|
  {
    tokens[Slot(k, QUEUE_SIZE)] == toks[k] && buffers[Slot(k, QUEUE_SIZE)] == Some(sent[k])
  }

  /** The available ring holds the tokens of the periods that the device has not taken. */
  ghost predicate Offered(m: Memory, toks: seq<nat>, start: nat, done: nat) {
    && |m.avail| == QUEUE_SIZE && done <= |toks| <= done + QUEUE_SIZE
    && m.availIdx == (start + |toks|) % U16
    && forall k :: done <= k < |toks| ==> OfferedAt(m, toks, start, k)
  }

  ghost predicate OfferedAt(m: Memory, toks: seq<nat>, start: nat, k: nat)
    requires |m.avail| == QUEUE_SIZE && k < |toks|
  {
    m.avail[Slot(start + k, QUEUE_SIZE)] == toks[k]
  }

  /** The device has returned the periods before `done`, in the order in which they were queued. */
  ghost predicate Completed(m: Memory, statuses: seq<bool>, failing: set<nat>, toks: seq<nat>, base: nat,
                            popped: nat, done: nat) {
    && |m.used| == |statuses| == QUEUE_SIZE
    && popped <= done <= |toks| <= popped + QUEUE_SIZE
    && m.usedIdx == (base + done) % U16
    && forall k :: popped <= k < done ==> CompletedAt(m, statuses, failing, toks, base, k)
  }

  ghost predicate CompletedAt(m: Memory, statuses: seq<bool>, failing: set<nat>, toks: seq<nat>, base: nat, k: nat)
    requires |m.used| == |statuses| == QUEUE_SIZE && k < |toks|
  {
    && m.used[Slot(base + k, QUEUE_SIZE)].id == toks[k]
    && statuses[Slot(k, QUEUE_SIZE)] == (k !in failing)
  }

  // ---------------------------------------------------------------------------------------

  lemma {:induction false} NextSlot(c: nat, size: nat)
    requires size > 0
    ensures Slot(c + 1, size) == if Slot(c, size) + 1 >= size then 0 else Slot(c, size) + 1
  {
    if c >= size {
      NextSlot(c - size, size);
    }
  }

  lemma SameSlot(c: nat, d: nat)
    requires c <= d < c + QUEUE_SIZE && Slot(c, QUEUE_SIZE) == Slot(d, QUEUE_SIZE)
    ensures c == d
  {
    if c < d {
      SlotsDiffer(c, d, QUEUE_SIZE);
    }
  }

  /** When a period fits, fewer than a whole window of them are in flight. */
  lemma RoomMeansFewer(p: Pool, toks: seq<nat>, sent: seq<Buffer>, streamId: seq<byte>, popped: nat)
    requires InFlight(p, toks, sent, streamId, popped) && p.size == QUEUE_SIZE && !Full(p, 3)
    ensures |toks| < popped + QUEUE_SIZE
  {
  }

  lemma {:induction false} RecordNext(tokens: seq<nat>, buffers: seq<Option<Buffer>>, toks: seq<nat>,
                                      sent: seq<Buffer>, popped: nat, t: nat, period: Buffer)
    requires Recorded(tokens, buffers, toks, sent, popped) && |toks| < popped + QUEUE_SIZE
    ensures var s := Slot(|toks|, QUEUE_SIZE);
            Recorded(tokens[s := t], buffers[s := Some(period)], toks + [t], sent + [period], popped)
  {
    var s := Slot(|toks|, QUEUE_SIZE);
    var tokens', buffers', toks', sent' := tokens[s := t], buffers[s := Some(period)], toks + [t], sent + [period];
    forall k | popped <= k < |toks'|
      ensures RecordedAt(tokens', buffers', toks', sent', k)
    {
      if k < |toks| {
        assert RecordedAt(tokens, buffers, toks, sent, k);
        SlotsDiffer(k, |toks|, QUEUE_SIZE);
      }
    }
  }

  /** The chain of one period. */
  lemma PeriodChain(p: Pool, parts: seq<Part>, listAddr: nat)
    requires |parts| == 3 && !Full(p, 3)
    ensures var c := ChainFor(p, parts, listAddr);
            c.parts == parts && |c.descs| == Cost(p) <= |p.free| && NumUsed(Take(p, c)) == NumUsed(p) + Cost(p)
  {
    NeededFits(p, 3);
  }

  lemma {:induction false} QueueNext(p: Pool, toks: seq<nat>, sent: seq<Buffer>, streamId: seq<byte>, popped: nat,
                                     period: Buffer, c: Chain)
    requires InFlight(p, toks, sent, streamId, popped)
    requires |c.descs| == Cost(p) <= |p.free| && p.free[0] < p.size && p.free[0] !in p.chains
    requires SameBuffers(c.parts, [StreamBuffer(streamId), period], [StatusBuffer(Slot(|toks|, QUEUE_SIZE))])
    ensures InFlight(Take(p, c), toks + [p.free[0]], sent + [period], streamId, popped)
  {
    var p', toks', sent' := Take(p, c), toks + [p.free[0]], sent + [period];
    forall k | popped <= k < |toks'|
      ensures InFlightAt(p', toks', sent', streamId, k)
    {
      if k < |toks| {
        assert InFlightAt(p, toks, sent, streamId, k);
      }
    }
    forall j, k | popped <= j < k < |toks'|
      ensures toks'[j] != toks'[k]
    {
      assert InFlightAt(p, toks, sent, streamId, j);
    }
  }

  lemma {:induction false} PopNext(p: Pool, toks: seq<nat>, sent: seq<Buffer>, streamId: seq<byte>, popped: nat)
    requires InFlight(p, toks, sent, streamId, popped) && popped < |toks|
    ensures InFlightAt(p, toks, sent, streamId, popped)
    ensures InFlight(Give(p, toks[popped]), toks, sent, streamId, popped + 1)
  {
    assert InFlightAt(p, toks, sent, streamId, popped);
    forall k | popped + 1 <= k < |toks|
      ensures InFlightAt(Give(p, toks[popped]), toks, sent, streamId, k)
    {
      assert InFlightAt(p, toks, sent, streamId, k);
    }
  }

  lemma {:induction false} OfferNext(m: Memory, m': Memory, toks: seq<nat>, t: nat, start: nat, done: nat)
    requires Offered(m, toks, start, done) && |toks| < done + QUEUE_SIZE
    requires m'.avail == m.avail[Slot(start + |toks|, QUEUE_SIZE) := t] && m'.availIdx == (start + |toks| + 1) % U16
    ensures Offered(m', toks + [t], start, done)
  {
    forall k | done <= k < |toks| + 1
      ensures OfferedAt(m', toks + [t], start, k)
    {
      if k < |toks| {
        assert OfferedAt(m, toks, start, k);
        SlotsDiffer(start + k, start + |toks|, QUEUE_SIZE);
      }
    }
  }

  lemma {:induction false} StillOffered(m: Memory, m': Memory, toks: seq<nat>, start: nat, done: nat, done': nat)
    requires Offered(m, toks, start, done) && done <= done' <= |toks|
    requires m'.avail == m.avail && m'.availIdx == m.availIdx
    ensures Offered(m', toks, start, done')
  {
    forall k | done' <= k < |toks|
      ensures OfferedAt(m', toks, start, k)
    {
      assert OfferedAt(m, toks, start, k);
    }
  }

  lemma {:induction false} CompleteNext(m: Memory, statuses: seq<bool>, failing: set<nat>, toks: seq<nat>, base: nat,
                                        popped: nat, done: nat, len: nat)
    requires Completed(m, statuses, failing, toks, base, popped, done) && done < |toks|
    ensures var m' := m.(used := m.used[Slot(base + done, QUEUE_SIZE) := UsedElem(toks[done], len)],
                         usedIdx := (base + done + 1) % U16);
            Completed(m', statuses[Slot(done, QUEUE_SIZE) := done !in failing], failing, toks, base, popped, done + 1)
  {
    var m' := m.(used := m.used[Slot(base + done, QUEUE_SIZE) := UsedElem(toks[done], len)],
                 usedIdx := (base + done + 1) % U16);
    var statuses' := statuses[Slot(done, QUEUE_SIZE) := done !in failing];
    forall k | popped <= k < done + 1
      ensures CompletedAt(m', statuses', failing, toks, base, k)
    {
      if k < done {
        assert CompletedAt(m, statuses, failing, toks, base, k);
        SlotsDiffer(k, done, QUEUE_SIZE);
        SlotsDiffer(base + k, base + done, QUEUE_SIZE);
      }
    }
  }

  lemma {:induction false} StillCompleted(m: Memory, m': Memory, statuses: seq<bool>, failing: set<nat>,
                                          toks: seq<nat>, t: nat, base: nat, popped: nat, done: nat)
    requires Completed(m, statuses, failing, toks, base, popped, done) && |toks| < popped + QUEUE_SIZE
    requires m'.used == m.used && m'.usedIdx == m.usedIdx
    ensures Completed(m', statuses, failing, toks + [t], base, popped, done)
  {
    forall k | popped <= k < done
      ensures CompletedAt(m', statuses, failing, toks + [t], base, k)
    {
      assert CompletedAt(m, statuses, failing, toks, base, k);
    }
  }

  lemma {:induction false} OldestGone(m: Memory, m': Memory, statuses: seq<bool>, failing: set<nat>,
                                      toks: seq<nat>, base: nat, popped: nat, done: nat)
    requires Completed(m, statuses, failing, toks, base, popped, done) && popped < done
    requires m'.used == m.used && m'.usedIdx == m.usedIdx
    ensures Completed(m', statuses, failing, toks, base, popped + 1, done)
  {
    forall k | popped + 1 <= k < done
      ensures CompletedAt(m', statuses, failing, toks, base, k)
    {
      assert CompletedAt(m, statuses, failing, toks, base, k);
    }
  }

  /** `sent` are the periods of `frames` up to `rest`: each full, except that the last may be short. */
  ghost predicate Cuts(sent: seq<Buffer>, frames: seq<byte>, rest: seq<byte>, period: nat) {
    && Concat(BytesOf(sent)) + rest == frames
    && (forall i :: 0 <= i < |sent| ==> 0 < |sent[i].bytes| <= period)
    && (forall i :: 0 <= i < |sent| ==> |sent[i].bytes| == period || (i == |sent| - 1 && rest == []))
  }

  lemma CutNext(sent: seq<Buffer>, frames: seq<byte>, rest: seq<byte>, period: nat, b: Buffer)
    requires Cuts(sent, frames, rest, period) && rest != [] && period > 0
    requires b.bytes == if |rest| <= period then rest else rest[..period]
    ensures Cuts(sent + [b], frames, rest[|b.bytes|..], period)
  {
    var bytes := BytesOf(sent + [b]);
    assert bytes[..|sent|] == BytesOf(sent);
    assert rest == b.bytes + rest[|b.bytes|..];
  }

  /** The device answers the first `n` periods with success. */
  ghost predicate FineBefore(failing: set<nat>, n: nat) {
    forall k :: k in failing ==> k >= n
  }

  /** The device answers something in every round in which it can. */
  ghost predicate Steady(schedule: seq<nat>) {
    forall i :: 0 <= i < |schedule| ==> schedule[i] > 0
  }

  // ---------------------------------------------------------------------------------------

  /** The local variables of `pcm_xfer`, and the device beside them: it takes the tokens off the available ring,
      has answered the first `done` of them, and answers period `k` with failure exactly if `k` is in `failing`.
      The driver has queued `sent` under `toks` and popped the first `popped` of them. The two rings had been used
      `start` and `base` times before. */
  class Transfer {
    const queue: VirtQueue
    const streamId: seq<byte>
    const tokens: array<nat>
    const buffers: array<Option<Buffer>>
    const statuses: array<bool>
    const failing: set<nat>
    var head: nat
    var tail: nat
    var devAvail: nat
    ghost const start: nat
    ghost const base: nat
    ghost var toks: seq<nat>
    ghost var sent: seq<Buffer>
    ghost var popped: nat
    var done: nat

    ghost predicate Valid()
      reads this, tokens, buffers, statuses, queue, queue.mem
    {
      && queue.Valid() && queue.size == QUEUE_SIZE && |streamId| == 4
      && InFlight(queue.pool, toks, sent, streamId, popped)
      && Recorded(tokens[..], buffers[..], toks, sent, popped)
      && Completed(queue.mem.m, statuses[..], failing, toks, base, popped, done)
      && Offered(queue.mem.m, toks, start, done)
      && queue.lastUsedIdx == (base + popped) % U16
      && queue.availIdx == (start + |toks|) % U16 && devAvail == (start + done) % U16
      && head == Slot(|toks|, QUEUE_SIZE) && tail == Slot(popped, QUEUE_SIZE)
    }

    constructor (queue: VirtQueue, streamId: seq<byte>, failing: set<nat>)
      requires queue.Valid() && queue.size == QUEUE_SIZE && |streamId| == 4
      requires NumUsed(queue.pool) == 0 && queue.mem.m.usedIdx == queue.lastUsedIdx
      requires queue.mem.m.availIdx == queue.availIdx
      ensures Valid() && this.queue == queue && this.streamId == streamId && this.failing == failing
      ensures fresh(tokens) && fresh(buffers) && fresh(statuses)
      ensures sent == [] && popped == done == 0
    {
      this.queue, this.streamId, this.failing := queue, streamId, failing;
      tokens := new nat[QUEUE_SIZE](_ => 0);
      buffers := new Option<Buffer>[QUEUE_SIZE](_ => None);
      statuses := new bool[QUEUE_SIZE](_ => false);
      head, tail := 0, 0;
      devAvail, start, base := queue.availIdx, queue.availIdx, queue.lastUsedIdx;
      toks, sent, popped, done := [], [], 0, 0;
    }

    /** Adds one period to the queue, which has room for it. */
    method QueuePeriod(period: Buffer, addrs: seq<nat>, listAddr: nat)
      requires Valid() && BufferOk(period) && |addrs| == 3 && !Full(queue.pool, 3)
      modifies this`head, this`toks, this`sent, tokens, buffers, queue, queue.mem
      ensures Valid() && sent == old(sent) + [period] && |toks| == |old(toks)| + 1
      ensures toks[|old(toks)|] in queue.pool.chains
      ensures var parts := queue.pool.chains[toks[|old(toks)|]].parts;
              && |parts| == 3 && parts[0].dir == parts[1].dir == DriverToDevice && parts[2].dir == DeviceToDriver
              && parts[0].buffer.bytes == streamId && parts[1].buffer == period && |parts[2].buffer.bytes| == 8
    {
      RoomMeansFewer(queue.pool, toks, sent, streamId, popped);
      var token := AddPeriod(queue, streamId, period, head, addrs, listAddr, toks, sent, popped, start);
      StillCompleted(old(queue.mem.m), queue.mem.m, statuses[..], failing, toks, token, base, popped, done);
      OfferNext(old(queue.mem.m), queue.mem.m, toks, token, start, done);
      Record(token, period);
      PeriodParts(queue.pool, toks, sent, streamId, popped, |toks| - 1);
    }

    /** Notes the token and the buffer of a period that was just added. */
    method Record(token: nat, period: Buffer)
      requires Recorded(tokens[..], buffers[..], toks, sent, popped) && |toks| < popped + QUEUE_SIZE
      requires head == Slot(|toks|, QUEUE_SIZE)
      modifies this`head, this`toks, this`sent, tokens, buffers
      ensures toks == old(toks) + [token] && sent == old(sent) + [period]
      ensures Recorded(tokens[..], buffers[..], toks, sent, popped)
      ensures head == Slot(|toks|, QUEUE_SIZE)
    {
      RecordNext(tokens[..], buffers[..], toks, sent, popped, token, period);
      NextSlot(|toks|, QUEUE_SIZE);
      tokens[head] := token;
      buffers[head] := Some(period);
      assert tokens[..] == old(tokens[..])[head := token];
      assert buffers[..] == old(buffers[..])[head := Some(period)];
      toks := toks + [token];
      sent := sent + [period];
      head := head + 1;
      if head >= QUEUE_SIZE {
        head := 0;
      }
    }

    /** The device takes the next token off the available ring and answers it. */
    method Complete(len: nat)
      requires Valid() && done < |toks|
      modifies this`done, this`devAvail, statuses, queue.mem
      ensures Valid() && done == old(done) + 1
    {
      assert OfferedAt(queue.mem.m, toks, start, done);
      SlotOfCount(start + done, QUEUE_SIZE);
      Answer(queue.mem.m.avail[Slot(devAvail, QUEUE_SIZE)], len);
      StillOffered(old(queue.mem.m), queue.mem.m, toks, start, old(done), done);
      WrappedNext(start + old(done));
      devAvail := (devAvail + 1) % U16;
    }

    method Answer(token: nat, len: nat)
      requires Completed(queue.mem.m, statuses[..], failing, toks, base, popped, done) && done < |toks|
      requires token == toks[done]
      requires IsQueueSize(QUEUE_SIZE)
      modifies this`done, statuses, queue.mem
      ensures Completed(queue.mem.m, statuses[..], failing, toks, base, popped, done) && done == old(done) + 1
      ensures queue.mem.m.desc == old(queue.mem.m.desc) && queue.mem.m.avail == old(queue.mem.m.avail)
      ensures queue.mem.m.availIdx == old(queue.mem.m.availIdx)
    {
      CompleteNext(queue.mem.m, statuses[..], failing, toks, base, popped, done, len);
      var m := queue.mem.m;
      var at := Slot(m.usedIdx, QUEUE_SIZE);
      SlotOfCount(base + done, QUEUE_SIZE);
      WrappedNext(base + done);
      queue.mem.m := m.(used := m.used[at := UsedElem(token, len)], usedIdx := (m.usedIdx + 1) % U16);
      statuses[Slot(done, QUEUE_SIZE)] := done !in failing;
      assert statuses[..] == old(statuses[..])[Slot(done, QUEUE_SIZE) := done !in failing];
      done := done + 1;
    }

    /** Pops the oldest period in flight, which the device has answered, and returns its status. */
    method PopPeriod() returns (ok: bool)
      requires Valid() && popped < done
      modifies this`tail, this`popped, queue, queue.mem
      ensures Valid() && popped == old(popped) + 1 && (ok <==> old(popped) !in failing)
    {
      assert RecordedAt(tokens[..], buffers[..], toks, sent, popped);
      assert CompletedAt(queue.mem.m, statuses[..], failing, toks, base, popped);
      WrappedEqual(base + popped, base + done);
      TakeAnswered(queue, streamId, tokens[tail], buffers[tail].value, tail, toks, sent, base, popped);
      OldestGone(old(queue.mem.m), queue.mem.m, statuses[..], failing, toks, base, popped, done);
      StillOffered(old(queue.mem.m), queue.mem.m, toks, start, done, done);
      ok := statuses[tail];
      Advance();
    }

    method Advance()
      requires tail == Slot(popped, QUEUE_SIZE)
      modifies this`tail, this`popped
      ensures popped == old(popped) + 1 && tail == Slot(popped, QUEUE_SIZE)
    {
      NextSlot(popped, QUEUE_SIZE);
      popped := popped + 1;
      tail := tail + 1;
      if tail >= QUEUE_SIZE {
        tail := 0;
      }
    }

    /** Queues the next period of `rest` if there is room for one. Ends when nothing is left to queue and
        the window is empty. */
    method AddNext(frames: seq<byte>, rest: seq<byte>, period: nat, shared: PeriodAddresses)
      returns (ended: bool, rest': seq<byte>)
      requires Valid() && 0 < period < U32 && Cuts(sent, frames, rest, period)
      modifies this`head, this`toks, this`sent, tokens, buffers, queue, queue.mem
      ensures Valid() && Cuts(sent, frames, rest', period)
      ensures ended <==> popped == |sent|
      ensures ended ==> rest' == []
    {
      ended, rest' := false, rest;
      var room := queue.AvailableDesc();
      if room >= 3 {
        RoomMeansFewer(queue.pool, toks, sent, streamId, popped);
        if rest != [] {
          var bytes := if |rest| <= period then rest else rest[..period];
          var next := Buffer(QUEUE_SIZE + 1 + |frames| - |rest|, bytes);
          CutNext(sent, frames, rest, period, next);
          rest' := rest[|bytes|..];
          QueuePeriod(next, shared.addrs, shared.table);
        } else if head == tail {
          SameSlot(popped, |toks|);
          ended := true;
        }
      }
    }

    /** The device answers up to `count` periods. */
    method CompleteSome(count: nat)
      requires Valid()
      modifies this`done, this`devAvail, statuses, queue.mem
      ensures Valid() && done >= old(done) && (count > 0 && popped < |toks| ==> popped < done)
    {
      for i := 0 to count
        invariant Valid() && done >= old(done) && (i > 0 && popped < |toks| ==> popped < done)
      {
        WrappedEqual(start + done, start + |toks|);
        if devAvail != queue.mem.m.availIdx {
          Complete(0);
        }
      }
    }

    /** Pops a period if the device has returned one, and returns whether no failure was reported. */
    method PopAnswered() returns (ok: bool)
      requires Valid()
      modifies this`tail, this`popped, queue, queue.mem
      ensures Valid() && popped == old(popped) + if old(popped) < done then 1 else 0
      ensures ok <==> popped == old(popped) || old(popped) !in failing
    {
      ok := true;
      var canPop := queue.CanPop();
      WrappedEqual(base + popped, base + done);
      if canPop {
        ok := PopPeriod();
      }
    }

    /** Answers and pops what can be answered and popped in one round. */
    method AnswerAndPop(count: nat) returns (ok: bool)
      requires Valid() && FineBefore(failing, popped)
      modifies this`done, this`devAvail, this`tail, this`popped, statuses, queue, queue.mem
      ensures Valid() && old(popped) <= popped <= old(popped) + 1
      ensures ok ==> FineBefore(failing, popped)
      ensures !ok ==> 0 < popped && popped - 1 in failing && FineBefore(failing, popped - 1)
      ensures count > 0 && old(popped) < |sent| ==> popped == old(popped) + 1
    {
      CompleteSome(count);
      ok := PopAnswered();
    }

    /** One round of the loop: the result if the loop ends in it. */
    method Round(frames: seq<byte>, rest: seq<byte>, period: nat, count: nat, shared: PeriodAddresses)
      returns (r: Option<Result<(), Error>>, rest': seq<byte>)
      requires Valid() && 0 < period < U32 && Cuts(sent, frames, rest, period) && FineBefore(failing, popped)
      modifies this, tokens, buffers, statuses, queue, queue.mem
      ensures Valid() && Cuts(sent, frames, rest', period)
      ensures r.None? ==> FineBefore(failing, popped) && (count > 0 ==> popped == old(popped) + 1)
      ensures r.Some? ==> r.value in {Ok(()), Err(IoError)}
      ensures r == Some(Ok(())) ==> rest' == [] && popped == |sent| && FineBefore(failing, popped)
      ensures r == Some(Err(IoError)) ==> 0 < popped && popped - 1 in failing && FineBefore(failing, popped - 1)
    {
      var ended;
      ended, rest' := AddNext(frames, rest, period, shared);
      if ended {
        return Some(Ok(())), rest';
      }
      var ok := AnswerAndPop(count);
      r := if ok then None else Some(Err(IoError));
    }

    /** The loop of `pcm_xfer`. */
    method Rounds(frames: seq<byte>, period: nat, schedule: seq<nat>, hal: nat -> PeriodAddresses)
      returns (r: Result<(), Error>)
      requires Valid() && 0 < period < U32 && sent == [] && popped == 0
      modifies this, tokens, buffers, statuses, queue, queue.mem
      ensures Valid()
      ensures r.Err? ==> r.error in {IoError, Diverges}
      ensures r == Ok(()) ==> Cuts(sent, frames, [], period) && popped == |sent| && FineBefore(failing, popped)
      ensures r == Err(IoError) ==> 0 < popped && popped - 1 in failing && FineBefore(failing, popped - 1)
      ensures r == Err(Diverges) && Steady(schedule) ==> popped == |schedule|
    {
      var rest := frames;
      assert Cuts(sent, frames, rest, period) by {
        assert Concat(BytesOf(sent)) == [];
      }
      for round := 0 to |schedule|
        invariant Valid() && Cuts(sent, frames, rest, period) && FineBefore(failing, popped)
        invariant Steady(schedule) ==> popped == round
      {
        var ended;
        ended, rest := Round(frames, rest, period, schedule[round], hal(round));
        if ended.Some? {
          return ended.value;
        }
      }
      return Err(Diverges);
    }
  }

  method TakeAnswered(queue: VirtQueue, streamId: seq<byte>, token: nat, period: Buffer, slot: nat,
                      ghost toks: seq<nat>, ghost sent: seq<Buffer>, ghost base: nat, ghost popped: nat)
    requires queue.Valid() && queue.size == QUEUE_SIZE && InFlight(queue.pool, toks, sent, streamId, popped)
    requires popped < |toks| && token == toks[popped] && period == sent[popped] && slot == Slot(popped, QUEUE_SIZE)
    requires queue.lastUsedIdx == (base + popped) % U16 != queue.mem.m.usedIdx
    requires queue.mem.m.used[Slot(base + popped, QUEUE_SIZE)].id == token
    modifies queue, queue.mem
    ensures queue.Valid() && InFlight(queue.pool, toks, sent, streamId, popped + 1)
    ensures queue.lastUsedIdx == (base + popped + 1) % U16 && queue.availIdx == old(queue.availIdx)
    ensures queue.mem.m.used == old(queue.mem.m.used) && queue.mem.m.usedIdx == old(queue.mem.m.usedIdx)
    ensures queue.mem.m.avail == old(queue.mem.m.avail) && queue.mem.m.availIdx == old(queue.mem.m.availIdx)
  {
    PopNext(queue.pool, toks, sent, streamId, popped);
    SlotOfCount(base + popped, QUEUE_SIZE);
    WrappedNext(base + popped);
    assert InFlightAt(queue.pool, toks, sent, streamId, popped);
    assert queue.NextUsed() == Some(token);
    var len := queue.PopUsed(token, [StreamBuffer(streamId), period], [StatusBuffer(slot)]);
    assert len.Ok?;
  }

  method AddPeriod(queue: VirtQueue, streamId: seq<byte>, period: Buffer, slot: nat, addrs: seq<nat>, listAddr: nat,
                   ghost toks: seq<nat>, ghost sent: seq<Buffer>, ghost popped: nat, ghost start: nat)
    returns (token: nat)
    requires queue.Valid() && queue.size == QUEUE_SIZE && queue.availIdx == (start + |toks|) % U16
    requires |streamId| == 4 && BufferOk(period) && |addrs| == 3 && !Full(queue.pool, 3)
    requires InFlight(queue.pool, toks, sent, streamId, popped) && slot == Slot(|toks|, QUEUE_SIZE)
    modifies queue, queue.mem
    ensures queue.Valid() && InFlight(queue.pool, toks + [token], sent + [period], streamId, popped)
    ensures queue.lastUsedIdx == old(queue.lastUsedIdx) && queue.availIdx == (start + |toks| + 1) % U16
    ensures |old(queue.mem.m.avail)| == QUEUE_SIZE && queue.mem.m.availIdx == queue.availIdx
    ensures queue.mem.m.avail == old(queue.mem.m.avail)[Slot(start + |toks|, QUEUE_SIZE) := token]
    ensures queue.mem.m.used == old(queue.mem.m.used) && queue.mem.m.usedIdx == old(queue.mem.m.usedIdx)
  {
    ghost var parts := Parts([StreamBuffer(streamId), period], [StatusBuffer(slot)], addrs);
    PeriodChain(queue.pool, parts, listAddr);
    FreeHead(queue.pool);
    QueueNext(queue.pool, toks, sent, streamId, popped, period, ChainFor(queue.pool, parts, listAddr));
    SlotOfCount(start + |toks|, QUEUE_SIZE);
    WrappedNext(start + |toks|);
    var added := queue.Add([StreamBuffer(streamId), period], [StatusBuffer(slot)], addrs, listAddr);
    token := added.value;
  }

  // ---------------------------------------------------------------------------------------

  /** `pcm_xfer`. In each round the device answers up to `schedule[round]` periods; the transfer has not
      ended if the schedule does. Nothing else may be outstanding on the queue. `hal(round)` are the bus
      addresses that the HAL returns for a period queued in that round. */
  method PcmXfer(queue: VirtQueue, setUp: bool, streamId: seq<byte>, period: nat, frames: seq<byte>,
                 failing: set<nat>, schedule: seq<nat>, hal: nat -> PeriodAddresses)
    returns (r: Result<(), Error>, ghost sent: seq<Buffer>, ghost popped: nat)
    requires queue.Valid() && queue.size == 32 && |streamId| == 4 && period < U32
    requires NumUsed(queue.pool) == 0
    requires queue.mem.m.usedIdx == queue.lastUsedIdx && queue.mem.m.availIdx == queue.availIdx
    modifies queue, queue.mem
    ensures queue.Valid()
    ensures !setUp ==> r == Err(IoError)
    ensures setUp && period == 0 ==> r == Err(Panicked)
    ensures setUp && period > 0 && r.Err? ==> r.error in {IoError, Diverges}
    ensures r == Ok(()) ==>
              && Cuts(sent, frames, [], period) && popped == |sent| && NumUsed(queue.pool) == 0
              && FineBefore(failing, |sent|)
    ensures setUp && r == Err(IoError) ==>
              && 0 < popped <= |sent| && popped - 1 in failing
              && FineBefore(failing, popped - 1)
    ensures r == Err(Diverges) && Steady(schedule) ==> |schedule| <= |sent|
  {
    sent, popped := [], 0;
    if !setUp {
      return Err(IoError), sent, popped;
    }
    if period == 0 {
      return Err(Panicked), sent, popped;
    }
    var t := new Transfer(queue, streamId, failing);
    r := t.Rounds(frames, period, schedule, hal);
    sent, popped := t.sent, t.popped;
  }
}
