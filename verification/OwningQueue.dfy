/** A queue that owns the buffers it lends to the device, one for each descriptor. */
module OwningQueue {
  import opened Wrappers
  import opened Words
  import opened Descriptors
  import opened DescriptorPool
  import opened VirtQueue
  import opened SingleBuffer

  /** Lends out the given buffers, one for each descriptor of an empty queue. */
  method LendAll(queue: VirtQueue, all: seq<Buffer>, addrs: seq<nat>)
    requires queue.Valid() && queue.pool == Fresh(queue.size, queue.indirect)
    requires |addrs| == |all| == queue.size && forall i :: 0 <= i < |all| ==> BufferOk(all[i])
    modifies queue, queue.mem
    ensures queue.Valid() && forall i :: 0 <= i < |all| ==> Lends(queue.pool, i, all[i])
  {
    for i := 0 to queue.size
      invariant queue.Valid()
      invariant |queue.pool.free| == queue.size - i
      invariant forall j :: 0 <= j < |queue.pool.free| ==> queue.pool.free[j] == i + j
      invariant forall j :: 0 <= j < i ==> Lends(queue.pool, j, all[j])
    {
      var token := Lend(queue, all[i], addrs[i]);
      assert token == Ok(i);
    }
  }

  class OwningQueue {
    const queue: VirtQueue
    const bufferSize: nat
    const buffers: seq<Buffer>

    /** All buffers are in flight, buffer `i` under token `i`. */
    ghost predicate Valid()
      reads this, queue, queue.mem
    {
      && queue.Valid()
      && |buffers| == queue.size && 0 < bufferSize < U32
      && (forall i :: 0 <= i < |buffers| ==> |buffers[i].bytes| == bufferSize)
      && (forall i :: 0 <= i < |buffers| ==> Lends(queue.pool, i, buffers[i]))
    }

    /** Fills an empty queue with zeroed buffers. `addrs` are the bus addresses the HAL returns. */
    constructor (queue: VirtQueue, bufferSize: nat, addrs: seq<nat>)
      requires queue.Valid() && queue.pool == Fresh(queue.size, queue.indirect)
      requires 0 < bufferSize < U32 && |addrs| == queue.size
      modifies queue, queue.mem
      ensures Valid() && this.queue == queue && this.bufferSize == bufferSize
    {
      this.queue := queue;
      this.bufferSize := bufferSize;
      var all := seq(queue.size, i requires 0 <= i => Buffer(i, seq(bufferSize, _ => 0)));
      this.buffers := all;
      LendAll(queue, all, addrs);
    }

    /** Passes the next returned buffer to the handler and lends it out again. `written` is what the
        buffer holds when it comes back and `addr` the bus address the HAL returns for it. A token
        that no buffer has and a length that exceeds the buffer stop the program. */
    method Poll<T>(handler: seq<byte> -> Result<Option<T>, Error>, written: seq<byte>, addr: nat)
      returns (r: Result<Option<T>, Error>)
      requires Valid() && |written| == bufferSize
      modifies queue, queue.mem
      ensures old(queue.NextUsed()).None? ==> r == Ok(None) && unchanged(queue, queue.mem)
      ensures old(queue.NextUsed()).Some? ==>
                var token := old(queue.NextUsed()).value;
                if token >= |buffers| || old(queue.UsedLen()) > bufferSize then r == Err(Panicked)
                else
                  && Valid() && r == handler(written[..old(queue.UsedLen())])
                  && queue.pool == old(queue.pool).(
                       chains := old(queue.pool).chains[token := LendChain(token, buffers[token], addr)])
    {
      var peeked := queue.PeekUsed();
      if peeked.None? {
        return Ok(None);
      }
      var token := peeked.value;
      if token >= |buffers| {
        return Err(Panicked);
      }
      assert Lends(queue.pool, token, buffers[token]);
      var len := TakeBack(queue, token, buffers[token]);
      assert len.Ok?;
      if len.value > bufferSize {
        return Err(Panicked);
      }
      r := handler(written[..len.value]);
      SameTokenAgain(old(queue.pool), token, buffers[token], addr);
      var newToken := Lend(queue, buffers[token], addr);
      // The new token is the old one, and the queue has room for it.
      assert newToken == Ok(token);
      forall i | 0 <= i < |buffers|
        ensures Lends(queue.pool, i, buffers[i])
      {
        assert Lends(old(queue.pool), i, buffers[i]);
      }
    }
  }
}
