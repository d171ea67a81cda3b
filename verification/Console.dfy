/** The receive side of the console driver: one page that is either with the device or being read. */
module Console {
  import opened Wrappers
  import opened Words
  import opened Descriptors
  import opened DescriptorPool
  import opened VirtQueue
  import opened SingleBuffer

  /** The page as the queue sees it. */
  function Page(): (b: Buffer) {
    Buffer(0, seq(PAGE_SIZE, _ => 0))
  }

  /** `completed` is everything the device has written and reported so far, `popped` everything that
      `recv` has handed out and removed. */
  class Console {
    const queue: VirtQueue
    const page: array<byte>
    var cursor: nat
    var pendingLen: nat
    var receiveToken: Option<nat>
    ghost var completed: seq<byte>
    ghost var popped: seq<byte>

    /** The bytes that the device has reported and `recv` has not removed. */
    ghost function Unread(): (s: seq<byte>)
      reads this, page
      requires page.Length == PAGE_SIZE && cursor <= Min(pendingLen, PAGE_SIZE)
    {
      page[cursor..Min(pendingLen, PAGE_SIZE)]
    }

    /** While the device has the page there is nothing left in it to read, and what was popped followed
        by what is left is what the device wrote. */
    ghost predicate Valid()
      reads this, page, queue, queue.mem
    {
      && queue.Valid() && queue.size == 2 && page.Length == PAGE_SIZE
      && cursor <= Min(pendingLen, PAGE_SIZE)
      && (receiveToken.Some? ==> cursor == pendingLen && Lends(queue.pool, receiveToken.value, Page()))
      && (forall h :: h in queue.pool.chains ==> receiveToken == Some(h))
      && popped + Unread() == completed
    }

    constructor (queue: VirtQueue)
      requires queue.Valid() && queue.size == 2 && queue.pool == Fresh(2, queue.indirect)
      ensures Valid() && fresh(page) && this.queue == queue
      ensures receiveToken.None? && cursor == pendingLen && completed == popped == []
    {
      this.queue := queue;
      page := new byte[PAGE_SIZE](_ => 0);
      cursor, pendingLen, receiveToken := 0, 0, None;
      completed, popped := [], [];
    }

    /** Lends the page to the device, unless it has it already or there is something left to read. The
        queue always has room for it. */
    method PollRetrieve(addr: nat) returns (r: Result<(), Error>)
      requires Valid()
      modifies this`receiveToken, queue, queue.mem
      ensures Valid() && r == Ok(())
      ensures receiveToken.Some? <==> cursor == pendingLen
      ensures old(receiveToken).Some? || cursor != pendingLen ==> unchanged(this, queue, queue.mem)
    {
      if receiveToken.None? && cursor == pendingLen {
        SomeFree(queue.pool);
        var token := Lend(queue, Page(), addr);
        assert token.Ok?;
        receiveToken := Some(token.value);
      }
      return Ok(());
    }

    /** The device has returned the page. */
    ghost predicate Returning()
      requires Valid()
      reads this, page, queue, queue.mem
    {
      receiveToken.Some? && queue.NextUsed() == receiveToken
    }

    /** If the device has returned the page, makes what it wrote readable; `written` is what the page
        holds at that moment. A reported length of zero stops the program. */
    method FinishReceive(written: seq<byte>) returns (r: Result<bool, Error>)
      requires Valid() && |written| == PAGE_SIZE
      modifies this, page, queue, queue.mem
      ensures !old(Returning()) ==> r == Ok(false) && unchanged(this, page, queue, queue.mem)
      ensures old(Returning()) && old(queue.UsedLen()) == 0 ==> r == Err(Panicked)
      ensures old(Returning()) && old(queue.UsedLen()) > 0 ==>
                && r == Ok(true) && receiveToken.None? && cursor == 0 && pendingLen == old(queue.UsedLen())
                && completed == old(completed) + written[..Min(pendingLen, PAGE_SIZE)]
      ensures r.Ok? ==> Valid() && popped == old(popped)
    {
      r := Ok(false);
      if receiveToken.Some? {
        var next := queue.PeekUsed();
        if receiveToken == next {
          var len := TakeBack(queue, receiveToken.value, Page());
          Overwrite(page, written);
          if len.value == 0 {
            return Err(Panicked);
          }
          r := Ok(true);
          cursor := 0;
          pendingLen := len.value;
          receiveToken := None;
          completed := completed + written[..Min(pendingLen, PAGE_SIZE)];
        }
      }
    }

    /** What `recv` does once a finished request is completed. Indexing past the page stops the program:
        the device has reported more bytes than the page has, and all of the page has been read. */
    method Next(pop: bool, addr: nat) returns (r: Result<Option<byte>, Error>)
      requires Valid()
      modifies this, queue, queue.mem
      ensures r.Err? ==> r == Err(Panicked)
      ensures r.Err? <==> old(cursor) == PAGE_SIZE < old(pendingLen)
      ensures Valid() && completed == old(completed)
      ensures r == Ok(None) <==> old(cursor) == old(pendingLen)
      ensures r == Ok(None) ==> popped == old(popped) == completed
      ensures r.Ok? && r.value.Some? ==> old(popped) + [r.value.value] <= completed
      ensures r.Ok? && r.value.Some? ==> popped == old(popped) + if pop then [r.value.value] else []
      ensures r.Ok? && r.value.Some? && pop ==> (receiveToken.Some? <==> cursor == pendingLen)
    {
      if cursor == pendingLen {
        return Ok(None);
      }
      if cursor >= PAGE_SIZE {
        return Err(Panicked);
      }
      var ch := page[cursor];
      assert Unread() == [ch] + page[cursor + 1..Min(pendingLen, PAGE_SIZE)];
      if pop {
        cursor := cursor + 1;
        popped := popped + [ch];
        var polled := PollRetrieve(addr);
        assert polled.Ok?;
      }
      return Ok(Some(ch));
    }

    /** Returns the next character, if there is one, and with `pop` removes it. */
    method Recv(pop: bool, written: seq<byte>, addr: nat) returns (r: Result<Option<byte>, Error>)
      requires Valid() && |written| == PAGE_SIZE
      modifies this, page, queue, queue.mem
      ensures r.Err? ==> r == Err(Panicked)
      ensures r.Err? <==>
                || (old(Returning()) && old(queue.UsedLen()) == 0)
                || (!old(Returning()) && old(cursor) == PAGE_SIZE < old(pendingLen))
      ensures r.Ok? ==>
                && Valid()
                && completed == old(completed) +
                     (if old(Returning()) then written[..Min(old(queue.UsedLen()), PAGE_SIZE)] else [])
                && (r.value.None? <==> completed == old(popped))
                && (r.value.Some? ==> old(popped) + [r.value.value] <= completed)
                && popped == old(popped) + (if pop && r.value.Some? then [r.value.value] else [])
    {
      var finished := FinishReceive(written);
      if finished.Err? {
        return Err(finished.error);
      }
      r := Next(pop, addr);
    }
  }

  method Overwrite(page: array<byte>, written: seq<byte>)
    requires page.Length == |written|
    modifies page
    ensures page[..] == written
  {
    for i := 0 to page.Length
      invariant page[..i] == written[..i]
    {
      page[i] := written[i];
    }
  }

  lemma SomeFree(p: Pool)
    requires Partitioned(p) && p.chains == map[] && p.size > 0
    ensures p.free != []
  {
    assert 0 in p.free || exists h :: Owns(p, h, 0);
  }
}
