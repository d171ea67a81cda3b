/** The receive buffer of a connection: a circular array that behaves as a bounded byte queue. */
module ByteRing {
  import opened Wrappers
  import opened Words

  /** The cell of the `i`-th byte of a circular array that starts at `start`. */
  function Cell(size: nat, start: nat, i: nat): (c: nat)
    requires start < size && i < size
    ensures c < size
  {
    if start + i < size then start + i else start + i - size
  }

  /** The bytes in a circular array, oldest first. */
  function Unrolled(cells: seq<byte>, start: nat, used: nat): (s: seq<byte>)
    requires used <= |cells| && (start < |cells| || used == 0)
    ensures |s| == used
    ensures forall i :: 0 <= i < used ==> s[i] == cells[Cell(|cells|, start, i)]
  {
    seq(used, i requires 0 <= i < used => cells[Cell(|cells|, start, i)])
  }

  /** `cells` with `src` copied over the cells from `at` on. */
  function Patched(cells: seq<byte>, at: nat, src: seq<byte>): (s: seq<byte>)
    requires at + |src| <= |cells|
    ensures |s| == |cells|
    ensures forall i :: 0 <= i < |s| ==> s[i] == if at <= i < at + |src| then src[i - at] else cells[i]
  {
    cells[..at] + src + cells[at + |src|..]
  }

  /** `copy_from_slice` to the part of `dst` that begins at `at`. */
  method CopyTo(dst: array<byte>, at: nat, src: seq<byte>)
    requires at + |src| <= dst.Length
    modifies dst
    ensures dst[..] == Patched(old(dst[..]), at, src)
  {
    forall i | 0 <= i < |src| {
      dst[at + i] := src[i];
    }
  }

  class RingBuffer {
    const buffer: array<byte>
    var used: nat
    var start: nat

    ghost predicate Valid()
      reads this
    {
      used <= buffer.Length && (start < buffer.Length || (start == 0 && buffer.Length == 0))
    }

    ghost function Contents(): (s: seq<byte>)
      requires Valid()
      reads this, buffer
    {
      Unrolled(buffer[..], start, used)
    }

    constructor (capacity: nat)
      ensures Valid() && fresh(buffer) && buffer.Length == capacity && Contents() == []
    {
      buffer := new byte[capacity](_ => 0);
      used, start := 0, 0;
    }

    method IsEmpty() returns (r: bool)
      requires Valid()
      ensures r <==> Contents() == []
    {
      r := used == 0;
    }

    method Free() returns (n: nat)
      requires Valid()
      ensures n == buffer.Length - |Contents()|
    {
      n := buffer.Length - used;
    }

    /** Adds the given bytes if there is room for all of them. With no capacity at all, adding
        nothing divides by zero. */
    method Add(bytes: seq<byte>) returns (r: bool)
      requires Valid() && (buffer.Length > 0 || bytes != [])
      modifies this`used, buffer
      ensures Valid()
      ensures r <==> |old(Contents())| + |bytes| <= buffer.Length
      ensures Contents() == if r then old(Contents()) + bytes else old(Contents())
    {
      var free := Free();
      if |bytes| > free {
        return false;
      }
      WrapOnce(start + used, buffer.Length);
      var firstAvailable := (start + used) % buffer.Length;
      var beforeWrap := Min(|bytes|, buffer.Length - firstAvailable);
      AddedContents(buffer[..], start, used, bytes, firstAvailable, beforeWrap);
      CopyTo(buffer, firstAvailable, bytes[..beforeWrap]);
      CopyTo(buffer, 0, bytes[beforeWrap..]);
      used := used + |bytes|;
      r := true;
    }

    /** Copies the oldest `n` bytes to the start of `out`. */
    method CopyOldest(n: nat, out: array<byte>)
      requires Valid() && buffer.Length > 0 && out != buffer && n <= used && n <= out.Length
      modifies out
      ensures Contents() == old(Contents())
      ensures out[..] == Patched(old(out[..]), 0, Contents()[..n])
    {
      ghost var cells := buffer[..];
      var beforeWrap := Min(n, buffer.Length - start);
      OldestCopied(cells, start, used, n, beforeWrap, out[..]);
      var older, newer := buffer[start..start + beforeWrap], buffer[..n - beforeWrap];
      assert older == cells[start..start + beforeWrap] && newer == cells[..n - beforeWrap];
      CopyTo(out, 0, older);
      CopyTo(out, beforeWrap, newer);
      assert buffer[..] == cells;
    }

    /** Reads and removes as many bytes as fit into `out`. */
    method Drain(out: array<byte>) returns (n: nat)
      requires Valid() && buffer.Length > 0 && out != buffer
      modifies this`used, this`start, out
      ensures Valid()
      ensures n == Min(|old(Contents())|, out.Length)
      ensures out[..] == Patched(old(out[..]), 0, old(Contents())[..n])
      ensures Contents() == old(Contents())[n..]
    {
      n := Min(used, out.Length);
      CopyOldest(n, out);
      OldestDropped(buffer[..], start, used, n);
      WrapOnce(start + n, buffer.Length);
      used := used - n;
      start := (start + n) % buffer.Length;
    }
  }

  lemma WrapOnce(c: nat, size: nat)
    requires 0 < size && c < 2 * size
    ensures c % size == if c < size then c else c - size
  {
    if c < size {
      ModUnique(c, size, 0, c);
    } else {
      ModUnique(c, size, 1, c - size);
    }
  }

  /** The two copies of `add` append the bytes, across the wraparound as well. */
  lemma AddedContents(cells: seq<byte>, start: nat, used: nat, bytes: seq<byte>, first: nat, before: nat)
    requires start < |cells| && used + |bytes| <= |cells|
    requires first == if start + used < |cells| then start + used else start + used - |cells|
    requires before == Min(|bytes|, |cells| - first)
    ensures |bytes| - before <= |cells|
    ensures Unrolled(Patched(Patched(cells, first, bytes[..before]), 0, bytes[before..]), start, used + |bytes|)
            == Unrolled(cells, start, used) + bytes
  {
    var cells' := Patched(Patched(cells, first, bytes[..before]), 0, bytes[before..]);
    var now := Unrolled(cells', start, used + |bytes|);
    var was := Unrolled(cells, start, used);
    forall i | 0 <= i < |now|
      ensures now[i] == (was + bytes)[i]
    {
      var c := Cell(|cells|, start, i);
      assert now[i] == cells'[c];
      if i < used {
        assert was[i] == cells[c];
      }
    }
  }

  /** The two copies of `drain` read the oldest bytes. */
  lemma OldestCopied(cells: seq<byte>, start: nat, used: nat, n: nat, before: nat, out: seq<byte>)
    requires start < |cells| && used <= |cells| && n <= used && n <= |out|
    requires before == Min(n, |cells| - start)
    ensures Patched(Patched(out, 0, cells[start..start + before]), before, cells[..n - before])
            == Patched(out, 0, Unrolled(cells, start, used)[..n])
  {
    var all := Unrolled(cells, start, used);
    var out' := Patched(Patched(out, 0, cells[start..start + before]), before, cells[..n - before]);
    var want := Patched(out, 0, all[..n]);
    forall i | 0 <= i < |out|
      ensures out'[i] == want[i]
    {
      if i < n {
        assert all[i] == cells[Cell(|cells|, start, i)];
      }
    }
  }

  /** Moving the start drops exactly the oldest bytes. */
  lemma OldestDropped(cells: seq<byte>, start: nat, used: nat, n: nat)
    requires start < |cells| && used <= |cells| && n <= used
    ensures var start' := if start + n < |cells| then start + n else start + n - |cells|;
            start' < |cells| && Unrolled(cells, start', used - n) == Unrolled(cells, start, used)[n..]
  {
    var all := Unrolled(cells, start, used);
    var start' := if start + n < |cells| then start + n else start + n - |cells|;
    var rest := Unrolled(cells, start', used - n);
    forall i | 0 <= i < |rest|
      ensures rest[i] == all[n..][i]
    {
      assert rest[i] == cells[Cell(|cells|, start', i)];
      assert all[n + i] == cells[Cell(|cells|, start, n + i)];
    }
  }

  // ---------------------------------------------------------------------------------------
  // Runs

  /** A client's call on the buffer: bytes to add, or room for draining. */
  datatype Op = Push(bytes: seq<byte>) | Pull(room: nat)

  /** A bounded byte queue together with what went in and what came out so far. */
  datatype Fifo = Fifo(capacity: nat, contents: seq<byte>, accepted: seq<byte>, drained: seq<byte>)

  function Apply(f: Fifo, op: Op): (f': Fifo) {
    match op
    case Push(bytes) =>
      if |f.contents| + |bytes| <= f.capacity
      then f.(contents := f.contents + bytes, accepted := f.accepted + bytes) else f
    case Pull(room) =>
      var n := Min(|f.contents|, room);
      f.(contents := f.contents[n..], drained := f.drained + f.contents[..n])
  }

  function Run(capacity: nat, ops: seq<Op>): (f: Fifo) {
    if ops == [] then Fifo(capacity, [], [], []) else Apply(Run(capacity, ops[..|ops| - 1]), ops[|ops| - 1])
  }

  /** In every run, what was drained followed by what is still there is exactly what was accepted. */
  lemma {:induction false} NothingLost(capacity: nat, ops: seq<Op>)
    ensures var f := Run(capacity, ops);
            f.drained + f.contents == f.accepted && |f.contents| <= f.capacity == capacity
  {
    if ops != [] {
      NothingLost(capacity, ops[..|ops| - 1]);
      var f := Run(capacity, ops[..|ops| - 1]);
      match ops[|ops| - 1]
      case Push(bytes) =>
        assert f.drained + (f.contents + bytes) == f.drained + f.contents + bytes;
      case Pull(room) =>
        var n := Min(|f.contents|, room);
        assert f.contents == f.contents[..n] + f.contents[n..];
        assert f.drained + f.contents[..n] + f.contents[n..] == f.drained + f.contents;
    }
  }

  /** The ring is that queue: any calls on a ring with capacity have the effect of the same calls on the queue. */
  method RunOps(capacity: nat, ops: seq<Op>) returns (ring: RingBuffer, drained: seq<byte>)
    requires capacity > 0
    ensures fresh(ring) && fresh(ring.buffer) && ring.Valid() && ring.buffer.Length == capacity
    ensures ring.Contents() == Run(capacity, ops).contents && drained == Run(capacity, ops).drained
    ensures drained + ring.Contents() == Run(capacity, ops).accepted
  {
    ring := new RingBuffer(capacity);
    drained := [];
    for i := 0 to |ops|
      invariant fresh(ring) && fresh(ring.buffer) && ring.Valid() && ring.buffer.Length == capacity
      invariant ring.Contents() == Run(capacity, ops[..i]).contents && drained == Run(capacity, ops[..i]).drained
    {
      assert ops[..i + 1][..i] == ops[..i];
      NothingLost(capacity, ops[..i]);
      match ops[i]
      case Push(bytes) =>
        var accepted := ring.Add(bytes);
      case Pull(room) =>
        var out := new byte[room](_ => 0);
        var n := ring.Drain(out);
        drained := drained + out[..n];
    }
    assert ops[..|ops|] == ops;
    NothingLost(capacity, ops);
  }
}
