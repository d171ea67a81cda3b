/** Descriptors, the buffers they point to, and the table of an indirect chain. */
module Descriptors {
  import opened Wrappers

  datatype Direction = DriverToDevice | DeviceToDriver

  datatype Flags = Flags(next: bool, write: bool, indirect: bool)

  datatype Descriptor = Descriptor(addr: nat, len: nat, flags: Flags, next: nat)

  const DESCRIPTOR_SIZE: nat := 16

  /** A caller's buffer: which memory it is, and the bytes it holds when it is handed over. */
  datatype Buffer = Buffer(id: nat, bytes: seq<byte>)

  function BytesOf(bs: seq<Buffer>): (ss: seq<seq<byte>>) {
    seq(|bs|, i requires 0 <= i < |bs| => bs[i].bytes)
  }

  /** One buffer of a request with the bus address at which the HAL shared it. */
  datatype Part = Part(buffer: Buffer, dir: Direction, addr: nat)

  /** What can be shared with the device: a caller's buffer, or the table of an indirect chain. */
  datatype Item = Data(buffer: Buffer) | Table(entries: seq<Descriptor>)

  datatype Share = Share(addr: nat, item: Item, dir: Direction)

  /** The buffers the source accepts: not empty, and with a length that fits the descriptor. */
  predicate BufferOk(b: Buffer) {
    0 < |b.bytes| < 0x1_0000_0000
  }

  /** `InputOutputIter`: all inputs in order as readable, then all outputs in order as writable. */
  function BufferAt(inputs: seq<Buffer>, outputs: seq<Buffer>, i: nat): (r: (Buffer, Direction))
    requires i < |inputs| + |outputs|
  {
    if i < |inputs| then (inputs[i], DriverToDevice) else (outputs[i - |inputs|], DeviceToDriver)
  }

  function PartAt(inputs: seq<Buffer>, outputs: seq<Buffer>, addrs: seq<nat>, i: nat): (p: Part)
    requires |addrs| == |inputs| + |outputs| && i < |addrs|
  {
    Part(BufferAt(inputs, outputs, i).0, BufferAt(inputs, outputs, i).1, addrs[i])
  }

  function Parts(inputs: seq<Buffer>, outputs: seq<Buffer>, addrs: seq<nat>): (ps: seq<Part>)
    requires |addrs| == |inputs| + |outputs|
    ensures |ps| == |addrs|
    ensures forall i :: 0 <= i < |ps| ==> ps[i] == PartAt(inputs, outputs, addrs, i)
  {
    seq(|addrs|, i requires 0 <= i < |addrs| => PartAt(inputs, outputs, addrs, i))
  }

  /** The buffers of a request are the given inputs and outputs. */
  predicate SameBuffers(parts: seq<Part>, inputs: seq<Buffer>, outputs: seq<Buffer>) {
    && |parts| == |inputs| + |outputs|
    && forall i :: 0 <= i < |parts| ==> (parts[i].buffer, parts[i].dir) == BufferAt(inputs, outputs, i)
  }

  /** `Descriptor::set_buf`: everything but the link. */
  function SetBuf(d: Descriptor, addr: nat, len: nat, flags: Flags): (r: Descriptor) {
    d.(addr := addr, len := len, flags := flags)
  }

  /** `Descriptor::unset_buf`: the flags and the link stay as they are. */
  function UnsetBuf(d: Descriptor): (r: Descriptor) {
    d.(addr := 0, len := 0)
  }

  /** `Descriptor::next`. */
  function NextOf(d: Descriptor): (r: Option<nat>) {
    if d.flags.next then Some(d.next) else None
  }

  predicate Holds(d: Descriptor, p: Part, more: bool) {
    && d.addr == p.addr
    && d.len == |p.buffer.bytes|
    && d.flags == Flags(more, p.dir == DeviceToDriver, false)
  }

  /** The table that `add_indirect` allocates for a request. */
  function IndirectTable(parts: seq<Part>): (t: seq<Descriptor>)
    ensures |t| == |parts|
    ensures forall i :: 0 <= i < |t| ==> Holds(t[i], parts[i], i + 1 < |parts|) && t[i].next == i + 1
  {
    seq(|parts|, i requires 0 <= i < |parts| =>
      Descriptor(parts[i].addr, |parts[i].buffer.bytes|,
                 Flags(i + 1 < |parts|, parts[i].dir == DeviceToDriver, false), i + 1))
  }
}
