# Virtqueues and vsock, verified

A model of the virtio drivers and devices of this repository in Dafny: the split virtqueue (driver side,
device side, and the two together over shared memory), the clients that rely on its finer points, and the
vsock stack from packet format to connection manager.

How the modules build on each other:

- **Virtqueue.** `DescriptorPool` is the abstract queue: a free list and the chains in flight.
  `ShadowTable` says when the driver's shadow table, free head, counter and indirect lists represent such a
  pool, `Sharing` which memory is shared with the device and for what, and the class `VirtQueue` is the driver's code,
  proved to keep both whatever the device writes. `ChainWalk` and `DeviceVirtQueue` are the device's side.
  `RingProtocol` and `RingSafety` put both sides together as a two-party state machine, in any interleaving, and
  `QueuePair` runs the two classes on the same memory: whatever operations they run, what they go through is a
  run of that machine. In `SingleAccesses` no operation is one step: each side's reads and writes of shared memory are
  steps of their own, in any interleaving. This refines the machine, and `OperationsInParts` shows that it leaves out
  none of the machine's runs. `RingProgress` shows that the machine never gets stuck, and `QueueChannel` that such a
  queue is a pair of first-in first-out channels of messages. `Notification` is the protocol by which a sleeping device
  is woken and a busy one is left alone, and `RingWakeUp` runs it on those rings. `QueueLayout` places the parts of a queue in memory.
- **Clients of the queue.** `OwningQueue`, `NetReceive`, `Console` and `PcmTransfer` use the class
  `VirtQueue`; what they rely on is its last-in first-out free list, its tokens and its capacity.
- **Vsock.** `VsockPacket`, `ByteRing`, `ConnectionInfo` and `ConnectionManager` are the parts.
  `VsockStream` runs two endpoints over first-in first-out channels, from the request for the connection to its end
  by shutdown, reset or forced closing, and `VsockCredit` is about what becomes of a sender that is refused.
  `Endpoint` ties an endpoint to the manager's connection, method by method,
  and to a connection that keeps its bytes in the circular buffer of `ByteRing`. `VsockOverQueues` runs the same two
  endpoints over two complete queues, with one thread on each side that waits where the code does, so that the final
  theorem, `VsockOverQueues.EndToEnd`, goes from the bytes that one client sends to the bytes that the other reads,
  through credit, encoding, rings, descriptors and bus memory. `VsockEnding`, `VsockDeadlock` and `VsockProgress` are
  its counterpart: all that was sent can still be read exactly as long as it is not doomed by the end of the
  connection and the two sides are not stuck. `VsockScenarios` builds the runs in which one or the other is the case.
  `Paths` has what holds of runs of any state machine.
- **Transport.** `ConfigSnapshot` is the retry loop that reads the configuration space.

Numbers are unbounded unless the source's width matters; then the wrap-around is written out (16-bit ring
indices, 32-bit credit counters, the configuration generation). What another party decides is an argument: the
addresses that the hardware abstraction layer (HAL) returns for shared memory, and what the device writes and when.
Panics and loops that never end are the results `Panicked` and `Diverges`.

Nine promises turn out to need a condition, which is proved to be exact or necessary:

- `should_notify` compares 16-bit indices without regard to wrap-around. Adding chains one at a time never loses a
  wake-up, but a batch of chains published before one call does exactly when the index wraps inside the batch
  (`Notification.BatchExact`, `Notification.LostWakeup`).
- A device that with event indices waits for a chain that is not there yet is left alone, but not if that chain is the
  last one before the index wraps (`Notification.EventExact`, `Notification.NeedlessNotify`). Without event indices a
  device that asked not to be notified is left alone until it asks again (`Notification.HushedIsLeftAlone`).
- `align_up` adds a whole page to a size that is a multiple of the page size already. No queue part has such a size
  (`QueueLayout.AlignUpExact`, `QueueLayout.NeverWholePages`).
- A connection request for a connection that exists, on a port that nobody listens on, removes that connection
  together with its unread data, and nothing else in `poll` does (`ConnectionManager.Manager.Poll`,
  `ConnectionManager.RequestDropsData`). A comment in the callback of `poll` says that such a request is ignored;
  the model follows the code.
- What `send` accepts is not always delivered: after `shutdown`, `send` still answers Ok, and the peer, having read
  everything so far, closes on the shutdown and drops the data behind it. Data is lost in this way exactly if the
  reader's side is closed or a shutdown or reset is on its way, ahead of further data, to an empty buffer
  (`VsockProgress.DriverHeardIff`, `VsockProgress.DeviceHeardIff`, `VsockScenarios.LosingRun`).
- Driver and device can wait for each other for ever. The driver's `send` spins until the device returns the packet and
  takes nothing off the receive queue meanwhile; the device spins until the receive queue has a buffer before it sends
  anything, an answer included, and takes nothing off the transmit queue meanwhile. When the driver cannot poll and
  fewer receive buffers are left than the device needs before it can, this lasts for ever
  (`VsockDeadlock.DeadlockedForever`, `VsockScenarios.DeadlockingRun`); in no other state does waiting keep data from
  being read (`VsockProgress.DriverHeardIff`, `VsockProgress.DeviceHeardIff`).
- The driver offers indirect descriptors for its transmit queue, and the device of this repository stops the program at
  the first one that it finds. Packets without data are single descriptors, so that the connection comes about and
  the first data ends it (`VsockDeadlock.BarredForever`, `VsockScenarios.IndirectRun`).
- A sender that is refused asks its peer for credit and is told, so that no data that fits the peer's buffer is refused
  for ever (`VsockCredit.NeverRefusedForever`). But it notes that it has asked before it asks: when the queue does not
  take the request it never asks again, and is refused until its peer's client does something
  (`VsockCredit.StarvingRun`, `VsockCredit.StarvedStays`). The vsock queues, used by one thread on each side, take every
  request (`VsockProgress.DriverCanDo`, `VsockProgress.DeviceCanSend`).
- With buffers of capacity zero, which the manager accepts, an empty `send` passes the peer's credit check and then
  makes the receiver divide by zero. The receiving endpoint fails in this case and in no other
  (`VsockStream.ReceiveSucceeds`, `VsockStream.EmptyDataPanics`, `VsockScenarios.EmptyDataStops`), and the device's
  `poll` as a whole in this case, at an indirect descriptor, and in no other (`VsockOverQueues.DevicePollSucceeds`).

`VsockProgress.DriverHeardIff` and `VsockProgress.DeviceHeardIff` put three of these together: in every state of every
run, all that one side has sent can still be read exactly if it is read already, or it is not doomed, the two sides are
not deadlocked, and no indirect descriptor is in the way. A client that wants to be sure can go by
`VsockProgress.HeardInPeace`: without indirect descriptors, as long as neither side shuts the connection down, closes
it or rejects it, and fewer packets are under way to the driver than it has receive buffers, nothing is lost.

## Model

| member | source | states |
|---|---|---|
| `Words.MaskedSlot` | src/queue.rs:171 | masking an index with SIZE - 1 selects the slot of its count, for every size that passes `SIZE_OK` |
| `DescriptorPool.FreshPartitioned` | src/queue.rs:110-119 | in a new queue the free list and the (no) chains partition all descriptors |
| `DescriptorPool.FullIffMoreThanAvailable` | src/queue.rs:157-163 | for k >= 1, `add` of k buffers answers `QueueFull` exactly when k exceeds `available_desc()`, direct and indirect |
| `DescriptorPool.FullExact` | src/queue.rs:157-163 | `QueueFull` exactly if no descriptor is free, or there are more buffers than free descriptors, or, with indirect descriptors, than the queue has |
| `DescriptorPool.TakePartitioned` | src/queue.rs:203-229 | taking a chain off the free list keeps the partition of all descriptors into free ones and disjoint chains |
| `DescriptorPool.GivePartitioned` | src/queue.rs:409-480 | recycling a chain keeps the partition |
| `DescriptorPool.RunPartitioned` | src/queue.rs:149-481 | after every run of adds and recycles the free list is duplicate-free and, with the chains in flight, partitions all descriptors |
| `DescriptorPool.RecycledIsNext` | src/queue.rs:393-397 | the free list is last-in first-out: the next request of the same shape gets exactly the chain just recycled |
| `Sharing.AddBalanced` | src/queue.rs:1086-1105 | after `add`, what is shared and not unshared is, with multiplicity, exactly the buffers and tables of the chains in flight |
| `Sharing.RecycleBalanced` | src/queue.rs:409-480 | recycling unshares each buffer and table of the chain once, with its own address and direction, and nothing that is not shared |
| `Sharing.SharingOpens` | src/queue.rs:1093-1095 | the calls of `H::share` for a request open exactly its buffers |
| `Sharing.UnsharingCloses` | src/queue.rs:438-448 | the calls of `H::unshare` for a chain close exactly its buffers |
| `Sharing.AddShares` | src/queue.rs:1086-1105 | `add` shares each input for the device to read, each output for it to write and the table of an indirect chain for it to read, and nothing else |
| `Sharing.RecycleUnshares` | src/queue.rs:409-480 | recycling takes exactly these back, each with the same direction |
| `ShadowTable.DirectRepresents` | src/queue.rs:197-231 | the shadow table after `add_direct` represents the pool with the chain taken, and the shared table encodes the chain |
| `ShadowTable.IndirectRepresents` | src/queue.rs:233-284 | likewise for `add_indirect`, with `indirect_lists[head]` empty before and filled after |
| `ShadowTable.RecycleRepresents` | src/queue.rs:451-480 | the shadow table after unlinking a direct chain represents the pool with the chain given back in chain order |
| `ShadowTable.RecycleIndirectRepresents` | src/queue.rs:413-449 | likewise for an indirect chain, whose list entry is taken |
| `VirtQueue.VirtQueue.constructor` | src/queue.rs:105-140 | a new queue represents the pool with all descriptors free, in index order, with nothing shared |
| `VirtQueue.VirtQueue.New` | src/queue.rs:74-140 | `AlreadyUsed` exactly if the transport says so, otherwise `InvalidParam` exactly if the device's queue is too small, otherwise an error exactly without DMA memory, otherwise such a queue |
| `VirtQueue.VirtQueue.AvailableDesc` | src/queue.rs:381-391 | the number returned is exceeded by exactly those requests that `add` refuses as `QueueFull` |
| `VirtQueue.VirtQueue.PlaceParts` | src/queue.rs:203-224 | the loop of `add_direct` fills the first free descriptors in order, mirrors each to the shared table, and shares each buffer once |
| `VirtQueue.VirtQueue.FillTable` | src/queue.rs:240-256 | the loop of `add_indirect` builds exactly the table that section 2.6.5.3 of VirtIO v1.1 describes |
| `VirtQueue.VirtQueue.AddDirect` | src/queue.rs:197-231 | one descriptor per buffer is taken; the rest of the shared table is untouched |
| `VirtQueue.VirtQueue.AddIndirect` | src/queue.rs:233-284 | one descriptor is taken and points to the table, with the length of its entries; the assertion on `indirect_lists` never fails |
| `VirtQueue.VirtQueue.Add` | src/queue.rs:149-195 | error cases both ways, nothing changed on error; otherwise the chain is taken, encoded, put into the slot of the index and the index advanced modulo 2^16, and exactly its buffers and its table are shared, the inputs for reading and the outputs for writing |
| `VirtQueue.VirtQueue.PeekUsed` | src/queue.rs:369-378 | the token in the next used slot, exactly when there is one |
| `VirtQueue.VirtQueue.UnlinkParts` | src/queue.rs:451-479 | unlinking a chain ends after exactly its descriptors: the chain is neither shorter nor longer than expected, whatever the device wrote to the shared table |
| `VirtQueue.VirtQueue.RecycleIndirect` | src/queue.rs:413-449 | the unwrap of the list entry never fails and the list has one entry per buffer |
| `VirtQueue.VirtQueue.RecycleDescriptors` | src/queue.rs:403-481 | the chain's descriptors return to the front of the free list in chain order |
| `VirtQueue.VirtQueue.PopUsed` | src/queue.rs:492-535 | `NotReady` and `WrongToken` both ways, nothing changed on error; otherwise the chain is recycled, exactly its buffers and its table are taken back, no address of it is left in a descriptor, the index is advanced and `used_event` published if negotiated |
| `VirtQueue.VirtQueue.ShouldNotify` | src/queue.rs:336-347 | the answer is the condition on which `Notification.NoLostWakeup` and `Notification.CheckExact` rest, on the fields as the device last wrote them |
| `VirtQueue.VirtQueue.SetDevNotify` | src/queue.rs:319-330 | only the available ring flag changes, and only without event indices |
| `VirtQueue.NextUsedExact` | src/queue.rs:369-378 | the element looked at is in the slot of the index modulo the size, and its token is cut to 16 bits |
| `VirtQueue.SharedAsPublished` | src/queue.rs:1086-1105 | at every moment each buffer in flight is shared, at the address in its descriptor, for writing exactly if the descriptor says so, and so is the table of an indirect chain, for reading |
| `ChainWalk.WalkDirect` | src/queue.rs:770-826 | the NEXT walk of a published direct chain reads exactly the descriptors of the chain, distinct and one for each buffer, and ends there and not before |
| `ChainWalk.DecodeChain` | src/queue.rs:763-833 | direct and indirect publication mean the same: either way the device, which sees as much of a table as the length of its descriptor covers, finds the same readable and writable buffers |
| `ChainWalk.SeenInputsOutputs` | src/queue.rs:1188-1195 | those are exactly the inputs in order, then the outputs in order |
| `ChainWalk.BoundSuffices` | src/queue.rs:770-826 | on any memory, a walk that has not ended within 2 * SIZE + 1 steps never ends, so the bound in the model leaves nothing out |
| `ChainWalk.MoreSteps` | src/queue.rs:770-826 | a walk that has ended does not depend on the bound |
| `ChainWalk.WalkFails` | src/queue.rs:770-826 | on any memory the walk answers each of its errors exactly if it comes to a descriptor outside the table, to an indirect one, or to one for reading behind one for writing |
| `ChainWalk.WalkFinds` | src/queue.rs:770-826 | on any memory a walk that ends has found the buffers of the descriptors on its way, in order |
| `DeviceVirtQueue.DeviceVirtQueue.PopAvail` | src/queue.rs:763-833 | the next chain decoded, with each error of the walk; the index advances only on success |
| `DeviceVirtQueue.DeviceVirtQueue.AddUsed` | src/queue.rs:728-747 | the element goes into the slot of the index, and the index advances modulo 2^16 |
| `DeviceVirtQueue.DeviceVirtQueue.Poll` | src/queue.rs:691-726 | the handler gets the concatenation of the readable buffers, and the chain is returned with length zero whatever the handler answers; the driver is notified of exactly the chains returned, unless its flag says no |
| `DeviceVirtQueue.DeviceVirtQueue.WaitPopAddNotify` | src/queue.rs:649-689 | the concatenation of the inputs goes to the start of the first writable buffer, which must hold it; each error exactly in its case; the driver is notified on success, unless its flag says no |
| `DeviceVirtQueue.Collect` | src/queue.rs:712-715 | the loop of `poll` collects the buffers in the order of the chain |
| `DeviceVirtQueue.CopyPieces` | src/queue.rs:674-679 | the copy loop writes the concatenation, and fails exactly when it does not fit |
| `DeviceVirtQueue.DeviceVirtQueue.PeekAvail` | src/queue.rs:841-850 | the head in the next available slot, exactly when there is one |
| `DeviceVirtQueue.NextAvailExact` | src/queue.rs:841-850 | the head looked at is in the slot of the index modulo the size |
| `RingSafety.AddKeeps` | src/queue.rs:149-195 | publishing a chain keeps the invariant of the protocol and overwrites no slot that the device has not read |
| `RingSafety.FetchSees` | src/queue.rs:763-833 | the device decodes exactly what the driver published under the oldest waiting head |
| `RingSafety.FetchKeeps` | src/queue.rs:763-833 | taking a chain keeps the invariant |
| `RingSafety.ReturnKeeps` | src/queue.rs:728-747 | returning a chain keeps the invariant and overwrites no slot that the driver has not read |
| `RingSafety.PopSees` | src/queue.rs:498-520 | the next used element always names a chain in flight, and its first writable buffer holds the bytes written for it |
| `RingSafety.PopKeeps` | src/queue.rs:498-535 | popping keeps the invariant |
| `RingSafety.CountOrder` | src/queue.rs:361-378 | popped <= used <= taken <= available <= popped + SIZE |
| `RingSafety.RunInv` | src/queue.rs:149-850 | the invariant holds in every state of every interleaving of driver and device |
| `RingSafety.RingsAreFifos` | src/queue.rs:171-188 | in every interleaving the counts are ordered, each index is its count modulo 2^16, both emptiness tests are exact, and each side reads exactly the oldest unread element, however often the indices wrap |
| `QueuePair.QueuePair.constructor` | src/queue.rs:608-647 | driver and device on newly allocated memory are in an initial state of the protocol |
| `QueuePair.QueuePair.Add` | src/queue.rs:149-195 | the driver's `add`, direct or indirect, run on the same memory as the device, is a step of the protocol |
| `QueuePair.QueuePair.PopAvail` | src/queue.rs:763-833 | the device's `pop_avail` after any run takes the oldest waiting chain; it never fails on a direct chain and always stops at an indirect one |
| `QueuePair.QueuePair.Poll` | src/queue.rs:691-726 | the device's `poll` after any run is a fetch followed by the return of that chain, and the handler gets the request's bytes; a chain with a writable buffer is fetched and not returned |
| `QueuePair.QueuePair.WaitPopAddNotify` | src/queue.rs:649-689 | the device's `wait_pop_add_notify` after any run is a fetch followed by the return of that chain with the concatenated inputs, and leaves in bus memory what that return leaves; in the error cases the chain is fetched and not returned |
| `QueuePair.QueuePair.AddUsed` | src/queue.rs:728-747 | the device's `add_used` is a step of the protocol |
| `QueuePair.QueuePair.PopUsed` | src/queue.rs:492-535 | the driver's `pop_used` after any run pops the oldest returned chain, never answers `WrongToken`, and reports the number of bytes written |
| `QueuePair.FetchIsWalk` | src/queue.rs:770-826 | on direct chains the walk of `pop_avail` is the whole decoding, and on indirect ones it stops the program |
| `SingleAccesses.Completes` | src/queue.rs:149-850 | each single read or write of either side completes one operation of the protocol, or changes nothing that either side can see |
| `SingleAccesses.AccessKeeps` | src/queue.rs:149-850 | neither side disturbs what the other relies on in the middle of an operation: the fresh descriptors of a request, the element being popped, the chain being walked, the buffer being written |
| `SingleAccesses.Refines` | src/queue.rs:149-850 | so every interleaving of the single accesses of driver and device is, in all that they can see, a run of the protocol, and its invariant holds after every access |
| `SingleAccesses.WalkGoesWell` | src/queue.rs:763-833 | whatever the driver does between two reads of the walk, the device never has to give up on a descriptor, and at the end it has seen exactly what was published under the oldest waiting head |
| `SingleAccesses.PopGoesWell` | src/queue.rs:498-535 | whatever the device does between the driver's reads of the used element, the element stays, names a chain in flight, and the bytes that it counts are in that chain's first writable buffer |
| `SingleAccesses.Mimics` | src/queue.rs:149-850 | what an operation does depends only on what can be seen of the state |
| `OperationsInParts.Realized` | src/queue.rs:149-850 | conversely, every state that the protocol attains is attained by single accesses |
| `RingProgress.AddEnabled` | src/queue.rs:149-195 | in every state of the invariant, a request for which there is room can be published, given fresh addresses |
| `RingProgress.FreshAdd` | src/queue.rs:149-195 | and there always are such addresses |
| `RingProgress.FetchEnabled` | src/queue.rs:763-833 | a waiting chain can be taken and decodes |
| `RingProgress.ReturnEnabled` | src/queue.rs:728-747 | a chain that the device holds can be returned with any bytes that fit |
| `RingProgress.PopEnabled` | src/queue.rs:492-535 | a returned chain can be popped |
| `QueueChannel.AddSends` | src/queue.rs:149-195 | publishing a request appends the concatenation of its inputs to the messages under way |
| `QueueChannel.FetchReceives` | src/queue.rs:712-715 | what the device copies together is the oldest message under way, which it removes |
| `QueueChannel.ReturnSends` | src/queue.rs:674-683 | returning a chain appends what was written to the messages under way to the driver, leaves it in the chain's first writable buffer, and disturbs no message to the device |
| `QueueChannel.PopReceives` | src/queue/owning.rs:79-95 | the bytes the driver finds in the popped buffer are the oldest message from the device, which it removes |
| `QueueChannel.PopQuiet` | src/queue.rs:492-535 | popping disturbs no message under way to the device |
| `Notification.RunInv` | src/queue.rs:177-192 | in every run a sleeping device has nothing to do, or has been notified, or its chains are all in the unchecked batch |
| `Notification.NoLostWakeup` | src/queue.rs:336-347 | in every run of adds and calls of `should_notify`, with a device that rechecks before it sleeps, a device that sleeps with a chain pending has been notified, across the wrap from 65535 to 0, with flags or event indices; with event indices a batch must not wrap inside |
| `Notification.BatchExact` | src/queue.rs:341 | after a batch of k chains the device that waits for the first is notified exactly when the index does not wrap inside the batch |
| `Notification.WrapInsideIsLost` | src/queue.rs:341 | whenever it does wrap inside, the device stays asleep with the whole batch pending |
| `Notification.LostWakeup` | src/queue.rs:341 | a run from a new queue in which that happens |
| `Notification.FirstFillNotifies` | src/queue/owning.rs:20-34 | the one batch that the source publishes before checking, when a queue is first filled, is safe |
| `Notification.CheckExact` | src/queue.rs:345 | with flags each call of `should_notify` sends one notification, unless the device's latest word was that it wants none |
| `Notification.HushedIsLeftAlone` | src/queue.rs:333-347 | so none is sent between such a word and the next one that asks for notifications |
| `Notification.EventExact` | src/queue.rs:341 | with event indices one is sent exactly if the chain that the device waits for is published and the index has not wrapped since, or if it is the last one before the index wraps |
| `Notification.NeedlessNotify` | src/queue.rs:341 | a run from a new queue in which that last case notifies a device for which there is nothing |
| `RingWakeUp.StepKeeps` | src/queue.rs:149-195 | on the rings of the protocol, every step of driver and device keeps both invariants; no more chains are ever pending than the ring holds |
| `RingWakeUp.NoLostWakeup` | src/queue.rs:336-347 | in every run of the two-party protocol a device that sleeps while a chain waits on the available ring has been notified, unless the driver has added a chain and not yet looked |
| `RingWakeUp.RunWatched` | src/queue.rs:149-195 | every run of the two-party protocol with notifications is a run of `Notification` |
| `RingWakeUp.CheckExact` | src/queue.rs:345 | so on the rings, too, a device that asked not to be notified is not |
| `RingWakeUp.EarlyExact` | src/queue.rs:341 | and one that waits for a chain not yet added is notified exactly if that chain is the last one before the index wraps |
| `SingleBuffer.Lend` | src/queue.rs:149-195 | lending one writable buffer fails exactly when no descriptor is free and otherwise uses the first free one |
| `SingleBuffer.TakeBack` | src/queue.rs:492-535 | taking it back succeeds exactly when its token is next, and puts the descriptor at the front of the free list |
| `OwningQueue.LendAll` | src/queue/owning.rs:23-30 | filling a new queue gives buffer i token i, so the token assertion never fails |
| `OwningQueue.OwningQueue.constructor` | src/queue/owning.rs:21-34 | afterwards all buffers are in flight, buffer i under token i |
| `OwningQueue.OwningQueue.Poll` | src/queue/owning.rs:57-125 | whatever the handler answers and whatever id below SIZE the device names, repeats included, all buffers are in flight again with buffer i under token i, and the token assertion holds |
| `NetReceive.NetReceive.New` | src/device/net/dev.rs:28-42 | buffer i gets token i; `InvalidParam` exactly for buffers shorter than the minimum, cut to whole machine words |
| `NetReceive.NetReceive.Receive` | src/device/net/dev.rs:79-97 | `rx_buffers[t]` is filled exactly when token t is in flight and holds its buffer; `WrongToken` exactly when the device names a token not in flight, so the second test never fails; a packet shorter than the header drops its buffer |
| `NetReceive.NetReceive.Recycle` | src/device/net/dev.rs:102-114 | the buffer gets whatever token is free, its slot is empty before, and `WrongToken` is never answered |
| `Console.Console.constructor` | src/device/console.rs:113-122 | nothing is lent out and nothing is unread |
| `Console.Console.PollRetrieve` | src/device/console.rs:144-157 | the page is lent out exactly when nothing in it is unread, and `add` never fails |
| `Console.Console.FinishReceive` | src/device/console.rs:175-198 | what the device wrote becomes readable; a length of zero stops the program |
| `Console.Console.Next` | src/device/console.rs:205-213 | the byte handed out is the next one of all the device has written; the index fails exactly past the page |
| `Console.Console.Recv` | src/device/console.rs:203-214 | while a token is outstanding nothing is unread, and the popped bytes followed by the unread ones are exactly the device's completed writes, after every call |
| `PcmTransfer.Transfer.QueuePeriod` | src/device/sound.rs:525-538 | `add` never answers `QueueFull`; the request is the stream id and the period for the device to read and eight bytes of status for it to write |
| `PcmTransfer.Transfer.PopPeriod` | src/device/sound.rs:543-561 | the token is next on the used ring, the unwrap of `buffers[tail]` never fails, the same buffers are passed back, and the status read is that of the oldest period |
| `PcmTransfer.Transfer.AddNext` | src/device/sound.rs:521-542 | the loop ends exactly when everything is queued and popped |
| `PcmTransfer.Transfer.Rounds` | src/device/sound.rs:518-563 | the loop under a device that takes the tokens off the available ring and answers in order, for every schedule of its answers and all addresses that the HAL returns |
| `PcmTransfer.PcmXfer` | src/device/sound.rs:494-566 | Ok only after the frames, cut into periods, were queued once each in order and all popped with success; `IoError` exactly at the first period the device fails; no other error; if the device answers in every round, it ends within one round more than there are periods |
| `VsockPacket.PacketRoundTrip` | src/device/socket/vsock.rs:622-639 | decoding an encoded header and body gives them back, whatever follows |
| `VsockPacket.DecodeExact` | src/device/socket/vsock.rs:622-639 | decoding succeeds exactly when the buffer holds 44 bytes plus the length that bytes 24 to 27 say, the least significant first, and what is decoded encodes to a prefix of the buffer |
| `VsockPacket.HeaderRoundTrip` | src/device/socket/protocol.rs:49-64 | the ten little-endian fields round trip |
| `VsockPacket.HeaderInverse` | src/device/socket/protocol.rs:49-64 | every 44 bytes are the encoding of what they decode to |
| `VsockPacket.LeByte` | src/device/socket/protocol.rs:52-63 | byte k of a field is the one of weight 256^k |
| `VsockPacket.EncodedBytes` | src/device/socket/protocol.rs:49-64 | each field is at its offset, the least significant byte first |
| `VsockPacket.FromHeaderExact` | src/device/socket/vsock.rs:135-185 | an event is read exactly from headers with its operation code (1 to 7) and, unless it carries data, length zero; each error exactly in its case |
| `ByteRing.RingBuffer.constructor` | src/device/socket/connectionmanager.rs:826-832 | a new ring is empty |
| `ByteRing.RingBuffer.Add` | src/device/socket/connectionmanager.rs:852-870 | accepts exactly what fits, and then appends it to the contents, across the wrap; a rejected add changes nothing |
| `ByteRing.RingBuffer.CopyOldest` | src/device/socket/connectionmanager.rs:877-887 | the two copies read the oldest bytes in order |
| `ByteRing.RingBuffer.Drain` | src/device/socket/connectionmanager.rs:874-893 | reads and removes as many of the oldest bytes as fit, and changes nothing else of the output |
| `ByteRing.NothingLost` | src/device/socket/connectionmanager.rs:825-893 | in every run of calls on a bounded queue, what was drained followed by the contents is what was accepted |
| `ByteRing.RunOps` | src/device/socket/connectionmanager.rs:825-893 | any sequence of calls on the ring has the effect of the same calls on that queue, so what was drained followed by the contents is what was accepted |
| `ConnectionInfo.PeerFreeExact` | src/device/socket/vsock.rs:89-96 | with wrapped counters `peer_free` is the true room left under the peer's allowance |
| `VsockStream.SendOut` | src/device/socket/vsock.rs:527-562 | a send that passes the check stays within the peer's allowance, and one that cannot be queued only makes the sender more conservative |
| `VsockStream.ReceiveSucceeds` | src/device/socket/connectionmanager.rs:542-579 | the next packet decodes and fits into the buffer, so receiving it fails exactly if it is empty data for a buffer without capacity |
| `VsockStream.RoomForAll` | src/device/socket/connectionmanager.rs:571-576 | as long as the receiver has the connection, unread bytes plus bytes under way never exceed `buf_alloc` |
| `VsockStream.EstimateIsSafe` | src/device/socket/vsock.rs:89-96 | the sender's idea of the free room is the true room less what it has not heard of and what it charged but could not queue |
| `VsockStream.ActKeeps` | src/device/socket/vsock.rs:506-580 | every operation of a client (send, credit packets, shutdown, read, forced closing) and every reply that is due keep the invariant in both directions |
| `VsockStream.TakeKeeps` | src/device/socket/connectionmanager.rs:537-634 | so does polling, with the teardown on shutdown and reset: at once with an empty buffer, otherwise after the last byte is read; packets for a connection that is gone are ignored |
| `VsockStream.RunInv` | src/device/socket/vsock.rs:506-580 | the invariant holds in every run of two endpoints |
| `VsockStream.StreamLaw` | src/device/socket/connectionmanager.rs:537-780 | in every run through teardown and in both directions: reads are a prefix of what was sent, the allowance is never exceeded while the connection is there, and receiving fails exactly on empty data for a buffer without capacity, with 32-bit counters wrapping any number of times |
| `VsockStream.EmptyDataPanics` | src/device/socket/connectionmanager.rs:852-858 | whenever the peer's buffers have no capacity, a run in which an empty send goes on the wire and the peer's poll panics on it |
| `VsockCredit.OneRequest` | src/device/socket/vsock.rs:543-562 | in every run in which nobody ends the connection, the queues take every packet and clients send no credit packets of their own: a side that was refused has exactly one request or answer under way, and any other side none |
| `VsockCredit.CreditRegained` | src/device/socket/connectionmanager.rs:623-629 | when a send is refused, nothing is under way and the peer's client has read everything, the request and its answer leave the sender with credit for the peer's whole buffer, less what it charged and could not queue, and a retry is accepted exactly within that |
| `VsockCredit.NeverRefusedForever` | src/device/socket/vsock.rs:543-562 | from every run in which nobody has ended the connection and the queues took every packet, some continuation without sending makes the sender accept data of any length up to the peer's buffer |
| `VsockCredit.StarvingRun` | src/device/socket/vsock.rs:554-557 | when the queue does not take the request: a run after which the sender believes that there is no room, although the peer's buffer is empty |
| `VsockCredit.StarvedStays` | src/device/socket/vsock.rs:554-557 | there every send is refused without asking again, nothing changes and there is nothing to poll |
| `Endpoint.HandledIsHandle` | src/device/socket/connectionmanager.rs:567-634 | what `poll` makes of an event for a connection is what the stream model's endpoint makes of it: state, packet sent and answer, every branch |
| `Endpoint.PollEndpoint` | src/device/socket/connectionmanager.rs:537-634 | the manager's `poll` of a packet for the connection is the endpoint's, errors included |
| `Endpoint.PollOther` | src/device/socket/connectionmanager.rs:551-566 | `poll` of any other packet leaves the connection alone |
| `Endpoint.RecvEndpoint` | src/device/socket/connectionmanager.rs:701-723 | the manager's `recv` is the endpoint's, with the reset after the last byte of a connection that was shut down |
| `Endpoint.CloseEndpoint` | src/device/socket/connectionmanager.rs:771-780 | `force_close` likewise |
| `Endpoint.ShutDownEndpoint` | src/device/socket/connectionmanager.rs:762-768 | `shutdown` sends the endpoint's shutdown packet and changes nothing |
| `Endpoint.RingEndpoint.Poll` | src/device/socket/connectionmanager.rs:537-634 | a connection that keeps its bytes in the circular buffer handles every packet as the endpoint does, the panic on a buffer without capacity included |
| `Endpoint.RingEndpoint.Drain` | src/device/socket/connectionmanager.rs:701-723 | and reads as it does: the bytes in the client's buffer are those that the endpoint hands out |
| `VsockOverQueues.TransmitKeeps` | src/device/socket/vsock.rs:395-408 | sending through the transmit queue appends exactly the packet's bytes, header and body, to what is under way |
| `VsockOverQueues.DeliverKeeps` | src/device/socket/vsock.rs:475-486 | so does sending through the receive queue, for packets that fit a buffer |
| `VsockOverQueues.DeviceReads` | src/device/socket/vsock.rs:487-495 | the bytes that the device's poll gets are the oldest packet under way to it |
| `VsockOverQueues.DriverReads` | src/device/socket/vsock.rs:435-443 | the bytes that the driver's poll gets are the oldest packet under way to it |
| `VsockOverQueues.WorldKeeps` | src/device/socket/vsock.rs:395-495 | every step of driver and device, queue housekeeping and teardown included, is a step of the stream model or leaves it alone; one thread per side: at most one packet is on the transmit queue, nobody polls while it waits, and the device's walk meets an indirect chain exactly where data was sent with that feature |
| `VsockOverQueues.RunInv` | src/device/socket/vsock.rs:395-495 | the queues hold exactly the packets under way in every run |
| `VsockOverQueues.EndToEnd` | src/device/socket/vsock.rs:527-541 | in every run over the two queues, through shutdown, reset and forced closing, and in both directions, the bytes read so far are a prefix, in order and without duplication, of the bytes the peer's `send` accepted |
| `VsockOverQueues.DevicePollSucceeds` | src/queue.rs:691-779 | the device's poll, whose walk is that of `pop_avail`, never finds a writable buffer, and stops the program exactly at an indirect chain or on empty data for a buffer without capacity |
| `VsockOverQueues.DriverPollSucceeds` | src/device/socket/vsock.rs:435-443 | the driver's handler fails exactly then, too |
| `VsockEnding.DoomedKept` | src/device/socket/connectionmanager.rs:605-619 | data that is doomed, by a closed receiver or by a shutdown or reset ahead of it on the way to an empty buffer, stays so in every step |
| `VsockEnding.SavedByPoll` | src/device/socket/connectionmanager.rs:605-619 | data that is not doomed stays so as long as the reader only polls: with unread bytes a disconnection waits |
| `VsockDeadlock.DeadlockedForever` | src/queue.rs:292-314 | when the driver cannot poll and fewer receive buffers are left than the device needs before it can, this is so for ever, and neither client reads anything any more |
| `VsockDeadlock.BarredForever` | src/queue.rs:774 | nor does the device ever get past an indirect chain: the driver never comes back from its `send` |
| `VsockDeadlock.StuckForever` | src/queue.rs:292-314 | in both cases the data under way to the device is never read, in any continuation of the run |
| `VsockDeadlock.FewPacketsMove` | src/queue.rs:649-688 | with fewer packets under way to the driver than it has receive buffers (one less if the device's buffers have no capacity) there is no deadlock |
| `VsockProgress.DriverCanDo` | src/device/socket/vsock.rs:395-408 | in every run a driver that waits for nothing can do what its connection allows; the transmit queue takes every packet |
| `VsockProgress.DriverCanPoll` | src/device/socket/vsock.rs:435-443 | a driver that waits for nothing and owes no answer can take the oldest packet on the receive queue, unless that panics |
| `VsockProgress.DeviceCanPoll` | src/device/socket/vsock.rs:487-495 | a device that waits for nothing and owes no answer can take the packet under way to it, unless that panics |
| `VsockProgress.DeviceCanDo` | src/device/socket/vsock.rs:475-486 | and begin what its connection allows, with packets that fit a receive buffer |
| `VsockProgress.DeviceCanSend` | src/queue.rs:649-688 | which is done as soon as the receive queue has a buffer |
| `VsockProgress.DoomedForever` | src/device/socket/connectionmanager.rs:605-619 | doomed data is never read, in any continuation of the run |
| `VsockProgress.PeaceDoomsNothing` | src/device/socket/connectionmanager.rs:605-619 | as long as neither side has shut the connection down, closed or rejected it, nothing that was sent is doomed |
| `VsockProgress.DeviceSettles` | src/device/socket/connectionmanager.rs:537-634 | from every run that is not stuck driver and device can go on until the device has taken all data under way to it and owes nothing, and lose nothing that was not doomed |
| `VsockProgress.DriverSettles` | src/device/socket/connectionmanager.rs:537-634 | likewise for the driver |
| `VsockProgress.DriverIsHeard` | src/device/socket/connectionmanager.rs:537-723 | from every run that is not stuck and in which it is not doomed, some continuation delivers to the device's client all that the driver has sent |
| `VsockProgress.DeviceIsHeard` | src/device/socket/connectionmanager.rs:537-723 | and to the driver's client all that the device has sent |
| `VsockProgress.DriverHeardIff` | src/device/socket/connectionmanager.rs:537-723 | in every state of every run, such a continuation exists exactly if all is read already, or driver and device are neither deadlocked nor in front of an indirect chain and nothing that the driver sent is doomed |
| `VsockProgress.DeviceHeardIff` | src/device/socket/connectionmanager.rs:537-723 | likewise in the other direction |
| `VsockProgress.HeardInPeace` | src/device/socket/vsock.rs:395-495 | without indirect descriptors, as long as nobody ends the connection and fewer packets are under way to the driver than it has receive buffers, all that was sent can still be read, in both directions |
| `VsockScenarios.NewWorld` | src/device/socket/vsock.rs:266-312 | for every queue size from two on, with and without indirect descriptors, every pair of ports and all allowances there is an initial state |
| `VsockScenarios.Meet` | src/device/socket/connectionmanager.rs:589-603 | from it the two sides come to have the connection, over the queues, with each packet returned and popped before the next |
| `VsockScenarios.ShutsDown` | src/device/socket/connectionmanager.rs:605-615 | a shutdown that finds nothing unread closes the connection at the device, which answers with a reset |
| `VsockScenarios.SendsInVain` | src/device/socket/vsock.rs:527-541 | the driver's `send` then still puts its packet on the queue, gets it back and answers Ok, while the device ignores it |
| `VsockScenarios.LosingRun` | src/device/socket/connectionmanager.rs:605-615 | so, for every queue size from two on, direct descriptors and all data within the credit, there is a run from a new system in which `send` answers Ok and after which no continuation delivers what was accepted |
| `VsockScenarios.EmptyDataStops` | src/device/socket/connectionmanager.rs:852-858 | and, with buffers of capacity zero at the driver, one in which the device's client sends nothing, is told Ok, and the driver's next poll panics |
| `VsockScenarios.DeadlockingRun` | src/queue.rs:292-314 | for every setup and all data within the credit there is a run from a new system in which both sides send, wait for each other for ever, and the data is never read although nobody has ended the connection |
| `VsockScenarios.IndirectRun` | src/queue.rs:774 | for every setup with indirect descriptors there is one in which the device's poll panics on the driver's first data, which is never read |
| `ConnectionManager.FindForEvent` | src/device/socket/connectionmanager.rs:804-814 | the search for an event finds the connection with its peer and port, if the event is addressed to us |
| `ConnectionManager.StandsSwapRemove` | src/device/socket/connectionmanager.rs:774 | `swap_remove` removes exactly that entry of the map |
| `ConnectionManager.RetainOthers` | src/device/socket/connectionmanager.rs:241-245 | `retain` by identity removes at most the one connection, and the list still stands for a map |
| `ConnectionManager.Manager.BeginConnect` | src/device/socket/connectionmanager.rs:221-234 | `ConnectionExists` exactly if there is one for the pair; otherwise a new one is registered |
| `ConnectionManager.Manager.FinishConnect` | src/device/socket/connectionmanager.rs:236-249 | when the request cannot be sent, exactly this connection is removed, however the list has changed meanwhile; the listeners stay |
| `ConnectionManager.Manager.Callback` | src/device/socket/connectionmanager.rs:542-579 | the callback's effect on the map and its answer, for every event |
| `ConnectionManager.Manager.React` | src/device/socket/connectionmanager.rs:581-634 | the second lookup always succeeds; the effect on the map, the packet sent and the answer, for every event |
| `ConnectionManager.Manager.Poll` | src/device/socket/connectionmanager.rs:537-634 | keeps at most one connection per (peer, local port); decoding errors change nothing; the connection of the event, and no other, becomes what the event asks for; exactly connection requests, shutdowns with nothing unread and credit requests are answered, each with the packet written out, a credit request with a credit update that tells of the buffer; every connection that ends here by disconnection had all its data read; unread data goes exactly if the packet asks us for an existing connection on a port without listener |
| `ConnectionManager.Manager.Recv` | src/device/socket/connectionmanager.rs:701-723 | hands out the oldest unread bytes; the call that empties a connection shut down by its peer removes it, and if the reset cannot be sent then, the client gets the error and no length; it panics exactly without capacity |
| `ConnectionManager.Manager.ShutDown` | src/device/socket/connectionmanager.rs:762-768 | only asks the peer |
| `ConnectionManager.Manager.ForceClose` | src/device/socket/connectionmanager.rs:771-780 | removes the connection even if the packet cannot be sent |
| `ConnectionManager.DisconnectionWaits` | src/device/socket/connectionmanager.rs:605-619 | a disconnection removes a connection exactly if all its data was read, otherwise it keeps the data and marks it; no other connection changes |
| `ConnectionManager.DataLostIff` | src/device/socket/connectionmanager.rs:589-603 | an event for us takes unread data away exactly if it is a connection request for an existing connection on a port without listener |
| `ConnectionManager.RequestDropsData` | src/device/socket/connectionmanager.rs:547-603 | how that happens from a new manager on: connect, data, request from the peer, and the data is gone unread |
| `ConfigSnapshot.NothingTorn` | src/transport/mod.rs:187-196 | what is read between two reads of the same generation, errors included, is what a single moment gives |
| `ConfigSnapshot.ReadConsistent` | src/transport/mod.rs:187-196 | the retry loop returns what the closure gives at a single moment, error or value, at the first attempt during which the device announces nothing |
| `ConfigSnapshot.ReadU64` | src/device/blk.rs:59-62 | the 64-bit value, low half first, is one the device had at a single moment; an error means that the space was too small; retries go on exactly while every attempt is disturbed |
| `ConfigSnapshot.WrapTearsReads` | src/transport/mod.rs:187-196 | when the generation comes round within one attempt, the halves can be of different moments |
| `QueueLayout.AlignUp` | src/lib.rs:174-176 | clearing the low bits is rounding down to a page |
| `QueueLayout.AlignUpExact` | src/lib.rs:174-176 | `align_up` is the least multiple of the page size not below the argument exactly when the argument is no multiple; otherwise it is one page more |
| `QueueLayout.NeverWholePages` | src/queue.rs:1059-1069 | for every power-of-two size, neither 18n + 6 nor 8n + 6 is a multiple of the page size |
| `QueueLayout.LegacyFollowsStandard` | src/queue.rs:892-903 | the offset of the used ring and the size of the region are those of section 2.6.2 of VirtIO v1.1 |
| `QueueLayout.LegacySound` | src/queue.rs:892-903 | the three parts are disjoint, aligned and inside the pages allocated |
| `QueueLayout.FlexibleSound` | src/queue.rs:910-918 | likewise for two separate regions |
| `QueueLayout.FieldsSound` | src/queue.rs:1059-1078 | every field of a descriptor, ring slot, flag and index lies inside its part, aligned and apart from every other, and the rings end with their last field |
| `QueueLayout.LegacyFields` | src/queue.rs:892-903 | so it is in every legacy layout |
| `QueueLayout.FlexibleFields` | src/queue.rs:910-918 | and in every flexible one |
| `QueueLayout.PagesCover` | src/lib.rs:179-181 | `pages` is the least number of pages that hold the size |
| `QueueLayout.QueueSetLegacy` | src/transport/mmio.rs:405-418 | the assertions of `queue_set` hold exactly for the legacy offsets and a page-aligned address below 2^44 |
| `QueueLayout.SetUpLegacy` | src/transport/mmio.rs:405-418 | so they hold for every legacy layout in such pages |

## Left out

- In-place update of the descriptor shadow table, the rings and the indirect lists: these are sequence-valued fields that the methods reassign, so aliasing of the underlying arrays is not modelled. The byte ring, the network slots, the console page and the sound driver's windows are arrays.
- Weak memory: the single accesses of `SingleAccesses` happen in one order that both sides see. `QueueChannel`, `RingWakeUp` and the vsock modules take whole operations as steps; `SingleAccesses.Refines` shows for one queue that its interleavings are runs of such steps, but it is not carried over to those modules.
- The HAL's addresses: they are arguments, and the protocol takes those of live buffers and tables to be different; bounce buffers are not modelled.
- DeviceVirtQueue.DeviceVirtQueue.PopAvail: mapping bus memory on the device side is taken to succeed.
- DMA mapping balance in the device queue, and returning every chain that the device has popped (its error paths keep it).
- QueuePair.QueuePair.AddUsed: the bytes that the caller of `add_used` wrote are named in the contract only; `QueuePair.Poll` and `QueuePair.WaitPopAddNotify` are the operations that write.
- The spin loops of `add_notify_wait_pop`, `wait_pop_add_notify`, `wait_for_receive` and `wait_for_event`: that they end depends on the other side. For vsock a loop that waits is a step that is not possible yet, and `VsockDeadlock` says which waits never end.
- PcmTransfer.PcmXfer: nothing else may be outstanding on the transmit queue when it starts, and the device answers in order.
- VsockStream.SendOut: the credit check and the charge of `send` are one step, that is, one client operation at a time per connection.
- VsockStream.StreamLaw: one lifetime of a connection, from its request to its end; a second connection on the same pair of ports is not covered, nor are two requests that cross.
- VsockOverQueues.EndToEnd: towards the driver each packet must fit one receive buffer; the source panics otherwise. A packet towards the device is sent only when the one before it was popped, because `send_packet_to_tx_queue` holds the queue's lock while it waits. Each side has one thread: one that polls beside another that sends would not be held up by it.
- VsockCredit.NeverRefusedForever: is about two endpoints over channels, with buffers that have capacity; over the queues driver and device can be deadlocked before (`VsockDeadlock`).
- ConnectionManager.Manager.Poll: the identity of a connection's shared pointer is a number, each critical section is one method, and its ring buffer appears as the byte sequence it holds (`Endpoint.RingEndpoint` has the ring itself); the manager's own `send` and the listener list are left out.
- `poll_direct` and `accept` of the connection manager: they do not check for duplicates and remove a reset connection at once.
- `embedded_io` reading for the console: it copies without advancing the cursor.
- Block, GPU, RNG, input and sound control requests: thin wrappers over one queue operation.
- MMIO, PCI and hypercall register access, feature negotiation and status writes.
- The PCI BAR allocator of the example kernel: it would only add easy members.
