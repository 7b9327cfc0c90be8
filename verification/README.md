# Verification of the lpc17xx network stack

This project models the kernel services and the network protocols of the lpc17xx stack and proves
what they promise. Each file covers one part of the system.

| file | part of the system |
|---|---|
| `Sequences.dfy` | lists of addresses and identifiers, shared by the other files |
| `Words.dfy` | 32-bit words and the conversion of a request to a block size |
| `WordBits.dfy` | the masks on words, bit by bit, and the arithmetic that stands for them |
| `Rings.dfy` | circular doubly linked lists in a flat memory |
| `Blocks.dfy` | heap layouts: splitting, merging and coalescing as operations on block sequences |
| `HeapMemory.dfy` | how a layout and its free list lie in memory: boundary tags and embedded links |
| `Heap.dfy` | the allocator, as in-place updates of one array of words |
| `HeapLaws.dfy` | what holds over whole runs of allocations and frees |
| `Scheduler.dfy` | processes, the run queue and wait queues: the steps and their laws |
| `RingFamilies.dfy` | several lists of process blocks and wait records that share one memory |
| `Processes.dfy` | the scheduler in memory: every step as link and state writes on those lists |
| `Kernel.dfy` | scheduler and heap in one memory: process blocks, stacks and wait records as allocations |
| `WorkQueues.dfy` | producers and sleeping consumers |
| `Checksum.dfy` | the Internet checksum and byte order |
| `CircularBuffer.dfy` | the byte ring for received data |
| `Tcp.dfy`, `TcpStreams.dfy`, `TcpBlock.dfy` | a TCP connection block: its state machine, what it delivers over runs, and the block updated in place |
| `Arp.dfy` | pending ARP requests |
| `Encapsulation.dfy` | UDP, IPv4 and Ethernet headers, and the receive dispatch loop |

How the parts are modelled:

- **Memory.** A memory is an array indexed by byte address. Entry `a`, for `a` a multiple of 4, is the
  32-bit word at byte address `a`; the other entries stand for no storage and are never used. The
  heap may have any base and any size that is a multiple of 4 and at least 16, small enough for sums
  of block sizes not to wrap; the head of the free list lies anywhere outside it.
- **Objects updated in place** are classes (`Heap`, `ProcessTable`, `Kernel`, `CircularBuffer`, `Tcb`,
  `ArpState`, `Packet`, `Stack`). Their methods are proved against functions on plain values, and the
  laws are proved about those functions, over every run.
- **Interrupts.** A region with interrupts off is one step.

Where the code and what one would expect of it differ, the model follows the code:

- A request above 0xFFFFFFF4 bytes wraps and is given the least block (`Words.BlockSizeExact`,
  `Words.WrappingRequest`).
- A payload that does not fit in the receive ring is dropped and acknowledged all the same
  (`TcpStreams.ReceiveStream`, `TcpStreams.RefusedByte`).
- An acknowledgement behind our sequence number moves it back (`TcpStreams.AckKeepsSum`,
  `TcpStreams.StaleAck`).
- A segment that reaches a block in TIME_WAIT stops its timer for good, so that the block is never
  removed (`Tcp.TimeWaitRemoval`, `Tcp.TimeWaitStuck`).
- A segment takes a block where the diagram of RFC 9293 says exactly outside five cases: SYN_SENT takes
  anything but SYN with ACK for a refusal, SYN_RECEIVED takes an ACK of anything, FIN_WAIT2 wants an ACK
  with the FIN, CLOSING takes any segment, and LAST_ACK has no case (`Tcp.ConformsExactly`, `Tcp.Deviations`).
- In CLOSING an acknowledgement number is overwritten by the acknowledgement flag (tcp.c:325-326;
  `Tcp.ClosingAck`).
- A FIN in FIN_WAIT2 is answered with the acknowledgement number as it was, because tcp.c:315 compares
  where an assignment was meant (`Tcp.FinWait2Ack`, `Tcp.FinNotCovered`).
- Only the newest of several requests for the same address is answered by a reply
  (`Arp.AnsweredExactly`, `Arp.OlderRequestWaits`).
- Any segment for a block in CLOSE_WAIT halts the code, and nothing else does (`Tcp.HaltsExactly`).
  Acknowledged bytes that are in the ring when the peer's FIN arrives are delivered exactly when the user
  closes before any segment comes, and then reads (`TcpStreams.StrandedExactly`).
- The total length of an IPv4 packet and the length of a UDP datagram are not looked at on the way up
  (ipv4.c:60-62, udp.c:71-72): what follows the datagram, such as the padding that Ethernet adds to
  payloads of less than 18 bytes, is delivered behind the payload (`Encapsulation.RoundTrip`).
- The transmit and receive queues insert and remove at the head, so no order of arrival is claimed.

## Model

| member | source | states |
|---|---|---|
| `Words.BlockSizeExact` | memory.c:599-615 | exactly the requests up to 0xFFFFFFF4 get the least multiple of 4 with room for them and two tags, at least 16; larger ones wrap to 16 |
| `Words.BlockSizeSmall` | macros.h:55 | the converted size exceeds the request by at least 8 and at most 19 bytes |
| `Words.RoundUp` | macros.h:55 | in wrap-around arithmetic the double negation rounds up to a multiple of 4 |
| `WordBits.AlignIsMask` | macros.h:54-55 | on the bits of a word, the alignment is the mask -4 |
| `Words.WrappingRequest` | memory.c:607-612 | the least request that wraps is given the least block |
| `Rings.RingInsert` | list.c:4-10 | linking a detached node in anywhere gives the ring with the node at that place, both ways round |
| `Rings.RingRemove` | list.c:22-28 | unlinking a node gives the ring without it |
| `Rings.ListAdd` | list.c:12-15 | the node becomes the first of the ring, and only four link words change |
| `Rings.ListAddTail` | list.c:17-20 | the node becomes the last of the ring, and only four link words change |
| `Rings.ListDel` | list.c:22-28 | the node leaves the ring, its links become NULL, and only four link words change |
| `Rings.ListEmpty` | list.c:42-45 | the test is true exactly for the ring without nodes |
| `Rings.ListPop` | list.h:42-48 | the first node is unlinked and returned and only four link words change, or NULL and nothing changes |
| `Rings.ForEach` | list.h:37-40 | the walk ends and visits every node once, in list order |
| `Rings.DeleteEach` | list.h:50-53 | deleting every node while walking still visits each once, in order, and empties the list |
| `Rings.RingUnique` | list.h:11-13 | the links in memory determine the list |
| `WordBits.TagMasks` | memory.c:182-183 | on the bits of a tag, size and flag are what the masks extract |
| `HeapMemory.NeighboursInverse` | memory.c:383-406 | finding the next block by the header and the previous one by the footer are inverse, and NULL exactly at the ends of the heap |
| `HeapMemory.AddStep` | memory.c:459-481 | freeing a block keeps tiling, tags and ring, and touches no other allocated block |
| `HeapMemory.RemoveStep` | memory.c:483-495 | taking a block off the free list keeps tiling, tags and ring, and touches no allocated block |
| `HeapMemory.ReshapeStep` | memory.c:544-563 | retagging allocated blocks as others of the same total size keeps everything else |
| `HeapAllocator.Heap.constructor` | memory.c:588-597 | after set-up one free block covers the heap, whatever the memory held |
| `HeapAllocator.Heap.FreeListAdd` | memory.c:459-481 | the block becomes free and first on the free list |
| `HeapAllocator.Heap.FreeListRemove` | memory.c:483-495 | the block leaves the free list and becomes allocated |
| `HeapAllocator.Heap.FreeListFind` | memory.c:497-523 | the search ends and returns the first block of the free list that is large enough, or NULL when there is none |
| `HeapAllocator.Heap.BlockPrev` | memory.c:383-394 | the block before, or NULL for the first |
| `HeapAllocator.Heap.BlockNext` | memory.c:396-406 | the block after, or NULL for the last |
| `HeapAllocator.Heap.BlockSplit` | memory.c:544-563 | an allocated block becomes two, exactly when the rest can hold a block |
| `HeapAllocator.Heap.BlockMerge` | memory.c:565-587 | two free neighbours, in either order, become one free block, first on the free list; otherwise nothing changes |
| `HeapAllocator.Heap.GetMem` | memory.c:617-652 | allocation is first fit with splitting on the abstract heap; no word of an allocated block changes; a failing request changes nothing |
| `HeapAllocator.Heap.FreeMem` | memory.c:654-690 | liberation merges with both free neighbours on the abstract heap; no word of another allocated block changes |
| `HeapAllocator.Heap.UserWrite` | memory.c:435-439 | whatever callers store in their payloads, the heap stays well formed |
| `Blocks.ReleaseCoalesced` | memory.c:671-687 | after a free no two neighbours are both free |
| `Blocks.GrantCoalesced` | memory.c:640-645 | after an allocation no two neighbours are both free |
| `HeapLaws.AllocateKeeps` | memory.c:617-652 | allocation adds exactly one allocated block, a new one, and keeps the invariant |
| `HeapLaws.LiberateKeeps` | memory.c:654-690 | liberation takes away exactly the freed block and keeps the invariant |
| `HeapLaws.RunKeeps` | memory.c:588-690 | over every run the heap is tiled and coalesced and the free list holds every free block exactly once |
| `HeapLaws.AllocateComplete` | memory.c:497-523 | an allocation fails exactly when no stretch of that many bytes of the heap is unallocated |
| `HeapLaws.LayoutCanonical` | memory.c:565-587 | the layout is a function of the allocated blocks alone |
| `HeapLaws.RunsAgree` | memory.c:617-690 | runs that leave the same blocks allocated leave the same layout |
| `HeapLaws.FreesLegal` | memory.c:654-690 | a sequence of frees is legal exactly when it frees distinct live pointers |
| `HeapLaws.FreeOrderIrrelevant` | memory.c:654-690 | freeing the same pointers in any other order is legal too and gives the same layout |
| `HeapLaws.ValidStates` | memory.c:588-597 | a heap object between two calls is in a state to which these laws apply |
| `HeapLaws.FreeUndoesGet` | memory.c:617-690 | freeing what was just allocated restores the layout |
| `HeapLaws.AllFreed` | memory.c:588-690 | when everything is freed, one free block covers the heap |
| `HeapLaws.LastFreedFirst` | memory.c:459-481 | what was freed last is allocated first: the next request that fits gets the free block it became part of |
| `HeapLaws.PayloadsDisjoint` | memory.c:147-152 | payloads are aligned, inside the heap and disjoint |
| `HeapLaws.PayloadSize` | memory.c:617-652 | a payload has at least the bytes asked for and at most 19 more, all of them unallocated before |
| `Scheduling.StepKeeps` | process.c:36-67 | every step keeps each process in exactly one place, agreeing with its state, with one wait record per waiting process |
| `Scheduling.Reachable` | process.c:102-184 | the same in every state that a run from boot can reach, whatever the idle process's state word held |
| `Scheduling.OnePlace` | process.h:27-37 | what that means for one process, in each of its three states |
| `Scheduling.ReapKeeps` | process.c:116-125 | a process is reaped only when it is in no other place, and is then in none |
| `Scheduling.LastFinishedFirst` | process.c:60-67 | the process that finished last is the first to be reaped |
| `Scheduling.BlockKeeps` | wait.c:11-17 | blocking creates one wait record for the process that leaves the processor |
| `Scheduling.PickPlaces` | process.c:147-184 | picking moves the current process to the run queue, if it still runs, and the head of the queue or the idle process to the processor |
| `Scheduling.WakeEffect` | wait.c:19-34 | a wakeup empties its wait queue and puts its processes, oldest first, before the old run queue, and moves no other process |
| `Scheduling.LastSleeperLast` | wait.c:11-34 | a wakeup runs the waiters in the order in which they went to sleep |
| `Scheduling.WakeStates` | process.c:36-44 | a wakeup marks exactly its processes RUNNING |
| `Scheduling.BoundedBypass` | process.c:147-184 | a process at position k becomes current at the pick numbered k plus the head insertions until then plus one |
| `Scheduling.Undisturbed` | process.c:147-184 | with no head insertions, it becomes current at exactly pick k plus one |
| `Scheduling.RoundRobin` | process.c:149-173 | without blocking, finishing, spawning or waking, picks rotate the processes |
| `Scheduling.FullRound` | process.c:149-173 | one turn each brings the scheduler back where it was |
| `RingFamilies.RingChanged` | list.c:4-28 | when links of one list are rewritten, the other lists and all third words of objects stay |
| `RingFamilies.AddFirst` | list.c:12-15 | an object on no list becomes the first of one; the other lists, the third words and all other memory stay |
| `RingFamilies.AddLast` | list.c:17-20 | an object on no list becomes the last of one; the other lists, the third words and all other memory stay |
| `RingFamilies.Delete` | list.c:22-28 | an object leaves its list and is on none; the other lists, the third words and all other memory stay |
| `RingFamilies.PopFirst` | list.h:42-48 | the first object leaves the list and is returned, or NULL and nothing changes |
| `RingFamilies.InitLists` | list.h:17-22 | every list head comes up as an empty list, whatever the memory held |
| `Processes.ProcessTable.constructor` | process.c:128-145 | list heads and idle process represent the scheduler at boot, whatever the memory held |
| `Processes.ProcessTable.ProcessWakeup` | process.c:36-45 | in memory, the process moves from its place on the ring of waiting processes to the head of the run queue and is marked RUNNING; other lists and memory stay |
| `Processes.ProcessTable.PickNewTask` | process.c:147-184 | in memory, the pick of the scheduler: back to the tail of the run queue if still RUNNING, then its head or the idle process |
| `Processes.ProcessTable.Preempt` | process.c:147-184 | a switch at any moment keeps the memory a representation of a scheduler state that satisfies the invariant |
| `Processes.ProcessTable.Leave` | process.c:51-67 | in memory, the current process goes to the head of another queue with another state word |
| `Processes.ProcessTable.ProcessWait` | process.c:51-58 | in memory, the current process goes to the ring of waiting processes, is marked WAITING, and another one becomes current |
| `Processes.ProcessTable.AddRecord` | wait.c:11-16 | in memory, a record that names the current process becomes the first of the wait queue |
| `Processes.ProcessTable.WaitqueueWait` | wait.c:11-17 | record, ring of waiting processes, state word and switch together are the step Block |
| `Processes.ProcessTable.FreeFirst` | wait.c:29-30 | the first record leaves the wait queue and is given up, ready for free_mem |
| `Processes.ProcessTable.WaitqueueWakeup` | wait.c:19-34 | the loop that deletes as it iterates ends; it is the step Wake, frees the records of its queue once each in list order, and changes no list, state word or memory beyond that |
| `Processes.ProcessTable.ProcessFinish` | process.c:60-67 | in memory, the step Finish |
| `Processes.ProcessTable.ProcessSpawn` | process.c:102-110 | a block apart from all those in use is a legal new process, and joining it is the step Spawn |
| `Processes.ProcessTable.ReapOne` | process.c:116-125 | the head of the dead queue leaves it and is given up, ready for free_mem |
| `Processes.CurrentUnlisted` | process.c:168-169 | what picking relies on: the current process is on no list |
| `Processes.OwnerWaits` | wait.c:28 | what waking relies on: the owner of a record is on the ring of waiting processes |
| `Processes.StateWritten` | process.c:43 | a state word can be written without disturbing lists, records or other processes |
| `WorkQueues.Reachable` | wait.h:6-18 | in every run from boot, whenever somebody sleeps on the wait queue of a work queue, that is empty or a producer is still to send the wakeup, and every process is in exactly one place; other wait queues may be slept on and woken at any time |
| `WorkQueues.RunKeepsPlaces` | process.c:36-67 | producers and consumers keep every process in exactly one place, over every run |
| `Kernels.JointFrame` | list.c:4-28 | what the scheduler writes touches no boundary tag, no link of the free list and no allocation but those of its own objects |
| `Kernels.JointKept` | memory.c:428-433 | what the heap writes touches no process block, wait record or list head |
| `Kernels.Kernel.constructor` | process.c:128-145 | heap and scheduler at boot, in one memory |
| `Kernels.Kernel.WakeFirst` | wait.c:24-31 | one waiter is woken, and its record unlinked and freed by free_mem: scheduler and heap stay valid, and exactly that allocation is gone |
| `Kernels.Kernel.WaitqueueWakeup` | wait.c:19-34 | the whole loop, with free_mem: the step Wake, exactly the records of the queue freed, and no word of any allocation of others changed |
| `Kernels.RoomIsStretch` | memory.c:497-523 | there is room for a block exactly when some stretch of the heap of its size is unallocated |
| `Kernels.Kernel.WaitqueueWait` | wait.c:11-17 | with the record from get_mem: the step Block, exactly when the heap has room for a record |
| `Kernels.Kernel.ReapOne` | process.c:116-125 | the step Reap, with the stack and the block of the dead process freed by free_mem and nothing else |
| `Kernels.Kernel.TakeTwo` | process.c:69-76 | the two allocations of a process, made exactly when there is room for both |
| `Kernels.Kernel.CreateProcess` | process.c:69-100 | a block and a stack of 0x400 bytes from get_mem, the one holding the address of the other, exactly when there is room for both |
| `Kernels.Kernel.ProcessSpawn` | process.c:102-110 | the step Spawn, exactly when the heap has room for block and stack, which are then the only new allocations |
| `Kernels.Kernel.ProcessFinish` | process.c:60-67 | the step Finish, which leaves the heap as it is |
| `Kernels.Kernel.Preempt` | process.c:147-184 | a switch leaves the heap as it is |
| `Kernels.Kernel.TakeBlock` | memory.c:617-652 | get_mem by any caller succeeds exactly when there is room, and leaves the scheduler as it is |
| `Kernels.Kernel.GiveBack` | memory.c:654-690 | free_mem by any caller, of what is no record, process block or stack, leaves the scheduler as it is |
| `WorkQueues.StartSafe` | wait.h:6-18 | that holds at boot for any contents of the work queues |
| `WorkQueues.RunNoLostWakeup` | wait.h:6-18 | the same for every run that starts where it holds |
| `WorkQueues.ActKeeps` | ethernet.c:42-46 | the same for one step of a producer, a consumer or the scheduler |
| `WorkQueues.ActKeepsPlaces` | process.c:36-67 | producers and consumers keep every process in exactly one place |
| `WorkQueues.InjectedQueue` | protocol.c:29-36 | on a queue fed by packet_inject alone, a sleeping consumer means an empty queue |
| `WorkQueues.RunConserves` | ipv4.c:107-111 | every item put on a queue is still there or was taken once |
| `WorkQueues.PendingCounts` | ethernet.c:42-46 | a counter is the number of producers that put an item on the queue less those that woke its wait queue and returned |
| `WorkQueues.AllReturned` | ethernet.c:42-46 | in a run from boot in which every producer has returned, a sleeping consumer means an empty queue |
| `WorkQueues.CheckSleeps` | wait.h:6-18 | a consumer that checks its queue goes to sleep exactly when that is empty, and on its own wait queue |
| `WorkQueues.LastInFirstOut` | ethernet.c:124-129 | what was put on a queue last is taken first |
| `WorkQueues.PutCounts` | ethernet.c:42-46 | what was put on the queues over a run is what its producers put there |
| `WorkQueues.ActShape` | ethernet.c:42-46 | an action leaves the work queues and producers of other queues alone |
| `WorkQueues.ActIsStep` | wait.c:19-34 | producers and consumers act on the scheduler by its own steps only |
| `WorkQueues.NothingElseRuledOut` | wait.h:6-18 | a producer can always send its wakeup, and only sleeping without checking is ruled out |
| `WorkQueues.NotifiedRuns` | ethernet.c:124-129 | a notified consumer becomes current within as many picks as there were sleepers, plus the head insertions until then |
| `Checksum.ChecksumVerifies` | ipv4.c:35-48 | the stored checksum makes the whole sum fold to 0xFFFF, also when all words are zero |
| `Checksum.FoldUnique` | ipv4.c:44-45 | folding gives the one residue modulo 65535 that is zero exactly for a zero sum |
| `Checksum.SameBytesOnTheWire` | ipv4.c:27-48 | summing network-order data as little-endian words and storing without swapping gives the bytes of the big-endian checksum |
| `Checksum.FoldSwaps` | tcp.c:67-73 | byte order only swaps the bytes of the folded sum |
| `Checksum.SumAndFold` | tcp.c:67-71 | the 32-bit accumulator does not overflow, the fold loop ends, and the result is the folded sum |
| `Checksum.IpChecksum` | ipv4.c:35-48 | the header differs in its checksum field alone, and verifies if that was zero |
| `Checksum.TcpChecksum` | tcp.c:46-76 | the header differs in its checksum field alone, and a receiver who adds up pseudo-header, header and a payload of even or odd length gets 0xFFFF |
| `Checksum.CoveredSum` | tcp.c:59-68 | the sum is over pseudo-header, header and all of the payload, padded to whole words |
| `Checksum.Swap16Reverses` | byteswap.c:3-6 | swapping reverses the bytes and is an involution |
| `Checksum.Swap32Reverses` | byteswap.c:8-12 | swapping reverses the bytes and is an involution |
| `Checksum.SwapIsSwap16` | byteswap.c:3-6 | the bit expression is the swap of bytes that the checksum laws speak of |
| `Checksum.SwapEndian16` | byteswap.c:3-6 | the field is swapped in place |
| `Checksum.SwapEndian32` | byteswap.c:8-12 | the field is swapped in place |
| `CircularBuffers.CircularBuffer.constructor` | cbuf.c:4-8 | the ring starts empty, whatever its capacity |
| `CircularBuffers.CircularBuffer.Push` | cbuf.c:28-46 | all the bytes are appended if they fit, and otherwise none |
| `CircularBuffers.CircularBuffer.Pop` | cbuf.c:49-67 | the oldest bytes move to the destination if there are that many, and otherwise nothing changes |
| `CircularBuffers.CircularBuffer.Usage` | cbuf.c:23-26 | the number of bytes pushed and not popped |
| `Tcp.ChangesAreEdges` | tcp.c:198-333 | every state change by a segment or a close is an edge of the diagram in section 3.3.2 of RFC 9293 and raises a rank |
| `Tcp.ConformsExactly` | tcp.c:198-333 | which segments take a block to the state that the diagram gives, and which do not |
| `Tcp.Deviations` | tcp.c:198-333 | a run of a new connection, and a segment, for each of the five cases in which they differ |
| `Tcp.ClosingAck` | tcp.c:323-331 | in CLOSING a segment keeps the acknowledgement number exactly when it has no ACK or the number is 1 |
| `Tcp.FinWait2Ack` | tcp.c:309-322 | the answer to a FIN in FIN_WAIT2 covers that FIN exactly when the number did so before |
| `Tcp.FinNotCovered` | tcp.c:309-322 | a run after which it does not |
| `Tcp.OpenAnswered` | tcp.c:203-223 | an accepted SYN is acknowledged, and the peer's window kept |
| `Tcp.PassiveOpen` | tcp.c:225-239 | a SYN names the peer and its first number, and the ACK after it names ours |
| `Tcp.EstablishedAnswered` | tcp.c:240-271 | which segments are answered in ESTABLISHED, with what sequence and acknowledgement number and window |
| `Tcp.FinAnswered` | tcp.c:283-308 | in FIN_WAIT1 exactly a FIN is answered, with the FIN covered |
| `Tcp.Unanswered` | tcp.c:198-348 | nothing else is answered |
| `Tcp.Ignored` | tcp.c:187-333 | which segments only stop the timer |
| `Tcp.FinSent` | tcp.c:469-500 | the FIN of a close, and when the sequence number counts it |
| `Tcp.TimerAfterSegment` | tcp.c:187-191 | every segment stops the timer, and one that leads to TIME_WAIT starts it at 250 |
| `Tcp.TickCounts` | tcp.c:505-517 | the countdown is one of 16 bits, which expires and wraps at the tick that finds it at zero |
| `Tcp.PeerKept` | tcp.c:225-232 | peer, window and ring stay the same after the handshake |
| `Tcp.ReadTakes` | tcp.c:446-464 | a read takes the oldest bytes, as many as asked for or else all there are |
| `Tcp.ConnectTimesOut` | tcp.c:502-519 | a connection being opened times out on exactly its 251st tick without a segment |
| `Tcp.NoRevisit` | tcp.c:187-333 | no run comes back to a state it has left |
| `Tcp.NoByteAfterEstablished` | tcp.c:240-271 | once ESTABLISHED is left, the ring only loses bytes from its front |
| `Tcp.HaltsInCloseWait` | tcp.c:193-196 | a segment for a block in CLOSE_WAIT stops the code for good |
| `Tcp.HaltsExactly` | tcp.c:187-333 | a run halts exactly when some segment of it finds the block live and in CLOSE_WAIT |
| `Tcp.TimeWaitRemoval` | tcp.c:502-519 | a block that entered TIME_WAIT is removed on exactly its 251st tick, and only if no segment comes before |
| `Tcp.TimeWaitStuck` | tcp.c:187-191 | a block in TIME_WAIT whose timer a segment stopped is never removed |
| `TcpStreams.ReceiveStream` | tcp.c:260-266 | bytes delivered followed by the ring are the accepted payloads in order, exactly when every payload fitted |
| `TcpStreams.RefusedByte` | tcp.c:260-266 | a byte for a full ring is dropped, and acknowledged |
| `TcpStreams.StrandedBytes` | tcp.c:454-455 | until the user closes, no byte is delivered from CLOSE_WAIT, and the ring stays as it was |
| `TcpStreams.StrandedExactly` | tcp.c:454-464 | bytes in the ring in CLOSE_WAIT are delivered exactly when the user closes before any segment comes, and then reads |
| `TcpStreams.AckNumber` | tcp.c:254-308 | until both FINs were exchanged or ours was acknowledged, the acknowledgement number is the peer's initial number plus one plus the bytes accepted, plus one after its FIN |
| `TcpStreams.AckKeepsSum` | tcp.c:244-252 | an acknowledgement keeps sequence number plus unacknowledged count exactly when it is not behind, as a signed difference |
| `TcpStreams.StaleAck` | tcp.c:244-252 | one that is behind moves the sequence number back, for instance in a run of two segments |
| `TcpStreams.SendAccount` | tcp.c:234-252 | with acknowledgements in the window, bytes sent are bytes acknowledged plus the count, and the sequence number has passed the acknowledged ones |
| `TcpStreams.SendNumber` | tcp.c:198-333 | over every in-window run of a new connection, our number is 1025 plus the bytes acknowledged, plus one for our FIN if we closed first |
| `TcpStreams.FinNumber` | tcp.c:469-500 | a FIN that we send first, with everything acknowledged, has the number after our last byte |
| `TcpStreams.SendReturns` | tcp.c:426-442 | when tcp_tx_data returns, in whatever state the connection is by then, every byte sent has been acknowledged |
| `TcpStreams.FreshConnections` | tcp.c:352-424 | new connections start the accounts at zero |
| `TcpBlock.Tcb.Connect` | tcp.c:352-369 | the block tcp_connect sets up |
| `TcpBlock.Tcb.Accept` | tcp.c:390-404 | the block tcp_listen sets up |
| `TcpBlock.Tcb.RxPacket` | tcp.c:187-348 | the block and the reply after a segment, with the fall-through of FIN_WAIT1 into FIN_WAIT2 |
| `TcpBlock.Tcb.EstablishedCase` | tcp.c:240-271 | acknowledgement, then FIN, then data |
| `TcpBlock.Tcb.FinWait1Case` | tcp.c:283-322 | the three tests of FIN_WAIT1 and what they fall through to |
| `TcpBlock.Tcb.CloseConnection` | tcp.c:469-500 | the block and the FIN sent by a close |
| `TcpBlock.Tcb.TickBlock` | tcp.c:505-517 | the countdown, tested before it is decremented |
| `TcpBlock.Tcb.TxData` | tcp.c:426-436 | the count of unacknowledged bytes after a send |
| `TcpBlock.Tcb.RxRound` | tcp.c:446-464 | one round of a read moves the oldest bytes, at least one, or gives up in CLOSE_WAIT |
| `Arp.RunKeeps` | arp.c:36-53 | over every run, the pending ring holds no request twice and exactly the unfinished ones, and every table entry repeats a received reply |
| `Arp.Reachable` | arp.c:36-53 | in every run from the start, a request is pending exactly until it is finished, by an answer from a received reply or by timing out on its 251st tick, never both |
| `Arp.FinishedStays` | arp.c:189-195 | a finished request never changes again |
| `Arp.TimesOutExactly` | arp.c:45-49 | a pending request times out on exactly its 251st tick |
| `Arp.AnsweredExactly` | arp.c:163-201 | which replies answer a request, and with what |
| `Arp.ReplyEffect` | arp.c:163-201 | a reply that answers a request adds its sender to the table and takes that request off the ring; any other reply changes nothing |
| `Arp.AnswersWhatWasAsked` | arp.c:97-102 | over every run, a request keeps its address, and its answer is for that address |
| `Arp.QuietTick` | arp.c:36-53 | a tick that ends no request leaves the ring as it is |
| `Arp.OlderRequestWaits` | arp.c:174-196 | of two requests for one address, a reply answers the newer and the older goes on waiting |
| `Arp.ArpState.AddRequest` | arp.c:97-102 | the request goes to the head of the pending ring |
| `Arp.ArpState.ArpTick` | arp.c:36-53 | the loop ages every request and unlinks those that time out |
| `Arp.ArpState.RxReply` | arp.c:163-201 | the loop answers the first matching request and no other; the callers' wait queue is woken exactly for a reply to us |
| `Arp.ArpState.Lookup` | arp.c:72-77 | an entry for the address that some reply justifies, or none exists |
| `Encapsulation.RoundTrip` | protocol.c:55-83 | a payload sent to this host by UDP is delivered whole, on its port, followed by whatever follows its frame |
| `Encapsulation.SwappedValue16` | byteswap.c:3-6 | swapping the bytes in memory is swap_endian16 on the value the host reads |
| `Encapsulation.SwappedBytes32` | byteswap.c:8-12 | swapping the bytes in memory is swap_endian32 on the word the host reads |
| `Encapsulation.FrameStep` | ethernet.c:82-105 | the Ethernet layer hands on what the Ethernet builder wrapped, with any padding |
| `Encapsulation.PacketStep` | ipv4.c:50-91 | the IPv4 layer hands on what the IPv4 builder wrapped, with any padding, exactly for this host and a known protocol |
| `Encapsulation.DatagramStep` | udp.c:60-97 | the UDP layer delivers what the UDP builder wrapped, with any padding |
| `Encapsulation.EthernetLaw` | ethernet.c:82-105 | what the Ethernet layer reads of any header, and which types it hands on or drops |
| `Encapsulation.Ipv4Law` | ipv4.c:50-91 | what the IPv4 layer reads of any header: which packets it refuses, the source and destination it remembers, and who is next |
| `Encapsulation.UdpLaw` | udp.c:60-97 | what the UDP layer reads of any header, and who gets the rest |
| `Encapsulation.FrameFields` | ethernet.c:50-67 | addresses and type in their places on the wire |
| `Encapsulation.PacketFields` | ipv4.c:137-147 | the fields of the IPv4 header in their places on the wire |
| `Encapsulation.DatagramFields` | udp.c:99-112 | ports and length in their places on the wire |
| `Encapsulation.ListenerFills` | udp.c:81-94 | a listener takes the start of the payload as far as it has room, and others take nothing |
| `Encapsulation.Unregistered` | protocol.c:55-83 | a packet for a protocol nobody registered is dropped unread |
| `Encapsulation.ListenerWithRoom` | udp.c:81-94 | a listener takes the whole payload exactly when the port is its own and it has room |
| `Encapsulation.IpHeaderVerifies` | ipv4.c:137-149 | the header that is sent verifies |
| `Encapsulation.BuildUdp` | udp.c:99-118 | the bytes of the datagram |
| `Encapsulation.BuildIp` | ipv4.c:122-157 | the bytes of the packet |
| `Encapsulation.BuildFrame` | ethernet.c:50-67 | the bytes of the frame |
| `Encapsulation.Packet.EthernetRx` | ethernet.c:82-105 | the cursor, the swapped field and the next handler |
| `Encapsulation.Packet.Ipv4Rx` | ipv4.c:50-91 | the cursor, the swapped fields and the next handler |
| `Encapsulation.Stack.Resolve` | protocol.c:43-53 | a handler is found exactly when one is registered |
| `Encapsulation.Stack.UdpRx` | udp.c:60-97 | what the listeners have afterwards |
| `Encapsulation.Stack.RxTask` | protocol.c:55-83 | the dispatch loop ends and destroys the packet once |
| `Encapsulation.SendToSelf` | udp.c:99-118 | through all builders and the receive loop, the listeners get the payload |

## Left out

- Switching away from a process that was marked WAITING or FINISHED is part of the same step as the
  marking. `reschedule` turns interrupts on before it asks for the switch (process.c:19-27); a wakeup
  in between would put the process on the run queue twice, and is outside the model.
- The state word of the idle process is never initialised (process.c:140); the model lets it be any
  state. The idle process does not block or finish, and exists before the first pick.
- When no block is large enough, `get_mem` spins with interrupts off (memory.c:635). The model has the
  NULL result that follows in the code, with nothing changed.
- Stacks and contexts of processes, PRIMASK, and the early returns that leave interrupts off
  (arp.c:74-75, udp.c:37-39).
- The pending ARP ring, the ARP table, the transmit and receive queues and the protocol list are
  sequences in their classes; `Rings` proves for the links in memory that the list operations and the
  loops over them act as on sequences. Lists that share one memory are modelled for the heap's free list
  and for the scheduler.
- What the kernel keeps in a stack or in the first word of a process block; packets and connection blocks
  are values, and are not handed to the model of the heap.
- Processes.ProcessTable.FreeFirst: gives the record up without free_mem, which Kernels.Kernel.WakeFirst
  adds.
- Processes.ProcessTable.ReapOne: gives the block up without free_mem, which Kernels.Kernel.ReapOne adds.
- TCP: looking up the block of a segment and the answer to a segment without one, header parsing, and
  the waits inside tcp_connect, tcp_listen, tcp_tx_data and tcp_rx_data, whose effects up to and after
  the wait are separate events.
- `circular_buf_free`, and any use of the ring afterwards.
- Encapsulation.Packet.EthernetRx: for frames that hold the Ethernet header; the code reads past the end
  of a shorter one.
- Encapsulation.Packet.Ipv4Rx: for packets that hold the IPv4 header; the code reads past the end of a
  shorter one.
- Encapsulation.Stack.UdpRx: for datagrams that hold the UDP header; the code reads past the end of a
  shorter one.
- Encapsulation.Stack.RxTask: for frames in which the headers that are read lie inside the frame.
- ARP requests received from other hosts, the address cache hit that returns with interrupts off, and
  waking the callers of requests that timed out, which the code does not do.
- Gateway selection, the queues between the transmit layers as carriers of whole packets, and UDP
  listeners that collect several packets.
- `list_splice`, the Ethernet controller, timers, start-up code and the linker script.
