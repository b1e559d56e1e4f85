# HyperKit device and vCPU protocols in Dafny

A Dafny 4.11 model of the parts of HyperKit where state is shared, counters wrap or the guest
is not trusted, with proofs over every input or every run:

- `Rendezvous.dfy`: the SMP rendezvous, a barrier across vCPU threads with suspend.
- `VsockIovec.dfy`, `VsockSock.dfy`, `VsockSockObject.dfy`, `VsockCredit.dfy`,
  `VsockDevice.dfy`, `VsockClosing.dfy`, `VsockEof.dfy`, `VsockUpdate.dfy`, `VsockReplies.dfy`:
  the virtio-vsock device: the write buffer, half-close, credit in both directions, the tx and
  rx threads, the life of a sock, the reply ring.
- `BlockIf.dfy`, `BlockIfRuns.dfy`, `BlockIfOrder.dfy`: the block request queues and their worker.
- `AhciIov.dfy`, `AhciSlots.dfy`: the AHCI scatter/gather splitter and the command slots.
- `Intx.dfy`: shared level-triggered interrupt lines, MSI masking and PIRQ routing.
- `PciCaps.dfy`: the PCI capability list under guest writes.
- `Virtqueue.dfy`, `VirtqueueRings.dfy`: descriptor chains, and the rings across 16-bit wrap.
- `TaskSwitch.dfy`: hardware task switching.
- `Md5.dfy`: the streaming MD5 context.
- `Mmio.dfy`: the MMIO range index with its per-vCPU hint.
- `Remainder.dfy`: a fact about remainders used by two of the above.

Operations the C code performs in place are classes whose methods are proved equal to a
function on the object's value; protocols are state machines over such values, one step per
hold of a lock, with an invariant every step keeps. What the operating system returns (writes,
reads, `blockif_cancel`, `select`) is a parameter. History fields (totals without wrap-around,
logs, counts of runs) are part of the modelled state and influence nothing else.

## What turned out otherwise than intended

Each of these has a lemma with the failing inputs, and the exact condition.

- The test in `buffer_write` is on a 32-bit sum of the buffered bytes and hdr.len
  (pci_virtio_sock.c:979), and the copy behind it is bounded by hdr.len and the payload alone.
  It runs past the buffer exactly if the sum wraps and the payload is longer than the room left
  (`BufferWriteOk`, `HandleWriteOk`, `ApplyOkIff`, `PacketOkIff`). Two packets on a new connection
  get there: one the fd does not take, and one with hdr.len near 2^32 over a payload longer than
  that room, 128 KB at the most (`OverrunReachable`).
- The assertions after that copy hold of every packet whose header is right, and fail exactly if
  the test passes although length and payload differ (`MatchingNeverAborts`, `AbortsIff`); the
  first packet of a connection can do it (`AbortReachable`).
- Credit lost by short writes: the bytes a short `writev` took are never added to `fwd_cnt`
  (pci_virtio_sock.c:1095-1103), so after a drain the guest's window is smaller by them for
  good; never below one byte, and down to one byte after a single short write
  (`CreditAfterDrain`, `LeakNeverShrinks`, `WindowShrinksToOne`).
- A credit update is dropped exactly by a read that finds nothing while the guest is behind: the
  flag is cleared although no header was made (`CreditDueIff` for a sock, `StepDueIff` and
  `RunDue` for runs of the device; a run from the start in `UpdateLost`).
- The reply ring overflows, and an assertion fails, exactly if the backlog and the replies of one
  turn reach 512: a guest that gives the rx queue no descriptors gets there with 512 packets to be
  answered (`NoOverflowIff`, `UnservedOverflows`).
- A sock closed while its write buffer holds data is never drained, closed or freed
  (`StuckForever`, `FreedIffEmpty`, and a run to it in `StuckReachable`); a sock whose connection
  attempt failed never returns to the free list (`FailedConnectLeaks`).
- `shutdown_local_sock` asserts that not both directions are shut. Steps of the tx thread alone
  lead a polled sock into that assertion at end of file exactly if our sending side is shut
  already or the peer still sends (`EofAssertionIff`, and a run to such a sock in
  `PolledReachable`).
- A suspended vCPU serves the rendezvous in progress exactly if not every active vCPU is
  suspended, which is certain only if a vCPU thread started it (`SuspendServesRendezvous`). One
  started by another thread after all have suspended never completes (`OutsiderStrands`,
  `StrandedForever`, `StrandedReachable`). vm_smp_rendezvous accepts such a caller, vcpuid -1;
  its only caller in the repository (vioapic.c:336) passes a vCPU.
- A PRDT in which any 126 consecutive entries hold a sector can still fail the assertion in
  `ahci_build_iov`; a sector less a byte in any 125 is enough, and one request passes exactly if
  it is not `Starved` (`ThinStarves`, `DenseNeverStarved`, `Build`).
- `ahci_port_stop` keeps its NCQ flag from one request to the next: a cancelled command that is
  not NCQ keeps its `ci` bit exactly if an NCQ command was cancelled before it and some request
  could not be cancelled (`StopClearsCi` for the loop, `StopLeavesCiIff` for the whole; a run
  from the start in `CancelledBitSurvives`).
- An NCQ trim whose remaining entries are empty ends with its `sact` bit set: the final FIS
  clears `ci` (`NcqLeavesSactIff` at a completion, `NcqTrimLeavesSactIff` at once; a run from the
  start in `ActiveBitSurvives`).
- A trim list is read from a 512-byte buffer, but an NCQ trim may announce any number of blocks up
  to 255: the entries read lie in the buffer exactly if it announces one, or none and some entry
  is empty (`TrimInsideIff`).
- The read-only bits of MSI and MSI-X message control are protected from two-byte and wider
  writes only (`MsiReadOnlyIff`, `MsixReadOnlyIff`), and one-byte writes can flip the enable bits
  behind the device's back (`MsiEnableIff`, `MsixEnableIff`). The capability pointer at 0x34
  takes what is written to it (`CapPtrKeptIff`).
- `register_mem` reports success without registering when the base is already covered
  (`RegisteredIff`); unregistering afterwards fails the assertions exactly if the range there is
  not the caller's own (`UnregisteredIff`, `RegisterThenUnregister`, `IgnoredThenAbort`). It takes
  a range of size 0 or one that wraps, and the tree is no longer ordered exactly then
  (`RegisterKeepsIff`, `EmptyBreaks`).
- With a single task, IRET by a link to itself goes through and leaves the running task marked
  available (`IretAtRoot`); JMP keeps the chain of busy tasks only if nothing was interrupted or
  the links agree (`JmpIff`).
- The 32-bit guard of the MD5 block loop is right exactly while the index is at most
  2^32 - 64 (`GuardIff`). An update runs past its input exactly if part of a block is buffered and
  makes 2^32 bytes or more with the input (`RunsOnIff`, `Context.Update`); one byte and then
  2^32 - 1 bytes do (`TwoUpdatesRunOn`).

## Model

| member | source | states |
|---|---|---|
| Rendezvous.Vm.constructor | src/lib/vmm/vmm.c:313-336 | a machine with no active vCPU and no rendezvous |
| Rendezvous.Vm.ActivateCpu | src/lib/vmm/vmm.c:1705-1718 | a vCPU becomes active once; a second activation is refused |
| Rendezvous.Vm.SmpRendezvousStart | src/lib/vmm/vmm.c:1817-1859 | a rendezvous starts only if none is in progress, with the requested set and an empty done set |
| Rendezvous.Vm.HandleRendezvousPass | src/lib/vmm/vmm.c:806-838 | one turn of the handler loop: cut the request to active vCPUs, run once if requested and not done, clear and wake when all are done |
| Rendezvous.StepKeepsInv | src/lib/vmm/vmm.c:784-838 | every step of every thread keeps: done within requested, runs counted, sleepers signalled or waiting for someone |
| Rendezvous.RunKeepsInv | src/lib/vmm/vmm.c:784-838 | the invariant holds after every interleaving |
| Rendezvous.TargetsAreStable | src/lib/vmm/vmm.c:814-816 | the set of vCPUs that must run is fixed at the first handler pass, whatever is activated later |
| Rendezvous.ExactlyOnce | src/lib/vmm/vmm.c:817-829 | when a rendezvous completes, every vCPU requested and active at its first pass has run the function once, and no other has |
| Rendezvous.NeverTwice | src/lib/vmm/vmm.c:817-824 | over every run no vCPU runs a rendezvous twice, and only requested ones run it |
| Rendezvous.ClearedOnlyWhenDone | src/lib/vmm/vmm.c:825-831 | the function is cleared only by a pass in which done equals requested; rendezvous never overlap |
| Rendezvous.ReturnsAfterOwnRendezvous | src/lib/vmm/vmm.c:1817-1859 | vm_smp_rendezvous returns only after its own rendezvous is complete and every target has run |
| Rendezvous.SomeoneCanMove | src/lib/vmm/vmm.c:814-836 | while a rendezvous is in progress some thread that has to act is not asleep unsignalled |
| Rendezvous.NoLostWakeup | src/lib/vmm/vmm.c:829-834 | nobody sleeps unsignalled once the rendezvous is over |
| Rendezvous.SuspendServesRendezvous | src/lib/vmm/vmm.c:1010-1069 | a suspended vCPU that checks again serves the rendezvous in progress exactly if not every active vCPU is suspended, else it leaves; a rendezvous a vCPU thread started is always served |
| Rendezvous.StrandedForever | src/lib/vmm/vmm.c:1029-1035 | a vCPU that left the suspend loop while a rendezvous needs it holds that rendezvous up in every run |
| Rendezvous.OutsiderStrands | src/lib/vmm/vmm.c:1817-1859 | from any state with every active vCPU suspended, a rendezvous of an outside thread ends so |
| Rendezvous.StrandedReachable | src/lib/vmm/vmm.c:1010-1069 | a run from the start that does |
| VsockIovec.Pull | src/lib/pci_virtio_sock.c:446-475 | the bytes taken followed by those left are the iovec's; a full pull leaves nothing over exactly if no empty segment trails |
| VsockIovec.Clip | src/lib/pci_virtio_sock.c:432-443 | the clipped iovec is the first min(bytes, length) bytes |
| VsockSockObject.SockObject.constructor | src/lib/pci_virtio_sock.c:2336-2343 | a free sock without a descriptor |
| VsockSockObject.SockObject.BufferWrite | src/lib/pci_virtio_sock.c:975-997 | in place, for any hdr.len and payload: append to the write buffer, refuse by the 32-bit test or fail an assertion; the copy overruns the buffer exactly if the sum wraps and the payload does not fit |
| VsockSockObject.SockObject.ShutdownLocal | src/lib/pci_virtio_sock.c:863-893 | in place: close our directions; a closed receiving side discards the buffer |
| VsockSockObject.SockObject.HandleWrite | src/lib/pci_virtio_sock.c:1067-1104 | in place, for any hdr.len and payload: buffer behind buffered data, else write and buffer the rest with a wrapping len - num, for every result of writev; overruns exactly as buffer_write does |
| VsockSockObject.SockObject.Drained | src/lib/pci_virtio_sock.c:1038-1062 | in place: fwd_cnt moves only after a complete drain, then the deferred shutdown |
| VsockSockObject.SockObject.BufferDrain | src/lib/pci_virtio_sock.c:1000-1062 | in place: one drain, for every result of write |
| VsockSockObject.SockObject.ShutdownPeerLocalFd | src/lib/pci_virtio_sock.c:779-843 | in place: the peer's shutdown reflected on the fd, SHUT_WR put off while buffering |
| VsockSockObject.SockObject.CloseSock | src/lib/pci_virtio_sock.c:848-858 | in place: shut both ways, then CLOSING_TX |
| VsockSock.BufferWriteOk | src/lib/pci_virtio_sock.c:975-997 | buffering keeps the stream, the credit law and the write-side promises exactly if the copy stays in the buffer: the 32-bit sum does not wrap or the payload fits |
| VsockSock.WriteSomeOk | src/lib/pci_virtio_sock.c:1094-1103 | a write of as many bytes as hdr.len, fewer or more keeps them |
| VsockSock.HandleWriteOk | src/lib/pci_virtio_sock.c:1067-1104 | every outcome of handle_write keeps them, up to the reset a refusal causes, exactly if the copy stays in the buffer |
| VsockSock.DrainKeepsOk | src/lib/pci_virtio_sock.c:1000-1062 | so does every drain, including the deferred shutdown |
| VsockSock.ShutdownKeepsOk | src/lib/pci_virtio_sock.c:779-893 | so do the two shutdowns |
| VsockSock.CloseKeepsOk | src/lib/pci_virtio_sock.c:848-858 | so does closing |
| VsockSock.ApplyOkIff | src/lib/pci_virtio_sock.c:1106-1341 | every packet and event keeps, exactly if it does not overrun the write buffer: bytes written then buffered are those accepted in order, the fd is never shut for writing while data is buffered, fwd_cnt plus buffer plus short writes is what was offered |
| VsockSock.OverrunReachable | src/lib/pci_virtio_sock.c:979-991 | two packets on a new connection overrun: one the fd does not take, one with hdr.len near 2^32 and a payload longer than the room left |
| VsockSock.MatchingNeverAborts | src/lib/pci_virtio_sock.c:990-991 | a packet whose hdr.len is its payload fails no assertion |
| VsockSock.AbortsIff | src/lib/pci_virtio_sock.c:990-991 | exactly which packets fail the assertions, behind buffered data and after any result of writev |
| VsockSock.AbortReachable | src/lib/pci_virtio_sock.c:990-991 | a first packet shorter than its header says does |
| VsockSock.CreditDueIff | src/lib/pci_virtio_sock.c:2018-2034 | that the guest knows fwd_cnt or will be told is kept by everything except exactly a read that finds nothing while the guest is behind |
| VsockUpdate.StepDueIff | src/lib/pci_virtio_sock.c:2018-2034 | a step of the device keeps every guest informed or due exactly if it is not such a read |
| VsockUpdate.RunDue | src/lib/pci_virtio_sock.c:2005-2050 | so every run without such a read does |
| VsockUpdate.UpdateLost | src/lib/pci_virtio_sock.c:2018-2034 | a run from the start that loses an update: a polled connection, a packet taken whole, a read that finds nothing |
| VsockReplies.ReplyRing.constructor | src/lib/pci_virtio_sock.c:2418-2419 | an empty reply ring |
| VsockReplies.ReplyRing.Send | src/lib/pci_virtio_sock.c:905-949 | in place: one more reply; the assertion fails exactly if 511 are pending |
| VsockReplies.ReplyRing.DoOneReply | src/lib/pci_virtio_sock.c:1715-1752 | in place: the oldest reply, and whether more are pending |
| VsockReplies.ReplyRing.DoReplies | src/lib/pci_virtio_sock.c:1972-1981 | in place: the oldest replies, as many as there are descriptors |
| VsockReplies.NoOverflowIff | src/lib/pci_virtio_sock.c:320-341 | over every run of both threads: no overflow exactly if backlog and replies of each turn stay below 512, and then the guest gets all replies once and in order |
| VsockReplies.ServedNeverOverflows | src/lib/pci_virtio_sock.c:1972-1981 | a guest with descriptors for every reply is safe below 512 a turn |
| VsockReplies.UnservedOverflows | src/lib/pci_virtio_sock.c:922-927 | one without any overflows with the 512th reply |
| VsockCredit.GuestFreeExact | src/lib/pci_virtio_sock.c:618-629 | the guest's 32-bit credit sum is the true free space |
| VsockCredit.WriteCounters | src/lib/pci_virtio_sock.c:1095-1103 | a write leaks credit exactly if the fd took part of the payload |
| VsockCredit.StepKeepsInv | src/lib/pci_virtio_sock.c:1034-1046 | every step of a conforming guest and the device keeps the credit invariant |
| VsockCredit.Run | src/lib/pci_virtio_sock.c:664-668 | so it holds after every run |
| VsockCredit.FreshLinkOk | src/lib/pci_virtio_sock.c:618-629 | and of a new sock, whatever SO_SNDBUF was granted |
| VsockCredit.ConformingNeverRefused | src/lib/pci_virtio_sock.c:975-997 | within the credit a write is refused exactly if writev itself failed |
| VsockCredit.CreditAfterDrain | src/lib/pci_virtio_sock.c:1034-1046 | after a drain the credit is the window less the bytes of short writes: whole exactly if there were none, never zero |
| VsockCredit.LeakNeverShrinks | src/lib/pci_virtio_sock.c:1095-1103 | over every run the lost bytes are not given back |
| VsockCredit.WindowShrinksToOne | src/lib/pci_virtio_sock.c:1095-1103 | one short write can leave a window of one byte |
| VsockCredit.PeerFreeExact | src/lib/pci_virtio_sock.c:1647-1649 | peer_free is the room left exactly if the guest's buffer covers what is in flight, else it exceeds the whole buffer |
| VsockCredit.NeverOverruns | src/lib/pci_virtio_sock.c:1671-1710 | over every run the bytes in flight fit the guest's buffer |
| VsockDevice.ClosesUnwatched | src/lib/pci_virtio_sock.c:1838-1860 | the rx thread closes only an open fd that neither thread selects on and a sock on neither thread's queue, with the peer shut both ways |
| VsockDevice.DescriptorsOwned | src/lib/pci_virtio_sock.c:602-632 | each sock is on exactly one list; an fd is open exactly if one live sock owns it; select sets hold open fds only |
| VsockDevice.DrainFindsData | src/lib/pci_virtio_sock.c:1586-1598 | a queued sock that is still connected has data, its fd and an open receiving side: the drain's assertions hold |
| VsockDevice.ReadFindsFd | src/lib/pci_virtio_sock.c:2005-2018 | a sock the rx thread returns to after select still owns its fd |
| VsockDevice.ClosedForGood | src/lib/pci_virtio_sock.c:1849-1850 | a closed descriptor stays closed in every run, so it is closed at most once |
| VsockDevice.CloseKeepsShape | src/lib/pci_virtio_sock.c:1838-1860 | closing in the rx scan keeps lists, descriptors and both queues right |
| VsockDevice.TxVisitKeepsShape | src/lib/pci_virtio_sock.c:1483-1548 | so does each visit of the tx scan |
| VsockDevice.ConnectKeepsShape | src/lib/pci_virtio_sock.c:602-632 | so does allocating a sock, for a connection that succeeds or fails |
| VsockDevice.FreeKeepsShape | src/lib/pci_virtio_sock.c:1896-1910 | so does moving closed socks to the free list |
| VsockDevice.StepKeepsInv | src/lib/pci_virtio_sock.c:1483-1598 | every step of either thread keeps the device invariant |
| VsockDevice.RunKeepsInv | src/lib/pci_virtio_sock.c:1830-1910 | so every interleaving does |
| VsockDevice.PacketOkIff | src/lib/pci_virtio_sock.c:1106-1341 | a packet keeps the device invariant exactly if it does not overrun the write buffer |
| VsockDevice.Initial | src/lib/pci_virtio_sock.c:602-616 | a device with all socks free satisfies it |
| VsockClosing.StuckForever | src/lib/pci_virtio_sock.c:1488-1490 | a sock closed while buffering never changes again in any run |
| VsockClosing.FreedIffEmpty | src/lib/pci_virtio_sock.c:1487-1510 | from any position of both threads, a closing sock can reach the free list in some run exactly if it holds no data |
| VsockClosing.FinishRxScan | src/lib/pci_virtio_sock.c:1830-1893 | the rx scan can always finish and closes the sock on the way |
| VsockClosing.StuckReachable | src/lib/pci_virtio_sock.c:1217-1223 | a connection, a packet the fd does not take and a reset lead to a sock closed while buffering |
| VsockClosing.FailedConnectLeaks | src/lib/pci_virtio_sock.c:749-756 | a sock whose connection attempt failed is on the free list in no later state of any run |
| VsockEof.EofAssertionIff | src/lib/pci_virtio_sock.c:870-874 | steps of the tx thread alone lead a polled sock to an end of file with both directions shut exactly if our sending side is shut or the peer still sends |
| VsockEof.SafeForever | src/lib/pci_virtio_sock.c:863-893 | otherwise it stays safe through every run of the tx thread |
| VsockEof.PolledReachable | src/lib/pci_virtio_sock.c:1862-1893 | a polled sock open both ways in a run from the start |
| BlockIf.Context.constructor | src/lib/block_if.c:697-700 | all elements free |
| BlockIf.Context.Enqueue | src/lib/block_if.c:233-275 | in place: the element is pending, blocked exactly if an older request ends where it starts |
| BlockIf.Context.Request | src/lib/block_if.c:717-745 | E2BIG exactly if no element is free; the worker is signalled exactly if the request is ready |
| BlockIf.Context.Cancel | src/lib/block_if.c:775-798 | in place: a pending request is completed and its dependents unblocked |
| BlockIf.Context.Dequeue | src/lib/block_if.c:277-295 | in place: the first pending request that is not blocked |
| BlockIf.Context.Complete | src/lib/block_if.c:297-314 | in place: back to the free queue, unblocking those that start at its end |
| BlockIf.Context.Unblock | src/lib/block_if.c:306-309 | exactly the blocked pending requests that start at the offset become ready |
| BlockIfRuns.SubmitKeepsInv | src/lib/block_if.c:717-745 | a submission keeps the queue invariant |
| BlockIfRuns.DequeueKeepsInv | src/lib/block_if.c:277-295 | so does the worker's dequeue |
| BlockIfRuns.CompleteKeepsInv | src/lib/block_if.c:297-314 | so does its completion |
| BlockIfRuns.CancelKeepsInv | src/lib/block_if.c:775-798 | so does a cancel |
| BlockIfRuns.Run | src/lib/block_if.c:439-479 | so every run of clients and worker does |
| BlockIfRuns.NeverTooBig | src/lib/block_if.c:957-962 | with at most blockif_queuesz requests outstanding no submission gets E2BIG |
| BlockIfRuns.EachRequestOnce | src/lib/block_if.c:462-467 | a request id is called back, cancelled or still in the queues: one of them, once |
| BlockIfRuns.QueuesPartition | src/lib/block_if.c:233-314 | free, pend and busy hold each element once, and its status says which |
| BlockIfRuns.NoLostWork | src/lib/block_if.c:439-479 | the worker sleeps unsignalled only with nothing queued |
| BlockIfRuns.DispatchSucceeds | src/lib/block_if.c:277-295 | with work pending and none busy the worker gets the oldest request |
| BlockIfRuns.BlockedHasBlocker | src/lib/block_if.c:247-262 | every blocked request has an older one, pending or busy, that ends where it starts |
| BlockIfOrder.Run | src/lib/block_if.c:233-295 | over every run the pending queue holds the accepted requests in the order of acceptance, all younger than any started |
| BlockIfOrder.StartedInOrder | src/lib/block_if.c:277-295 | over every run the worker starts requests in the order in which they were accepted |
| AhciIov.Gather | src/lib/pci_ahci.c:576-600 | the gathered pieces are the table's bytes from done on, whole entries up to the piece limit or len |
| AhciIov.Trim | src/lib/pci_ahci.c:600-613 | trimming leaves the first bytes of the iovec |
| AhciIov.Build | src/lib/pci_ahci.c:567-619 | one request: the table's bytes in order, whole sectors if more follow; the assertion on todo holds exactly if the request is not starved |
| AhciIov.Ioreq.BuildIov | src/lib/pci_ahci.c:567-619 | the same on the request's fields, with br_resid the length |
| AhciIov.LimitedIff | src/lib/pci_ahci.c:578-579 | all pieces are used exactly if the limit stops the gathering before len |
| AhciIov.DenseNeverStarved | src/lib/pci_ahci.c:600-605 | a sector less a byte in any 125 entries starves no whole-sector command |
| AhciIov.Transfer | src/lib/pci_ahci.c:675-705 | the chain of requests covers the table's bytes in order at lba+done, ends with done equal to len if the table holds it, and stops short exactly where a request is starved |
| AhciIov.CoversAll | src/lib/pci_ahci.c:1891-1900 | put end to end the requests are the front of the table |
| AhciIov.ThinStarves | src/lib/pci_ahci.c:600-605 | a table with a sector in any 126 entries whose second request is starved |
| AhciSlots.AhciPort.constructor | src/lib/pci_ahci.c:1986-2011 | a port with every request free and no slot in use |
| AhciSlots.AhciPort.Start | src/lib/pci_ahci.c:678-695 | in place: take the first free request for a slot |
| AhciSlots.AhciPort.HandleSlot | src/lib/pci_ahci.c:1821-1843 | in place: a new command keeps the slot invariant |
| AhciSlots.AhciPort.IoreqCb | src/lib/pci_ahci.c:1884-1917 | in place: completion or continuation keeps it, a trim that runs out of entries included; exactly when it reads an entry past the trim buffer |
| AhciSlots.AhciPort.ScanTrim | src/lib/pci_ahci.c:792-812 | the search of a trim list for an entry that is not empty |
| AhciSlots.AhciPort.HandleTrim | src/lib/pci_ahci.c:769-845 | in place: a new trim command issues its first request, ends at once or leaves the buffer |
| AhciSlots.AhciPort.PortStop | src/lib/pci_ahci.c:434-484 | in place: the cancelling loop over the busy list |
| AhciSlots.IssueKeepsInv | src/lib/pci_ahci.c:678-695 | issuing finds a free request and keeps lists, slots and counts right |
| AhciSlots.CompleteKeepsInv | src/lib/pci_ahci.c:1884-1917 | so does a completion, with or without continuation |
| AhciSlots.StopKeepsInv | src/lib/pci_ahci.c:434-484 | so does a stop that cancels any subset |
| AhciSlots.FreeNeverEmpty | src/lib/pci_ahci.c:679-681 | at most 32 requests are busy, so the free-list assertions never fail |
| AhciSlots.Run | src/lib/pci_ahci.c:1821-1843 | every run keeps the slot invariant: writes of PxCI and PxSACT, commands, completions, stops |
| AhciSlots.Initial | src/lib/pci_ahci.c:1986-2011 | which the port starts with |
| AhciSlots.EachCommandOnce | src/lib/pci_ahci.c:1910-1916 | over every run each issue of a slot is finished once, and a slot in flight has exactly one request |
| AhciSlots.StopClearsCi | src/lib/pci_ahci.c:455-465 | the cancelling loop leaves the ci bit of a cancelled command that is not NCQ exactly if an NCQ one was cancelled before it |
| AhciSlots.StopLeavesCiIff | src/lib/pci_ahci.c:434-484 | after the whole stop the bit is left exactly if, besides, some request could not be cancelled |
| AhciSlots.CancelledBitSurvives | src/lib/pci_ahci.c:434-484 | a run from the start in which a finished command keeps its ci bit |
| AhciSlots.ScanIff | src/lib/pci_ahci.c:792-812 | a search finds nothing exactly if every entry to the end of the list is empty and in the buffer, and leaves the buffer exactly if all there are empty and the list is longer |
| AhciSlots.NcqLeavesSactIff | src/lib/pci_ahci.c:801-812 | a completion without error finishes an NCQ command with its sact bit set exactly if it is a trim whose remaining entries are empty |
| AhciSlots.NcqTrimLeavesSactIff | src/lib/pci_ahci.c:801-812 | so does, at once, an NCQ trim exactly if all its entries are empty |
| AhciSlots.ActiveBitSurvives | src/lib/pci_ahci.c:801-812 | a run from the start in which a finished trim keeps its sact bit |
| AhciSlots.TrimInsideIff | src/lib/pci_ahci.c:769-812 | the searches of a trim command stay in the buffer exactly if it announces one block, or none and some entry is empty |
| Intx.Router.constructor | src/lib/pci_irq.c:128-145 | every pin unrouted, no line driven, all devices idle |
| Intx.Router.PciIrqAssert | src/lib/pci_irq.c:147-165 | in place: count the pin up, drive its line on the first |
| Intx.Router.PciIrqDeassert | src/lib/pci_irq.c:167-186 | in place: count it down, release the line on the last |
| Intx.Router.WritePirq | src/lib/pci_irq.c:92-108 | in place: reroute a pin, moving an active line |
| Intx.Router.Assert | src/lib/pci_emul.c:1561-1576 | in place: assert now or leave pending by permission |
| Intx.Router.Deassert | src/lib/pci_emul.c:1578-1591 | in place |
| Intx.Router.Update | src/lib/pci_emul.c:1593-1606 | in place: permission changes move between asserted and pending |
| Intx.PinAllocator.constructor | src/lib/pci_irq.c:128-145 | no pin in use, permitted IRQs unused |
| Intx.PinAllocator.AllocPin | src/lib/pci_irq.c:188-225 | a least used pin, routed to an allowed least used IRQ on first use; use stays even and the next call is possible |
| Intx.AssertBalances | src/lib/pci_irq.c:147-165 | an assert keeps pin, IOAPIC and ATPIC counts equal to the devices and pins behind them |
| Intx.DeassertBalances | src/lib/pci_irq.c:167-186 | so does a deassert |
| Intx.PirqWriteBalances | src/lib/pci_irq.c:92-108 | so does any write to a PIRQ register |
| Intx.UpdateSettles | src/lib/pci_emul.c:1593-1606 | after an update asserted means permitted and pending means not |
| Intx.StepKeepsInv | src/lib/pci_emul.c:855-917 | every assert, deassert, mask, MSI change and reroute keeps the counts and the states right |
| Intx.Run | src/lib/pci_emul.c:1701-1763 | so every run does |
| Intx.LinesFollowDevices | src/lib/pci_irq.c:147-186 | a line is driven exactly if some asserted device is behind it |
| Intx.LinesFollowFromPowerOn | src/lib/pci_irq.c:128-186 | so in every run from power-on |
| PciCaps.AddKeepsList | src/lib/pci_emul.c:661-699 | adding keeps the list: aligned, side by side from 0x40, ids and pointers in place |
| PciCaps.WriteKeepsList | src/lib/pci_emul.c:1830-1899 | no guest write of any size at any offset changes an id, a pointer or the capability bit |
| PciCaps.Run | src/lib/pci_emul.c:1766-1899 | so no sequence of writes does |
| PciCaps.CapAtOff | src/lib/pci_emul.c:963-975 | every offset of the range lies in one capability |
| PciCaps.StaysInside | src/lib/pci_emul.c:961-963 | an aligned write that begins in a capability ends in it |
| PciCaps.MsiReadOnlyIff | src/lib/pci_emul.c:880-897 | exactly which writes keep the read-only bits of message control |
| PciCaps.MsiEnableIff | src/lib/pci_emul.c:898-917 | exactly which writes keep the enable flag in step with the bit |
| PciCaps.MsixReadOnlyIff | src/lib/pci_emul.c:855-878 | exactly which writes keep the read-only bits of MSI-X message control |
| PciCaps.MsixEnableIff | src/lib/pci_emul.c:855-878 | exactly which writes keep the MSI-X enable flag in step with the bit |
| PciCaps.CapPtrKeptIff | src/lib/pci_emul.c:1897-1899 | a configuration write keeps the capability pointer exactly if it is misaligned, passes it by or writes the value it had |
| PciCaps.PciDev.constructor | src/lib/pci_emul.c:716-740 | an empty capability list |
| PciCaps.PciDev.SetLink | src/lib/pci_emul.c:682-687 | in place: the pointer to a new capability, and the capability bit for the first |
| PciCaps.PciDev.Add | src/lib/pci_emul.c:661-699 | in place: refused exactly if there is no room |
| PciCaps.PciDev.FindCap | src/lib/pci_emul.c:963-976 | the search along the pointers ends, at the capability that holds the offset |
| PciCaps.PciDev.Store | src/lib/pci_emul.c:1897-1899 | in place: the written bytes and no others change |
| PciCaps.PciDev.CapStore | src/lib/pci_emul.c:855-926 | in place: the masked writes of MSI and MSI-X, the plain one of PCI Express |
| PciCaps.PciDev.CapWrite | src/lib/pci_emul.c:955-1006 | in place: headers protected, wide writes trimmed |
| PciCaps.PciDev.CfgWrite | src/lib/pci_emul.c:1830-1899 | in place: the dispatch of a configuration write |
| Virtqueue.InTableUnique | src/lib/virtio.c:326-352 | an indirect table stands for one list at most |
| Virtqueue.ChainStep | src/lib/virtio.c:299-357 | where a chain goes after one descriptor |
| Virtqueue.WalkTable | src/lib/virtio.c:326-352 | the inner loop finds the table's list exactly if it fits, for any guest memory |
| Virtqueue.Walk | src/lib/virtio.c:298-366 | the walk ends for any memory and returns the chain exactly if there is one of at most 512 descriptors, storing the first n |
| VirtqueueRings.Vqueue.constructor | src/lib/virtio.c:160-191 | the rings as the guest left them, the device's own counters at 0 |
| VirtqueueRings.Vqueue.GetChain | src/lib/virtio.c:249-367 | 0 with nothing available, -1 for an impossible count, else the next head and its chain |
| VirtqueueRings.Vqueue.RetChain | src/lib/virtio.c:375-379 | in place: one back |
| VirtqueueRings.Vqueue.RelChain | src/lib/virtio.c:388-414 | in place: one used entry, one index |
| VirtqueueRings.Vqueue.EndChains | src/lib/virtio.c:431-467 | in place: the saved index, and whether to interrupt |
| VirtqueueRings.StepKeepsInv | src/lib/virtio.c:276-297 | every step of guest and device keeps counters and slots right |
| VirtqueueRings.Run | src/lib/virtio.c:276-297 | so every run does |
| VirtqueueRings.TakesInOrder | src/lib/virtio.c:276-297 | heads are taken in publication order, work is seen exactly if there is some, the driver is never found confused |
| VirtqueueRings.ReapsInOrder | src/lib/virtio.c:405-413 | the guest reads back every entry in release order |
| VirtqueueRings.OtherSlot | src/lib/virtio.c:405-413 | fewer than qsize releases apart, used slots differ, across the wrap |
| VirtqueueRings.SameSlot | src/lib/virtio.c:296 | the 16-bit counter picks the slot of the total it stands for |
| VirtqueueRings.RetUndoesGet | src/lib/virtio.c:375-379 | vq_retchain undoes vq_getchain |
| VirtqueueRings.EventIdxExact | src/lib/virtio.c:453-460 | with EVENT_IDX the guest is interrupted exactly if the event index lies in [old, new) |
| VirtqueueRings.LayoutFits | src/include/xhyve/virtio.h:275-289 | the three areas vi_vq_init lays out are disjoint and fit vring_size |
| TaskSwitch.SaveMeans | src/lib/task_switch.c:428-459 | saving keeps the link, LDT and CR3 of the TSS, cuts each register to its width and clears NT exactly for IRET |
| TaskSwitch.CheckPassesIff | src/lib/task_switch.c:738-822 | the checks pass exactly if the new TSS is present, mapped and long enough, is busy exactly for IRET, and the old one is there |
| TaskSwitch.Vcpu.TssRestore | src/lib/task_switch.c:473-540 | in place: registers, LDTR and CR3 from the new TSS, which gets the link if nested |
| TaskSwitch.Vcpu.Commit | src/lib/task_switch.c:823-882 | in place: busy bits, both TSS, the task register and the registers |
| TaskSwitch.Vcpu.VmexitTaskSwitch | src/lib/task_switch.c:701-882 | a fault changes nothing; else the switch |
| TaskSwitch.NestKeepsChain | src/lib/task_switch.c:848-861 | CALL or a gate puts the new task on the chain of busy tasks |
| TaskSwitch.IretKeepsChain | src/lib/task_switch.c:829-838 | IRET by the link takes the running task off it |
| TaskSwitch.IretAtRoot | src/lib/task_switch.c:776-780 | with one task IRET faults exactly if it goes to another |
| TaskSwitch.JmpIff | src/lib/task_switch.c:829-861 | exactly when JMP keeps the chain |
| TaskSwitch.StepKeepsInv | src/lib/task_switch.c:428-540 | every step keeps the chain and the saved registers of interrupted tasks; a task may write registers, LDTR, CR3, any memory but interrupted TSSs and its own link, and any descriptor but those on the chain |
| TaskSwitch.Run | src/lib/task_switch.c:701-882 | so every run does |
| TaskSwitch.RunAgrees | src/lib/task_switch.c:701-882 | a run that keeps more than k tasks on the chain leaves the lowest k, what they saved and their descriptors as they were |
| TaskSwitch.IretResumes | src/lib/task_switch.c:473-540 | IRET resumes the interrupted task with the registers it was interrupted with, whatever ran above it |
| TaskSwitch.RoundTrip | src/lib/task_switch.c:428-540 | CALL or a gate, any run above that comes back to the same depth, IRET: the caller's registers, selectors, flags and eip, and the descriptors of its chain as before; all descriptors unless a task changed the table |
| Md5.CountAdds | src/lib/md5c.c:109-113 | the two-word count is the number of bits modulo 2^64 |
| Md5.GuardIff | src/lib/md5c.c:123 | the loop guard is right exactly while i + 63 does not wrap |
| Md5.RunsOnIff | src/lib/md5c.c:115-124 | the loop comes to an index where it is wrong exactly if part of a block is buffered and makes 2^32 bytes or more with the input |
| Md5.TwoUpdatesRunOn | src/lib/md5c.c:97-134 | one byte and then 2^32 - 1 bytes do |
| Md5.Absorb | src/lib/md5c.c:123-124 | the block loop folds the whole blocks, or runs past the input exactly if its last index exceeds 2^32 - 64 |
| Md5.CountBytes | src/lib/md5c.c:146-147 | the count's bytes are the little-endian 64-bit length |
| Md5.Context.constructor | src/lib/md5c.c:77-90 | an empty message |
| Md5.Context.Feed | src/lib/md5c.c:115-133 | state and buffer follow the message |
| Md5.Context.Update | src/lib/md5c.c:97-134 | the context has seen the old message followed by the input, for every input on which the loop does not run on, and exactly when it does |
| Md5.Context.Pad | src/lib/md5c.c:140-158 | the padding of RFC 1321 |
| Md5.Context.Final | src/lib/md5c.c:165-176 | the digest is the fold over the padded message |
| Md5.UpdateAll | src/lib/md5c.c:97-134 | a series of updates sees the concatenation unless one of them runs on, and exactly when one does |
| Md5.Digest | src/lib/md5c.c:97-176 | for every way to split a message the digest is that of the whole, unless an update runs on, and exactly when one does |
| Mmio.FindIff | src/lib/mem.c:70-96 | one search path finds an overlap exactly if some range overlaps |
| Mmio.LookupIff | src/lib/mem.c:80-96 | a lookup finds the range that holds the address, whatever the tree's shape |
| Mmio.Disjoint | src/lib/mem.c:98-116 | ranges of a tree never overlap |
| Mmio.InsertOk | src/lib/mem.c:98-116 | insertion keeps the order and adds the range |
| Mmio.RemoveOk | src/lib/mem.c:262-268 | removal keeps it and drops the entry |
| Mmio.RegisteredIff | src/lib/mem.c:214-238 | exactly when a range is added, refused, or silently ignored |
| Mmio.RegisterKeepsIff | src/lib/mem.c:214-238 | registration keeps the order exactly if the range it adds is not empty and does not wrap |
| Mmio.EmptyBreaks | src/lib/mem.c:226-227 | a range of size 0 does not |
| Mmio.UnregisteredIff | src/lib/mem.c:254-282 | exactly when a range goes, there is none, or the assertions fail |
| Mmio.RegisterThenUnregister | src/lib/mem.c:214-282 | after a registration that reported success, unregistering fails the assertions exactly if the base lay in a range not the caller's own |
| Mmio.IgnoredThenAbort | src/lib/mem.c:214-282 | any two ranges that do so from an empty index |
| Mmio.Index.constructor | src/lib/mem.c:284-290 | an empty index without hints |
| Mmio.Index.EmulateMem | src/lib/mem.c:159-186 | the selection through the hint is the hint-free one; hints stay live |
| Mmio.Index.RegisterMem | src/lib/mem.c:214-238 | in place, for any base and size, with a 64-bit end; order and hints are kept exactly if the range added is not empty and does not wrap |
| Mmio.Index.UnregisterMem | src/lib/mem.c:254-282 | in place, in every case of UnregisteredIff; with the range goes every hint to it |

## Left out

- The contents of vsock headers and iovec_push, which only writes them; that every packet, drain and expired deadline makes at most one reply is not tied to the reply ring.
- The `port_generation` numbering of vsock ports, address matching in `lookup_sock`, and the wake-up pipes: a step may happen whenever its lock allows.
- VsockDevice.Step: within a phase a thread's steps may come in any order and lists are sets, which allows more runs than the program has; a packet that overruns the write buffer or fails an assertion ends a run; the double close of a descriptor at or above FD_SETSIZE in `handle_connect_fd` and the second unlock after `connect_sock` are not modelled.
- VsockSock.ApplyOkIff: bytes of a payload past hdr.len that the fd did not take when it took hdr.len bytes are dropped by the source without notice; the model does not count them as offered.
- Halt, reinit and the timed waits of vCPUs; memory ordering; a lock-held section is one step.
- BlockIfRuns.CancelKeepsInv: cancelling a request the worker is processing (the SIGCONT interruption) is only a refusal here.
- Reading, writing and deleting in `blockif_proc`; resubmission is another submit.
- AhciSlots.TrimInsideIff: the trim list holds still between the requests of one command; in AhciSlots.Run the guest may change it.
- The ATA command set, FIS contents and error registers, so that after an error other commands may go on; `ahci_handle_port` is one slot per step, since a slot with no host-to-device FIS would keep its loop busy for ever.
- AhciIov.Transfer: a table shorter than the command ends the chain early, as in the source; byte counts are not required to be even.
- Interrupt controllers behind the router: the model counts the router's assert and deassert calls.
- BAR address updates in `pci_cfgrw`: what a BAR write stores is a parameter; devices with their own cfgwrite.
- MSI address and data, and MSI-X table entries.
- Virtqueue.Walk: guest memory holds still during one walk; addresses are not translated.
- VirtqueueRings: masking with qsize - 1 is written as the remainder it is for a power of two.
- TaskSwitch.Switch: segment descriptor checks after the switch, the error code push, PAE entries and page faults other than a missing TSS; a selector beyond the table's limit ends the run, as the assertion behind it does.
- MD5Transform: the block function is a parameter; `MD5Final` also clears the buffer.
- Mmio: colours and rotations of the red-black tree; only insertion and removal without rebalancing, since lookups depend on the stored ranges alone. `register_mem_fallback` is the same code on the other tree.
- Firmware loading, ACPI and SMBIOS tables: fixed layouts written once, with no state to keep.
- Network, 9p and console devices: they hand buffers to the host and share the virtqueue modelled here.
- Timers, instruction decoding, CPUID and MSR handling: tables of cases without a law across them.
