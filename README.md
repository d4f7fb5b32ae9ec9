# virtio-net device glue of the VMM's Init component

This project models the virtio-net device glue of the VMM (`components/Init/src/virtio_net.c`) in Dafny and proves properties of the model. The glue has four parts:

- **Port decode.** A guest `in` or `out` on one of the device's I/O ports becomes a register access of the virtio ring emulation. Its offset is `port - iobase` in C's 32-bit unsigned arithmetic. The width and the written value pass through unchanged.
- **Transmit router (`emul_raw_tx`).** Each frame goes to the nodes of the shared inter-guest fabric (the "VLAN") that its destination MAC address names. The all-ones broadcast address of IEEE 802.3 means every index below `n_connected`; any other address means the single index from the MAC lookup. For each non-NULL node, the router allocates a buffer of the frame's length, writes the frame and signals the node. An unknown unicast address, or the first refused allocation, write or signal, ends the call with `ETHIF_TX_FAILED`.
- **Receive drain (`virtio_net_notify`).** Packets are fetched from the Ethernet driver component until it reports the last one. Each packet is offered to the ring emulation: it is copied and completed when a receive buffer is granted, and dropped otherwise.
- **Device attach (`make_virtio_net`).** It registers the PCI function: vendor 0x1af4 and device 0x1000, the transitional virtio-net IDs of section 4.1.2 of the Virtio 1.0 specification. It also registers one I/O BAR at 0x9000 with `size_bits` 6 and the port handler for 0x9000..0x903f. It then creates the device state and its ring emulation, and drains every packet the driver already holds.

The foreign collaborators are classes whose answers come from oracles, and each class records every call it receives:

- The fabric (`VlanFabric.Fabric`) answers each allocate, write and signal call from an oracle `fate(history, call)`.
- The ring emulation's receive side (`Receive.RxRing`) answers buffer requests from an oracle `grant(history, len)`.
- The Ethernet driver (`Receive.EthDriver`) is a queue of pending packets. Its status codes come from the queue: 1 (a packet, more follow), 0 (the last packet), -1 (nothing).

The transmit path is written in the source's own shape: `RawTx` with its per-frame loop, `SendFrame`, `DeliverSpan` for the inner loop over node indices, and `Deliver` for the three calls to one node. Each method is proved to perform exactly the outcome function of its loop (`BatchRun`, `FrameRun`, `SpanRun`, `LegsRun`).

Those outcome functions are then proved equal to the run of an independent specification (`...IsRun`):

- `Plan`, the list of calls the path would make if everything succeeded, with a `Stop` step for an unreachable unicast frame;
- `Run`, which executes a plan against the fabric's answers and stops at the first refusal.

The properties the source promises are proved about `Plan`, `Run` and `BatchRun`. The receive drain is proved to make exactly the ring calls listed by `Drain`, and the pairing and delivery properties are proved about `Drain`.

Modules:

- `Types` holds bytes, 32-bit values and `Option`.
- `PortIo` holds the port decode.
- `VlanFabric` holds the fabric.
- `Transmit` holds the transmit path.
- `Receive` holds the driver, the ring and the receive drain.
- `Device` holds the attach.

## Model

| member | source | states |
|---|---|---|
| PortIo.Offset | components/Init/src/virtio_net.c:79-80 | the offset is `port - iobase` as C unsigned subtraction: adding it back to the base modulo 2^32 gives the port |
| PortIo.IoIn | components/Init/src/virtio_net.c:77-81 | a port-in becomes a register read of the same width at the port's offset from the base |
| PortIo.IoOut | components/Init/src/virtio_net.c:83-89 | a port-out becomes a register write of the same width and value at the port's offset from the base |
| PortIo.DecodeWindow | components/Init/src/virtio_net.c:77-89 | for a window that does not wrap past 2^32, a port is inside it if and only if its decoded offset is below the window width; inside, the offset is the plain difference |
| Device.RegisteredPortsDecode | components/Init/src/virtio_net.c:294-306 | every port of the handler range 0x9000..0x9000+MASK(6) is forwarded as offset `port - 0x9000`, below 64, with width and value unchanged |
| Device.MakeVirtioNet | components/Init/src/virtio_net.c:276-321 | appends the PCI entry (IDs 0x1af4/0x1000, cache line 64, latency 64, subsystem 1, interrupt pin and line 6, one I/O BAR at 0x9000 of size_bits 6, writes ignored) and the "VIRTIO PCI NET" handler for 0x9000..0x903f; creates the device with base 0x9000 and a ring of queue size 128; the drain leaves the driver empty after one receive call per held packet plus one, and makes no call on the ring; the registered handler's range starts at the registered BAR's address, which is the device's decode base, and spans exactly that BAR's 2^size_bits ports, and the BAR is in I/O space |
| Transmit.ResolveTargets | components/Init/src/virtio_net.c:116-146 | the destination index set is [0, n_connected) for the broadcast address and exactly the looked-up index otherwise; the frame is unreachable if and only if it is unicast with a negative lookup |
| Transmit.RawTx | components/Init/src/virtio_net.c:91-194 | returns the verdict of the batch outcome and leaves in the fabric log exactly that outcome's calls |
| Transmit.SendFrame | components/Init/src/virtio_net.c:104-190 | one frame performs exactly the per-frame outcome: no call at all for an unreachable unicast address, otherwise the inner loop over the resolved indices |
| Transmit.DeliverSpan | components/Init/src/virtio_net.c:145-190 | the inner loop performs exactly the span outcome: NULL slots skipped, stopping at the first failed delivery |
| Transmit.Deliver | components/Init/src/virtio_net.c:161-187 | allocation of the frame's length, then write, then signal, each only if the previous one was accepted; ok exactly when all three were |
| Transmit.LegsRunIsRun | components/Init/src/virtio_net.c:161-187 | one node's delivery equals running its three planned calls |
| Transmit.SpanRunIsRun | components/Init/src/virtio_net.c:145-190 | the inner loop's outcome equals the run of the span's plan |
| Transmit.FrameRunIsRun | components/Init/src/virtio_net.c:113-190 | the per-frame outcome equals the run of the frame's plan |
| Transmit.BatchRunIsRun | components/Init/src/virtio_net.c:104-193 | the outer loop's outcome equals the run of the batch's plan |
| Transmit.TxCompleteIff | components/Init/src/virtio_net.c:161-193 | TX_COMPLETE if and only if every destination is reachable and the fabric accepts every planned call; then the calls made are exactly the planned ones |
| Transmit.TxCallsPrefix | components/Init/src/virtio_net.c:161-187 | the calls made are a prefix of the planned calls, all but the last accepted; a failure either refused its last call, or had every call accepted while some frame of the batch has an unreachable unicast address |
| Transmit.UnreachableFails | components/Init/src/virtio_net.c:127-139 | an unknown unicast address fails the call: the earlier frames keep their calls and nothing is called for this frame or any later one |
| Transmit.NullSlotSkipped | components/Init/src/virtio_net.c:150-159 | a NULL slot adds no step and the span goes on with the next index |
| Transmit.DestinationInOrder | components/Init/src/virtio_net.c:161-187 | a live destination's calls are its allocation of the frame's length, then the write of the frame, then the signal, between the calls of the lower and the higher indices |
| Transmit.SpanCounts | components/Init/src/virtio_net.c:145-187 | over a span, a node gets one allocation, one write and one signal per index at which it sits |
| Transmit.SpanTargets | components/Init/src/virtio_net.c:145-187 | every call over a span goes to a node found at one of its indices and is one of that node's three calls for the frame |
| Transmit.UnicastExact | components/Init/src/virtio_net.c:121-187 | a known unicast frame gives the node at the looked-up index exactly one allocation, write and signal, and no other node anything |
| Transmit.BroadcastEachOnce | components/Init/src/virtio_net.c:116-187 | with distinct nodes in the slots, a broadcast frame gives every connected node exactly one allocation, write and signal |
| Transmit.UnicastTxTarget | components/Init/src/virtio_net.c:121-187 | a one-frame transmit to a known unicast address, whatever its verdict, calls only the node at the looked-up index, and that node at most once per kind of call |
| Transmit.BroadcastTxEachOnce | components/Init/src/virtio_net.c:116-187 | a one-frame broadcast that reports TX_COMPLETE, with distinct nodes in the slots, gave every connected node exactly one allocation of the frame's length, one write and one signal |
| Transmit.SpanFailSticks | components/Init/src/virtio_net.c:161-187 | once the inner loop failed, later indices change nothing |
| Transmit.BatchFailSticks | components/Init/src/virtio_net.c:104-191 | once the outer loop failed, later frames change nothing |
| Transmit.StopInPlan | components/Init/src/virtio_net.c:127-139 | a batch's plan contains a drop if and only if some frame has an unreachable unicast address |
| Transmit.RunAppend | components/Init/src/virtio_net.c:161-187 | running a + b runs a first; if it fails nothing of b is attempted, otherwise b runs after a's calls |
| Transmit.RunComplete | components/Init/src/virtio_net.c:161-193 | a run completes if and only if the plan has no drop and every call is accepted; it then made all the planned calls |
| Transmit.RunCallsPrefix | components/Init/src/virtio_net.c:161-187 | a run's calls are a prefix of the plan's calls |
| Transmit.RunAcceptedButLast | components/Init/src/virtio_net.c:161-187 | every call of a run but the last was accepted |
| Transmit.RunStopCause | components/Init/src/virtio_net.c:127-139 | a failed run whose calls were all accepted reached a drop |
| Transmit.RunRefusedLast | components/Init/src/virtio_net.c:161-187 | a run with a refused call failed, and the refused call is its last |
| Transmit.AllOkAppend | components/Init/src/virtio_net.c:161-187 | all calls of a + b are accepted if and only if those of a are, and then those of b after a's |
| Transmit.CallsAppend | components/Init/src/virtio_net.c:104-191 | the calls of a concatenated plan are the concatenated calls |
| VlanFabric.Fabric.AllocateBuff | components/Init/src/virtio_net.c:161-168 | the allocation succeeds as the fabric answers, and is recorded |
| VlanFabric.Fabric.BuffWrite | components/Init/src/virtio_net.c:170-178 | the write succeeds as the fabric answers, and is recorded |
| VlanFabric.Fabric.SignalQueue | components/Init/src/virtio_net.c:180-187 | the signal succeeds as the fabric answers, and is recorded |
| Receive.EthDriver.Rx | components/Init/src/virtio_net.c:233-247 | the oldest pending packet moves into the shared buffer with its length; status 1 if more wait, 0 if it was the last, -1 with the buffer unchanged if none was pending |
| Receive.RxRing.AllocateRxBuf | components/Init/src/virtio_net.c:236-237 | a buffer of the requested length is granted as the ring answers, and the request is recorded |
| Receive.RxRing.Complete | components/Init/src/virtio_net.c:239 | the completion is recorded |
| Receive.Notify | components/Init/src/virtio_net.c:230-249 | the driver ends empty; it was called once per packet, or once when it had none; the ring received exactly the calls `Drain` lists for the packets |
| Receive.DrainStep | components/Init/src/virtio_net.c:234-248 | the ring calls for k + 1 packets extend those for k by the calls for packet k |
| Receive.PacketEventsShape | components/Init/src/virtio_net.c:236-240 | one packet produces one buffer request of its length, and a completion with the packet if and only if the request was granted |
| Receive.DrainRequestsEveryPacket | components/Init/src/virtio_net.c:233-248 | the loop never stops early: one buffer request per packet, of its length, in order, whatever the grants |
| Receive.DrainPairs | components/Init/src/virtio_net.c:236-240 | every completion hands over one buffer, right after a request of the same length, with a packet of that length; a request is completed if and only if it was granted |
| Receive.DrainDeliversAll | components/Init/src/virtio_net.c:236-240 | when every request is granted, every packet reaches the guest in order |
| Receive.DrainDeliversSubsequence | components/Init/src/virtio_net.c:236-240 | whatever the grants, the packets handed to the guest are a subsequence of the driver's packets: only those packets, in the driver's order, none twice |
| Receive.DrainCompletesGranted | components/Init/src/virtio_net.c:236-240 | handling packet k hands exactly packet k itself to the guest when the ring grants its request after the calls for the earlier packets, and nothing when it refuses |
| Receive.RequestsAppend | components/Init/src/virtio_net.c:234-248 | the buffer requests of concatenated call lists are concatenated |
| Receive.CompletedAppend | components/Init/src/virtio_net.c:234-248 | the completed packets of concatenated call lists are concatenated |

## Left out

- The ring emulation's internals (`ethif_virtio_emul_init`, `emul->io_in`/`io_out`, `allocate_rx_buf`, `rx_complete`) belong to an external library. The port decode ends at the forwarded register access, and the value the emulation returns passes through unmodelled.
- The cookie that `allocate_rx_buf` returns and `rx_complete` takes back is not modelled: each completion immediately follows the request it answers.
- The PCI and I/O-port registration calls are foreign. Their effect is modelled as appending an entry to the VMM's registries.
- The VLAN fabric and buffer queues are foreign. Their answers come from an oracle over the call history, and the MAC lookup and node array are fixed maps.
- The Ethernet driver component is foreign and is modelled as a queue. Status sequences a queue cannot produce, such as 1 after 0 or values other than 1, 0 and -1, are outside the model, so every receive loop terminates.
- `Receive.EthDriver.Rx`: the length returned with status -1 is set to 0, because the source leaves it unspecified.
- `Transmit.RawTx`: frames shorter than six bytes are outside the model (`Frame` has at least six bytes), because the source reads the six-byte destination address unconditionally.
- `Transmit.RawTx`: the unused `tot_len` counter and the log messages are not modelled.
- The physical-address indirection (`phys[i]`, `len[i]`) is not modelled: frames are given as byte sequences whose length is `len[i]`.
- The global `virtio_net` pointer is not modelled: `Receive.Notify` takes the driver and the device's ring as parameters.
- Nothing guards against a second attach in the source, and the model does not add a guard.
- The DMA shims `malloc_dma_*` (lines 251-274) are thin wrappers over the allocator with no modelled behaviour.
- The weak `ethdriver_*` stubs and `eth_rx_ready_reg_callback` only log fatally.
- `emul_driver_init`, `emul_low_level_init`, `emul_raw_poll`, `emul_print_state` and `emul_raw_handle_irq` are driver wiring outside the modelled paths. Among them, `emul_raw_handle_irq` raises line 6.
- Concurrency between guests on the shared fabric is not modelled.
- On buffer exhaustion partway through a broadcast, the source returns `ETHIF_TX_FAILED` immediately instead of going on with the other nodes. The model follows the code (`Transmit.DeliverSpan`, `Transmit.TxCallsPrefix`).
