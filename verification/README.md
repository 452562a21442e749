# Verified model of a virtual machine monitor's device and network layer

This project models, in Dafny, the parts of the repository where bytes, indices and threads meet: the
userspace NAT stack, the virtio devices, the flattened device tree builder, the IPC channel and the PSCI
CPU_ON handshake. For each it proves the property the code is there for.

Code that changes things step by step is modelled by classes and methods with loops, each proved against a
specification function or relation; what several threads do together is modelled as a system of atomic steps,
and what is proved of it holds for every run, that is, for every interleaving of any number of steps.

| file | what it models |
|---|---|
| `Bytes.dfy` | machine integers, byte strings, their encodings |
| `Fdt.dfy`, `FdtBuilder.dfy` | the device tree: a parser by the Devicetree Specification v0.4, and the builder |
| `IpcFraming.dfy`, `IpcSystem.dfy`, `IpcProgress.dfy`, `IpcChannel.dfy` | frames, senders and reader as a step system, that messages get through, and the channel and transport classes |
| `Checksum.dfy`, `NetFrames.dfy`, `Dhcp.dfy` | the Internet checksum (RFC 1071), frame builders and parsers, DHCP options (RFC 2132) |
| `TcpMachine.dfy`, `TcpProofs.dfy`, `TcpEffects.dfy`, `TcpStack.dfy` | the TCP threads as a step system, its invariants, what each segment does, and the stack class |
| `VirtQueue.dfy`, `GuestMemory.dfy` | the split virtqueue (Virtio 1.2, section 2.7), descriptor chains, scatter and gather |
| `VirtioBlock.dfy`, `BlockRequests.dfy`, `VirtioNet.dfy`, `VirtioInput.dfy` | the block, network and input devices; block requests told from their bytes |
| `GpuBacking.dfy`, `GpuTransfer.dfy`, `GpuCommands.dfy`, `VirtioGpu.dfy`, `GpuRequests.dfy` | the graphics device: backing stores, rectangle copies, commands, control queue; requests told from their bytes |
| `Psci.dfy` | the CPU_ON handshake (PSCI, Arm DEN0022D, section 5.6) |

What the code and its specification functions share, such as field offsets, command codes and flag bits, is stated
once more from outside, in numbers: for the bytes of frames, replies, blobs, headers and requests, and for the
effect of each segment and command.

Fields marked as history in a state (what was accepted, reserved, pushed, set up) record what happened and
are never read by the modelled code.

Two things one might expect of every run fail on some, and for each the project proves exactly when. Messages
are delivered as sent in every run if and only if every payload is within 64 MiB (`IpcSystem.SafeIffSendable`);
a larger one stops the reader with an error or, when the low 32 bits of its size are within the bound, is
delivered cut. A vCPU is started with a pair some CPU_ON asked for in every interleaving if and only if the
calls are closed under mixing, that is, the entry point of one with the context of another is again the pair of
one of them (`Psci.AsAskedIffClosed`); for two calls, if they agree on one of the two values
(`Psci.TwoCallsMayMix`).

## Model

| member | source | states |
|---|---|---|
| FdtBuilder.Builder.Build | src/hvf/fw_dtb.cpp:84-104 | for any well-nested tree with NUL-free names and reservations other than (0,0), parsing the finished bytes by the specification gives exactly that tree and those reservations; the ten header words have the values of the specification, and the three blocks follow in order |
| FdtBuilder.Builder.StrOff | src/hvf/fw_dtb.cpp:110-119 | the offset returned reads the name back from the strings block, a name seen before keeps its offset, and every earlier offset still reads its own name |
| FdtBuilder.Builder.BeginNode | src/hvf/fw_dtb.cpp:44-48 | the structure block stays the aligned encoding of the calls made so far, now with this one |
| FdtBuilder.Builder.Prop | src/hvf/fw_dtb.cpp:51-60 | the same for a property, whose name is interned and whose value is padded |
| FdtBuilder.Builder.Reserve | src/hvf/fw_dtb.cpp:80-82 | the reservation block encodes the reservations made so far |
| FdtBuilder.Pad4 | src/hvf/fw_dtb.cpp:38-40 | the loop appends exactly the zero bytes that reach the next multiple of four |
| FdtBuilder.EmitHeader | src/hvf/fw_dtb.cpp:88-99 | the header the code emits is the specified one as long as the sizes fit 32 bits |
| FdtBuilder.InternedExtend | src/hvf/fw_dtb.cpp:110-119 | appending a name leaves every interned name readable at its offset |
| Fdt.ParseItemsInverse | src/hvf/fw_dtb.cpp:44-60 | the structure block of any tree parses back to that tree and stops exactly at its end |
| Fdt.ParseReservationsInverse | src/hvf/fw_dtb.cpp:80-86 | the reservation block parses back to the reservations it was built from |
| Fdt.ParseBlobInverse | src/hvf/fw_dtb.cpp:84-104 | any blob laid out as header, reservations, structure and strings parses to its tree |
| Fdt.EventBytes | src/hvf/fw_dtb.cpp:44-78 | the bytes of each call: token 1 with the name, 2, or 3 with length, name offset and value, NUL-padded to words; token 9 ends the block |
| Fdt.EventsInOrder | src/hvf/fw_dtb.cpp:44-78 | the structure block is the calls' bytes one after the other |
| Fdt.ReservationBytes | src/hvf/fw_dtb.cpp:80-87 | a reservation is two 64-bit words, and sixteen zeros end the list |
| IpcSystem.DeliversPrefix | ipc/src/channel.cpp:45-104 | in every interleaving of senders, reader, closes and disconnects at either end the messages delivered are a prefix of those sent, in lock order, and neither error branch is reached |
| IpcSystem.DeliversAll | ipc/src/channel.cpp:45-104 | without a disconnect, a reader that has drained the pipe has delivered every message |
| IpcProgress.AllGetThrough | ipc/src/channel.cpp:45-104 | in every run without a disconnect, once the sender at work has finished, a reader that reads on for long enough has delivered exactly the messages sent |
| IpcProgress.ReaderCatchesUp | ipc/src/transport_inprocess.cpp:90-117 | from any such state with the lock free, finitely many reads deliver everything |
| IpcProgress.SenderAppends | ipc/src/channel.cpp:53-59 | on an open pipe a sender that takes the lock appends exactly its frame and gives the lock back |
| IpcSystem.SafeIffSendable | ipc/src/channel.cpp:45-104 | every run that sends only messages of a set delivers a prefix of what was sent without error, if and only if all payloads in the set are within 64 MiB |
| IpcSystem.OversizeStopsReader | ipc/src/channel.cpp:81-85 | a message whose size modulo 2^32 is above the bound has a run that ends with the size error |
| IpcSystem.OversizeIsCut | ipc/src/channel.cpp:50 | a larger message whose size modulo 2^32 is within the bound has a run that delivers only so many of its bytes as the message |
| IpcSystem.RunKeeps | ipc/src/channel.cpp:45-104 | over every run the bytes in flight are the frames of the messages sent and not yet delivered, cut short only by discarded writes |
| IpcSystem.FetchKeepsBytes | ipc/src/transport_inprocess.cpp:90-117 | an iteration of `read` loses, repeats and reorders no byte of the stream |
| IpcFraming.DeframeInverse | ipc/src/channel.cpp:64-100 | reading the frames of any messages yields those messages; a stream cut short yields a prefix and no error |
| IpcFraming.HeaderIsNext | ipc/src/channel.cpp:66-85 | the first bytes of a stream of frames are the header of the next message, and it passes the checks |
| IpcFraming.HeaderBytes | ipc/src/channel.cpp:46-51 | the header's twelve bytes: magic 0x41524349, version 1, kind, two zeros, and the size modulo 2^32 |
| IpcFraming.CheckRefuses | ipc/src/channel.cpp:74-85 | a wrong magic or version is refused, then a size above 67108864; all other headers are accepted |
| IpcChannel.Transport.Read | ipc/src/transport_inprocess.cpp:90-119 | the buffer receives exactly the next bytes of the concatenated chunks, for any chunking and any arrival order; zero is returned only when the pipe is closed and dry |
| IpcChannel.Transport.TakeFromChunk | ipc/src/transport_inprocess.cpp:94-101 | what is copied, with what is left, is what was there |
| IpcChannel.Transport.Write | ipc/src/transport_inprocess.cpp:79-88 | a write is queued whole or discarded whole, and after one is discarded all are |
| IpcChannel.Transport.Close | ipc/src/transport_inprocess.cpp:121-128 | closing marks the receiving pipe closed once |
| IpcChannel.Channel.SendRaw | ipc/src/channel.cpp:45-60 | on a live pipe exactly one whole frame joins the stream, on a dead one nothing |
| IpcChannel.Channel.ReadLoop | ipc/src/channel.cpp:64-104 | whatever bytes arrive, the messages are exactly the complete frames of what was taken from the stream, and an error is reported if and only if a header in it fails its checks; without one, the loop ends by a disconnect or a starving pipe with nothing left to read |
| Checksum.IpCksum | src/hvf/network.cpp:47-54 | the result is the complement of the folded sum for every length, odd ones included, without overflow of the 32-bit accumulator |
| Checksum.TransportCksum | src/hvf/network.cpp:56-72 | the same over pseudo-header and segment, for every 16-bit length |
| Checksum.AddWords | src/hvf/network.cpp:50-51 | the word loop and the odd byte add up exactly the sum of the bytes |
| Checksum.FoldAndComplement | src/hvf/network.cpp:52-53 | the fold loop terminates with the complement of the folded value |
| Checksum.FoldMod | src/hvf/network.cpp:52 | folding keeps the value modulo 0xffff and is zero only for zero |
| Checksum.ByteOrder | src/hvf/network.cpp:47-54 | the sum a big-endian reader forms is 0x100 times the little-endian one modulo 0xffff |
| Checksum.FieldVerifies | src/hvf/network.cpp:47-54 | a message with the checksum stored in a zeroed even-offset field folds to 0xffff for readers of either byte order |
| Checksum.SumGrows | src/hvf/network.cpp:50-51 | every word counts once, and an odd last byte as a word padded on the right in network byte order |
| NetFrames.EmitIp | src/hvf/network.cpp:132-159 | the frame parses back to the addresses, protocol and payload given, and its header checksum verifies |
| NetFrames.SendTcp | src/hvf/network.cpp:161-185 | the frame decodes to exactly the addresses, ports, sequence numbers, flags and data given; its bytes are those of the three headers field by field; the header checksum verifies, and the TCP checksum verifies over the frame's own addresses, a zero, its protocol, its length and its segment |
| NetFrames.SendUdp | src/hvf/network.cpp:187-205 | as for TCP; the stored checksum is never zero, and it verifies after the substitution of 0xffff |
| NetFrames.HandleIcmp | src/hvf/network.cpp:238-252 | only echo requests are answered; the reply repeats the request but for the type and its checksum verifies |
| NetFrames.ParseFrameInverse | src/hvf/network.cpp:649-675 | the dispatcher's decode undoes the layout of any Ethernet and IPv4 header and payload |
| NetFrames.ParseTcpInverse | src/hvf/network.cpp:413-424 | the TCP header decode undoes its layout, data included |
| NetFrames.ParseUdpInverse | src/hvf/network.cpp:343-350 | the UDP header decode undoes its layout, data included |
| NetFrames.ParseFrameReads | src/hvf/network.cpp:649-675 | a frame with any IPv4 options and any padding behind it decodes to its fields and the payload its lengths leave |
| NetFrames.ParseTcpReads | src/hvf/network.cpp:413-424 | a segment with any TCP options decodes to its fields and the data behind them |
| Dhcp.Walk | src/hvf/network.cpp:262-273 | the option loop terminates on every input and computes the walk, reads past the end given by an arbitrary byte |
| Dhcp.WalkEncoded | src/hvf/network.cpp:266-273 | on the encoding of any option list with pads, anywhere in a packet, the walk goes on after it with the first byte of the last nonempty option 53 |
| Dhcp.WalkDecodes | src/hvf/network.cpp:266-273 | so that byte is the result, whether an end mark with anything behind it or the end of the packet follows |
| Dhcp.HandleDhcp | src/hvf/network.cpp:256-307 | exactly message types 1 and 3 are answered, with 300 bytes that hold, at their offsets, the guest's and the gateway's address, the request's id and hardware address, the cookie, and the six options |
| Dhcp.ReplyAnswers | src/hvf/network.cpp:275-305 | the walk run on the reply returns 2 for a DISCOVER and 5 for a REQUEST |
| Dhcp.OptionsDecode | src/hvf/network.cpp:290-303 | decoded by tag, these options are the message type, the gateway as server and router, a lease of 86400 seconds, the mask 255.255.255.0 and the name server |
| Dhcp.WalkTurn | src/hvf/network.cpp:266-273 | one turn of the walk over a pad, the end mark, option 53 and any other option, in numbers |
| TcpProofs.GuestStreamIsPrefix | src/hvf/network.cpp:435-447 | for a guest-opened connection, whatever is lost, repeated, reordered or re-cut and whatever comes for later connections of the same addresses and ports, the bytes written to the host socket are a prefix of those accepted, these a prefix of the guest's stream, and g_nxt is the SYN's number plus one plus their count and the FINs counted, modulo 2^32 |
| TcpProofs.AcksAreHeld | src/hvf/network.cpp:539-565 | every ACK sent carries a value g_nxt has had |
| TcpProofs.HostStreamInPlace | src/hvf/network.cpp:386-396 | in every run each data segment sent carries the bytes of its own reservation at their place in what was read from the host socket |
| TcpProofs.ReservationsPartition | src/hvf/network.cpp:386-406 | in every run and for every connection the reservations partition the sequence numbers from the initial one up to h_nxt modulo 2^32, no gap and no overlap, and every segment sent, SYN-ACK, data or FIN, has the first number, the data and the flags of its own reservation |
| TcpProofs.RangesTile | src/hvf/network.cpp:389-406 | in any list of reservations every offset below their total lies in exactly one of them |
| TcpProofs.SegmentsFit | src/hvf/network.cpp:379-396 | every segment sent in a run fits the frame that is to carry it |
| TcpProofs.DataInPlace | src/hvf/network.cpp:386-396 | a data reservation is the stretch of the host's stream that follows the data reserved before it |
| TcpProofs.TableInvariant | src/hvf/network.cpp:435-515 | in every run each table entry mirrors its key, past CONNECTING it has a valid descriptor, and its IO thread was launched exactly once if established and else never |
| TcpProofs.StepKeeps | src/hvf/network.cpp:377-610 | every atomic step of every thread keeps the invariant, and every connection's state only moves CONNECTING, SYNACK_SENT, ESTABLISHED while its history only grows |
| TcpProofs.RunKeeps | src/hvf/network.cpp:377-610 | the invariant holds in every run of the stack |
| TcpEffects.EstablishedSegment | src/hvf/network.cpp:519-566 | on an established connection data that starts at g_nxt is accepted, written and counted, other data is not; a FIN counts one, ends the connection and is answered with FIN and ACK; else what was taken is acknowledged up to its end; nothing else changes |
| TcpEffects.SynSegment | src/hvf/network.cpp:434-487 | a first SYN enters a connection whose g_nxt is its number plus one, or changes nothing when there is one |
| TcpEffects.EarlySegment | src/hvf/network.cpp:507-517 | an ACK after the SYN-ACK establishes the connection and starts its IO thread; nothing else does |
| TcpEffects.ResetSegment | src/hvf/network.cpp:501-505 | a RST stops the connection and removes its entry |
| TcpEffects.UnknownSegment | src/hvf/network.cpp:489-497 | a segment of no connection is answered with a RST numbered by its ACK, unless it is a RST |
| TcpEffects.SocketConnected | src/hvf/network.cpp:467-478 | a connected socket leads to a SYN-ACK that takes one number and acknowledges g_nxt |
| TcpEffects.SocketFails | src/hvf/network.cpp:479-484 | a socket that does not connect costs the connection its entry |
| TcpEffects.HostDataIsSent | src/hvf/network.cpp:381-397 | data read is sent with PSH and ACK at h_nxt, which moves by its length |
| TcpEffects.HostCloses | src/hvf/network.cpp:399-410 | at the end of the host's stream a FIN is sent and the key queued for reaping |
| TcpEffects.ForwardStarts | src/hvf/network.cpp:571-598 | a forwarded connection starts with a SYN of its own number and leaves an entry that is there already |
| TcpStack.Stack.HandleTcp | src/hvf/network.cpp:413-567 | handling a segment without interruption is a run of the machine's steps for it |
| TcpStack.Stack.HandleEstablished | src/hvf/network.cpp:519-566 | the data and FIN part, write and reply included, is that run |
| TcpStack.Stack.ReapDone | src/hvf/network.cpp:430-432 | reaping removes exactly the queued keys from the table |
| TcpStack.Stack.IoPass | src/hvf/network.cpp:381-397 | one pass of the IO loop is a run that reserves and sends what was read |
| TcpStack.Stack.IoThread | src/hvf/network.cpp:377-411 | the whole IO thread is a run: a pass for each chunk, then a FIN unless told to stop, then its key queued for reaping |
| TcpStack.FinishIsRun | src/hvf/network.cpp:413-567 | the handler's remaining steps after delivery end and are steps of the machine |
| VirtQueue.RingIsFifo | src/hvf/virtio_block.cpp:124-195 | in every interleaving of driver and device, through any number of wraps of the 16-bit indices, the nth chain served is the nth published, and the nth used entry collected names the nth of those returned, each once and in order; last_avail is ahead of used.idx by the number passed over, so where none is, they are equal and the nth entry names the nth chain |
| VirtQueue.PendingCount | src/hvf/virtio_block.cpp:124-125 | a drain has exactly (avail.idx - last_avail) mod 2^16 chains to serve, those published and not yet served |
| VirtQueue.RunKeeps | src/hvf/virtio_block.cpp:124-195 | the ring invariant holds over every run of driver and device |
| VirtQueue.NextIsOldest | src/hvf/virtio_block.cpp:124-125 | the loop test finds a chain exactly if a published one is unserved, and then the oldest |
| VirtQueue.StepsHappen | src/hvf/virtio_block.cpp:124-195 | a driver with room publishes, a device with a chain waiting takes the oldest, and a driver with an entry waiting collects the next |
| VirtQueue.DrainIsRun | src/hvf/virtio_net.cpp:158-185 | serving the pending chains is the device's side of such a run, chain by chain in order |
| VirtQueue.NextInDrain | src/hvf/virtio_net.cpp:158-159 | after serving n chains the loop goes on exactly if n is less than the number pending, with the nth pending head |
| VirtQueue.ServedPositions | src/hvf/virtio_net.cpp:178-183 | last_avail and used.idx both move by the number of chains served |
| VirtQueue.Queue.Return | src/hvf/virtio_block.cpp:188-193 | the used entry is written, published and passed over as in the ring model |
| GuestMemory.GatherScatter | src/hvf/virtio_block.cpp:159-179 | gathering over disjoint buffers undoes scattering over them |
| GuestMemory.ScatterFrame | src/hvf/virtio_block.cpp:159-179 | scattering changes no byte outside the buffers |
| GuestMemory.NextHop | src/hvf/virtio_block.cpp:178 | one hop along a chain that ends leaves exactly the rest of it |
| GuestMemory.NoReturn | src/hvf/virtio_net.cpp:118-122 | a chain that ends never comes back to its head, so comparing with the head identifies the first buffer |
| GuestMemory.LinkedIsPath | src/hvf/virtio_block.cpp:162-179 | descriptors linked by NEXT flags and next fields are the chain of the first of them |
| GuestMemory.GatherAppend | src/hvf/virtio_block.cpp:159-179 | one buffer more adds its bytes behind those of the others |
| GuestMemory.BuffersAt | src/hvf/virtio_block.cpp:163-165 | the buffers of a mapped chain are those of its descriptors, one by one |
| VirtioBlock.OutReplaces | src/hvf/virtio_block.cpp:170-172 | a write plan replaces exactly the disk bytes from its offset on with the concatenation of its data buffers, changes no RAM but the status byte, and reports length 1 |
| VirtioBlock.InScatters | src/hvf/virtio_block.cpp:166-169 | a read plan puts exactly the disk bytes from its offset on into its buffers in chain order, changes no other RAM but the status byte, leaves the disk alone, and reports the data length plus 1 |
| VirtioBlock.ReadAfterWrite | src/hvf/virtio_block.cpp:159-179 | a read of any part of a written range, through any other segmentation, delivers that part of the bytes written |
| VirtioBlock.ReadElsewhere | src/hvf/virtio_block.cpp:159-179 | a read of a range apart from the written one is not affected by the write |
| VirtioBlock.IdentityNamesDisk | src/hvf/virtio_block.cpp:149-157 | the identity request writes the name padded with zeros to twenty bytes and reports its whole buffer |
| VirtioBlock.UnknownMovesNothing | src/hvf/virtio_block.cpp:173-175 | an unknown kind moves no data and reports UNSUPP unless it had none |
| VirtioBlock.MoveNext | src/hvf/virtio_block.cpp:162-177 | one buffer more continues on disk exactly where the buffers before it stopped |
| VirtioBlock.StopsAtBadHeader | src/hvf/virtio_block.cpp:129-137 | a drain serves every chain up to the first bad header and no further |
| BlockRequests.WriteRequest | src/hvf/virtio_block.cpp:125-191 | a chain whose header in RAM has type 1 puts the bytes of the buffers between header and last descriptor on disk from sector*512 on, with status 0 and length 1 |
| BlockRequests.ReadRequest | src/hvf/virtio_block.cpp:125-191 | one of type 0 fills those buffers with the disk bytes from sector*512 on, with status 0 and the data length plus 1 |
| BlockRequests.FlushRequest | src/hvf/virtio_block.cpp:146-148 | one of type 4 writes only status 0, into the descriptor behind the header |
| BlockRequests.IdentityRequest | src/hvf/virtio_block.cpp:149-157 | one of type 8 writes "vda" and seventeen zeros into the first buffer and status 0 into the one behind |
| BlockRequests.OtherRequest | src/hvf/virtio_block.cpp:173-175 | any other type moves nothing and reports status 2 unless it had no data |
| BlockRequests.BadHeader | src/hvf/virtio_block.cpp:129-137 | a header is good exactly if it is mapped, has sixteen bytes and a successor |
| VirtioBlock.Block.Walk | src/hvf/virtio_block.cpp:159-179 | the loop over the data descriptors moves what the specification of the transfer says, and ends at the status descriptor |
| VirtioBlock.Block.ServeRequest | src/hvf/virtio_block.cpp:128-186 | one request has the effect on RAM and disk and the used length that the request lemmas describe from its bytes |
| VirtioBlock.Block.ProcessRq | src/hvf/virtio_block.cpp:113-201 | the drain leaves the specified store, ring and interrupt, stopping only at a bad header |
| VirtioNet.ReceiveThenGather | src/hvf/virtio_net.cpp:102-134 | a mapped chain whose first buffer has twelve bytes at least receives twelve zero bytes and the longest prefix of the frame that fits, reports exactly that length and changes nothing else; gathering it the transmitting way gives these bytes back |
| VirtioNet.GatherPour | src/hvf/virtio_net.cpp:113-134 | after pouring, the buffers hold the data that fitted and then what they held before |
| VirtioNet.PourLen | src/hvf/virtio_net.cpp:113-134 | as much is written as fits, and that is reported |
| VirtioNet.PourFrame | src/hvf/virtio_net.cpp:113-134 | bytes outside the buffers keep their values |
| VirtioNet.HeaderFirst | src/hvf/virtio_net.cpp:106-126 | writing the header first and the frame behind it comes to pouring both in one |
| VirtioNet.SameBytes | src/hvf/virtio_net.cpp:163-170 | when all buffers are mapped, receiving and transmitting walk the same bytes |
| VirtioNet.Net.Fill | src/hvf/virtio_net.cpp:102-134 | the scatter loop, with its test for the first buffer, does what the specification of feeding says, on every chain that ends |
| VirtioNet.Net.DoFeedRx | src/hvf/virtio_net.cpp:93-144 | a frame goes into the oldest waiting chain, or nothing changes when there is none |
| VirtioNet.Net.FlushOne | src/hvf/virtio_net.cpp:73-91 | frames leave the queue oldest first, each delivered or dropped |
| VirtioNet.Net.GatherChain | src/hvf/virtio_net.cpp:158-170 | the gather loop collects the concatenation of the chain's mapped buffers |
| VirtioNet.Net.ProcessTx | src/hvf/virtio_net.cpp:146-191 | the drain passes on the payloads of all pending chains in order and returns each with its length |
| VirtioNet.ChainIsSent | src/hvf/virtio_net.cpp:163-176 | what is passed on from a linked chain is what its buffers hold behind the first twelve bytes, if there is more |
| VirtioNet.MappedFirst | src/hvf/virtio_net.cpp:113-134 | receiving fills the buffers in chain order up to the first that is not mapped |
| VirtioInput.EventsAreConserved | src/hvf/virtio_input.cpp:143-186 | over every run since a reset the events delivered followed by those waiting are an in-order subsequence of those pushed, at most 128 wait, as many are missing as were dropped, and if none was dropped nothing is missing |
| VirtioInput.RunKeeps | src/hvf/virtio_input.cpp:126-186 | what waits is always the newest part of what was pushed |
| VirtioInput.FlushDelivers | src/hvf/virtio_input.cpp:149-186 | a flush delivers the oldest events in order, as many as used.idx moves, and stops only when no event or no buffer is left |
| VirtioInput.FlushIsRun | src/hvf/virtio_input.cpp:160-180 | a flush is a run of the ring system, with unusable buffers passed over, that adds one used entry for each event delivered |
| VirtioInput.EventsReachDriver | src/hvf/virtio_input.cpp:160-180 | if the buffers waiting do not overlap, then after a flush the driver decodes from the buffer its ith new used entry names exactly the ith event delivered |
| VirtioInput.BufferHoldsEvent | src/hvf/virtio_input.cpp:161-176 | the driver decodes from a usable buffer exactly the oldest event, finds a used entry for it, and no other RAM changed |
| VirtioInput.BufferIsUsed | src/hvf/virtio_input.cpp:161-179 | a buffer is filled exactly if it is mapped, device-writable and of eight bytes at least; any other is passed over and the event waits |
| VirtioInput.PushDrops | src/hvf/virtio_input.cpp:143-147 | a push drops an event only when 128 wait, and then the oldest |
| VirtioInput.EventBytes | src/hvf/virtio_input.cpp:167-169 | an event is its type and code in two bytes each and its value in four |
| VirtioInput.PointerEvents | src/hvf/virtio_input.cpp:133-141 | a movement is two absolute positions, two buttons and a report, in numbers |
| VirtioInput.Input.FlushEvents | src/hvf/virtio_input.cpp:149-186 | the loop is that flush, and raises the interrupt exactly if it delivered something |
| VirtioInput.Input.PushEvent | src/hvf/virtio_input.cpp:143-147 | a push is the step of the event log: the oldest event goes when more than 128 would wait |
| VirtioInput.Input.SendPointer | src/hvf/virtio_input.cpp:133-141 | five events are pushed in order before the flush |
| VirtioInput.Input.ProcessStatusq | src/hvf/virtio_input.cpp:188-213 | every pending status buffer is returned in order with length zero |
| VirtioInput.Input.ResetDevice | src/hvf/virtio_input.cpp:278-283 | a reset empties the log and the positions |
| GpuBacking.ReadBacking | src/hvf/virtio_gpu.cpp:161-191 | the window receives the bytes of the concatenated backing entries, zeros where an entry is unmapped, and keeps its own past the end; the count returned is what the backing has of the range |
| GpuBacking.WindowGrows | src/hvf/virtio_gpu.cpp:173-186 | one entry more changes a window exactly where the two overlap |
| GpuBacking.EntryPart | src/hvf/virtio_gpu.cpp:182-184 | the part of an entry that is copied is RAM or zeros, as the entry is mapped or not |
| GpuTransfer.TransferAt | src/hvf/virtio_gpu.cpp:317-340 | every byte in the clipped rectangle becomes the byte at offset + (row - y) * stride + (column - x) * 4 of the backing, or stays past its end; every byte outside stays |
| GpuTransfer.PixelMoves | src/hvf/virtio_gpu.cpp:317-340 | by pixels: inside the rectangle a byte comes from the backing pixel as far from the corner, outside it stays |
| GpuTransfer.RowInside | src/hvf/virtio_gpu.cpp:321-338 | every row copied lies in the host buffer, whatever wraps at 32 bits |
| GpuTransfer.TransferAllAt | src/hvf/virtio_gpu.cpp:307-343 | after any sequence of transfers with their own offsets a byte is the backing's exactly if some rectangle covered it |
| GpuTransfer.TilingCopiesAll | src/hvf/virtio_gpu.cpp:307-343 | transfers that cover the resource leave exactly the first width*height*4 backing bytes |
| GpuTransfer.TilingIsFullTransfer | src/hvf/virtio_gpu.cpp:307-343 | which is what one full transfer leaves |
| GpuTransfer.TransferRows | src/hvf/virtio_gpu.cpp:321-340 | the row loop does what the specification of the transfer says, in place |
| GpuCommands.FlushShowsBacking | src/hvf/virtio_gpu.cpp:286-343 | a covering set of transfers and a flush of the scanout stage exactly the first width*height*4 backing bytes |
| GpuCommands.FramesAreTheScanout | src/hvf/virtio_gpu.cpp:286-305 | over every run of commands, deliveries and resets each frame staged or delivered is that of the resource which was the scanout at its flush, with the size it claims |
| GpuCommands.FrameSize | src/hvf/virtio_gpu.cpp:300-301 | such a frame has stride times height bytes if and only if its width does not wrap the 32-bit stride or its height is zero |
| GpuCommands.ApplyKeeps | src/hvf/virtio_gpu.cpp:221-379 | every command keeps each resource's id equal to its key and its buffer at width*height*4 bytes |
| GpuCommands.Play | src/hvf/virtio_gpu.cpp:520-527 | so does every run of commands, deliveries and resets |
| GpuCommands.ResponseFits | src/hvf/virtio_gpu.cpp:203-236 | every response fits the capacity, begins with its code, and is empty only for a request shorter than a header |
| GpuRequests.CreateRequest | src/hvf/virtio_gpu.cpp:238-258 | bytes of code 0x101 make a blank resource of exactly the id, format, width and height at offsets 24 to 36 |
| GpuRequests.UnrefRequest | src/hvf/virtio_gpu.cpp:259-270 | code 0x102 removes the resource and clears the scanout if it was shown |
| GpuRequests.ScanoutRequest | src/hvf/virtio_gpu.cpp:272-284 | code 0x103 makes the resource at offset 44 the scanout if offset 40 holds zero |
| GpuRequests.FlushRequest | src/hvf/virtio_gpu.cpp:286-305 | code 0x104 stages the buffer of the scanout with stride width*4, and refuses an unknown id |
| GpuRequests.TransferRequest | src/hvf/virtio_gpu.cpp:307-343 | code 0x105 transfers the rectangle at offsets 24 to 36 from the 64-bit offset at 40 |
| GpuRequests.AttachRequest | src/hvf/virtio_gpu.cpp:345-368 | code 0x106 appends the sixteen-byte entries from offset 32 on, as many as are announced and there |
| GpuRequests.DetachRequest | src/hvf/virtio_gpu.cpp:369-379 | code 0x107 empties the backing |
| GpuRequests.InfoRequest | src/hvf/virtio_gpu.cpp:221-236 | code 0x100 is answered with the 408 bytes of one enabled mode of the device's size, as far as they fit |
| GpuRequests.BadRequest | src/hvf/virtio_gpu.cpp:381-386 | unknown codes and requests cut short are refused with 0x1200, and less than a header is not answered |
| GpuRequests.ResponseWritten | src/hvf/virtio_gpu.cpp:203-219 | a response is its code, and for a fenced request that succeeds the flag and bytes 8 to 16 of the request; nothing else in RAM changes |
| GpuRequests.UsualChain | src/hvf/virtio_gpu.cpp:402-425 | the usual chain of two descriptors is carried out on the bytes of the first and answered into the second |
| GpuRequests.LastWritableIs | src/hvf/virtio_gpu.cpp:407-414 | the response goes to the last buffer the device may write |
| VirtioGpu.ReportedFits | src/hvf/virtio_gpu.cpp:423-430 | the length reported never exceeds the length of the response descriptor |
| VirtioGpu.FollowAt | src/hvf/virtio_gpu.cpp:407-421 | the walk of at most 64 steps follows the links and stops at the last descriptor or at the bound |
| VirtioGpu.Gpu.Collect | src/hvf/virtio_gpu.cpp:402-421 | the walk ends for every table, cyclic ones included, with the readable bytes up to the first unmapped buffer and the last writable descriptor |
| VirtioGpu.Gpu.TransferToHost | src/hvf/virtio_gpu.cpp:307-343 | the command has the specified effect on the table |
| VirtioGpu.Gpu.ParseEntries | src/hvf/virtio_gpu.cpp:355-362 | exactly the entries announced and present are taken |
| VirtioGpu.Gpu.HandleCommand | src/hvf/virtio_gpu.cpp:195-386 | a request has the effect on the table and the response in RAM that the request lemmas describe from its bytes |
| VirtioGpu.Gpu.ProcessControlq | src/hvf/virtio_gpu.cpp:390-439 | the drain serves all pending chains in order with the specified effects and used lengths |
| VirtioGpu.Gpu.DeliverFrames | src/hvf/virtio_gpu.cpp:549-557 | the staged frames are handed over in order, once |
| VirtioGpu.Gpu.ResetDevice | src/hvf/virtio_gpu.cpp:520-527 | a reset leaves the empty table |
| Psci.StartsAsAsked | src/hvf/vcpu.cpp:57-69 | in every interleaving a secondary is set up at most once and only after a CPU_ON for it; entry and context each come from a call issued before it had loaded both; if those calls are closed under mixing the pair is that of one of them, and with a single call that call's |
| Psci.AsAskedIffClosed | src/hvf/fw_psci.cpp:40-54 | for any calls, every interleaving starts the target with a pair that was asked for, if and only if the calls are closed under mixing |
| Psci.MixedStart | src/hvf/fw_psci.cpp:40-54 | after any calls, two more whose stores interleave start the target with the entry of one and the context of the other |
| Psci.WaitsUntilAsked | src/hvf/vcpu.cpp:58-60 | a secondary nobody asked for only spins |
| Psci.TwoCallsMayMix | src/hvf/fw_psci.cpp:40-54 | for any two calls under way, that interleaving starts the target as asked if and only if they agree on the entry point or on the context |
| Psci.RunKeeps | src/hvf/fw_psci.cpp:49-51 | over every run, what a spinning target can read behind a set flag comes from calls issued for it |
| Psci.CallDelivers | src/hvf/fw_psci.cpp:40-54 | a whole CPU_ON puts its entry, its context and the flag into the mailbox of the vCPU it names, and is noted there |
| Psci.Host.CpuOn | src/hvf/fw_psci.cpp:40-54 | the requester's three stores, in order, are a run of the handshake, and a target out of range is refused with nothing stored |
| Psci.Host.Boot | src/hvf/vcpu.cpp:58-69 | the target's loads, clear and set-up are a run of the handshake |

## Left out

Not modelled:

- The console device: its two loops are the network device's gather and a simpler scatter.
- `DTB::generate` and the `prop_u32`, `prop_str`, `prop_strlist` and `prop_cells` helpers: the builder theorem covers any tree.
- Sockets, poll, files, mmap, the hypervisor, the interrupt controller, logging, JSON, Unix and Windows transports, and `src/vz`.
- MMIO register files, feature negotiation, queue addresses and identification registers; a queue is modelled as set up or not.
- ARP, DNS and the generic UDP forwarder, which only relay.
- Lock structure: what runs under a mutex is one step, or several steps that exclude others of the same mutex; `Net::enqueue_rx` is a plain append.
- Memory orders: atomics behave sequentially consistently.

Assumed, as the code does or because it checks no more:

- Transfers to sockets and disk are complete, and disk requests lie within capacity; `pread` and `pwrite` errors do not occur.
- Buffers that start in guest RAM also end there; an entry of a graphics backing lies in RAM as a whole or not at all, since `gpa_to_hva` looks at one address.
- Rings, descriptor tables and data buffers do not overlap; descriptor indices are in range; the driver's queue size is that of the device and it has no more chains outstanding than slots.
- Chains of the block and network devices end; those of the graphics device may be cyclic.
- Payloads fit a frame of 2048 bytes. One place where the code does not see to that is the IO thread's `read` of up to 4096 bytes (src/hvf/network.cpp:379-386), of which 1994 fit behind the headers; its chunks are assumed no longer.
- Blobs and frames have 32-bit sizes, buffer sizes and offsets of the graphics device do not wrap at 64 bits, and its requests are shorter than 4 GiB.
- One frame handler runs at a time, because the network device calls it under its own mutex.

Weaker than one might wish:

- TcpProofs.GuestStreamIsPrefix: is about connections the guest opens; on forwarded ones `g_nxt` is never set from the guest's SYN-ACK (src/hvf/network.cpp:508-515).
- TcpProofs.TableInvariant: does not say that only dead connections are reaped, because `done_queue` holds keys, which may be reused (src/hvf/network.cpp:409, 431).
- TcpProofs.AcksAreHeld: an out-of-order FIN is counted all the same (src/hvf/network.cpp:531-532), so the value is one g_nxt had, not one the guest's stream has reached.
- TcpMachine.Apply: the guest's hardware address, copied into each connection, is not tracked.
- NetFrames.SendTcp: is about data that fits a frame, at most 1994 bytes; `read` may hand over more (src/hvf/network.cpp:386-396).
- NetFrames.ParseFrameInverse: a frame whose IP length exceeds its own is only classified (`Overrun`), because the code reads past it (src/hvf/network.cpp:666-670).
- VirtioNet.Net.DoFeedRx: frames that find no buffer are lost (src/hvf/virtio_net.cpp:100).
- VirtioGpu.Gpu.TransferToHost: the host buffer is copied out, changed in place and stored back, so aliasing between resources is not modelled.
- IpcChannel.Transport.Close: closing one end does not wake a reader of the other (ipc/src/transport_inprocess.cpp:121-128).
- Psci.StartsAsAsked: says nothing about shutting down a vCPU that was never started (src/hvf/vcpu.cpp:59).
