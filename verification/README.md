# Verified model of wfb-link

wfb-link drives an RTL8812AU USB adapter from user space and carries WFB-NG traffic over it. This project
models the parts of it that are protocol and state, and proves what they keep:

* **Register tables.** The vendor's C tables are parsed (`RealtekText`) and run by a flat
  if / else-if / else / end-if interpreter (`RealtekTable`, conditions in `RealtekCondition`). Running the
  flat form of a structured program plans exactly what the program means (`RealtekPrograms`), also when the
  program is printed as C source with comments and read back (`RealtekPrinter`, `RealtekSource`). Exactly
  which printed layouts read back is in `RealtekJoins`, and exactly when a block inside another block is run
  as meant in `RealtekNesting`.
* **Tunnel framing.** IP packets are packed into datagrams and unpacked (`Tunnel`, `TunnelRuns`,
  `TunBridge`). Over every run the stream is delivered in order, the packing is optimal, the latency is
  bounded and the byte counters balance. `PythonTunnel` is the older script's aggregator, a list of records,
  which the flat buffer simulates.
* **Radio packets and the bridge.** Descriptors are built in place (`TxRates`, `TxDescriptor`, `TxBuild`,
  `TxSubmit`) and decode to what was planned. Received transfers are drained packet by packet (`Align`,
  `RxPacket`, `RxTransfer`). Frame headers, radiotap headers and datagrams are added and removed (`WfbFrame`,
  `Radiotap`, `WfbForward`, `WfbBridge`). `EndToEnd` composes all of it into one theorem about a payload.
* **Sessions and sockets.** `ManagedSession` is the Android session handle under every interleaving of its
  worker and any number of stop callers. `LinkBinds`, `LinkStreams` and `LinkRuntime` are the rewriting and
  reading back of the runtime's socket configuration.
* **Planners.** `FirmwarePlan`, `FirmwareDevice` and `FirmwareImage` are the firmware download;
  `TxPower` is the EFUSE transmit power plan.

Code that changes things in place is a class or a method over arrays and sequences, with loops, and each
method is proved against a specification function; the properties are lemmas about those functions and
about runs of them. Four assumptions are made about what is outside: a radio sends as many bytes behind the
descriptor as its length field says; a received packet carries the frame followed by four check bytes; the
firmware window shows the page its three-bit selector names; and a compare-and-swap compares the identity
of immutable status objects, each of which gets its own number.

Where code and expectation part, the model follows the code and a theorem says exactly where:

* above a maximum size of 65537 a refused packet can cost the batch flushed for it (`Tunnel.DropWitness`); the
  stream, the bytes and the agreement with the older script are kept in exactly the runs in which no call
  meets that case (`Tunnel.StreamFidelity`, `TunnelRuns.BytesConserved`, `PythonTunnel.RustSimulatesPython`);
* a block comment between two literals joins them once stripped: the pair reads back only as zero and a
  single digit (`RealtekJoins.BlockCommentAloneJoins`), and a whole table exactly if its literals join well
  wherever they run together (`RealtekJoins.PrintedLayoutReadsBackIff`);
* a block inside an arm of another ends the outer choice with its own end-if
  (`RealtekNesting.NestLeaks`, `RealtekNesting.NestRunsAsMeantIff`);
* a package type above 15 spills into the platform byte of the condition word
  (`RealtekCondition.DriverFields`);
* a 20 MHz frame on a 40 MHz channel is refused on channels 149 to 165, which count as supporting 40 MHz
  (`TxRates.NarrowOn40`);
* a payload arrives one zero byte longer when header, payload and 40 make a multiple of 512
  (`EndToEnd.PayloadArrives`), and the descriptor's length field is wrong from 65536 on
  (`EndToEnd.DescriptorTellsLength`);
* two channel ids that differ only above bit 23 of the link id look alike on the air
  (`WfbFrame.RawCollides`);
* a stop accepted between the worker's read and its write is not in the final status
  (`ManagedSession.LostStop`, `ManagedSession.StopLostIffLate`);
* removing a bind that is both the first and a later one leaves the later one, and the fallback takes its
  own place when it is the only bind (`LinkBinds.RemovedIsGone`);
* without a transmit stream the old bind address is read back as one (`LinkStreams.ReadBack`);
* the device holds a whole firmware payload exactly when the payload repeats itself every 32768 bytes, in
  particular when it has at most that many (`FirmwareDevice.WholePayloadHeld`).

## Model

| member | source | states |
|---|---|---|
| RealtekTable.PlanTable | crates/radio-core/src/realtek_table.rs:152-251 | the loop over the pairs, with its four mutable variables, computes the run of the state machine, or the odd-count error |
| RealtekTable.PlanRealtekTable | crates/radio-core/src/realtek_table.rs:152-251 | the same for the conditions of a given adapter |
| RealtekPrograms.EveryPairAccounted | crates/radio-core/src/realtek_table.rs:165-250 | markers, skipped pairs and actions add up to the pairs, for every table and starting state |
| RealtekPrograms.ActionsComeFromPairs | crates/radio-core/src/realtek_table.rs:210-240 | actions are those of unmarked pairs, each with its own index, in order |
| RealtekPrograms.FlatRunIsMeaning | crates/radio-core/src/realtek_table.rs:165-250 | the flat form of every structured program plans exactly the first true branch of each block, else the else part, and every end-if restores the starting state |
| RealtekPrograms.EndIfResumes | crates/radio-core/src/realtek_table.rs:177-203 | after any end-if, whatever blocks were open, pairs are acted upon again |
| RealtekNesting.NestRunsAsMeantIff | crates/radio-core/src/realtek_table.rs:165-250 | a block with a block inside an arm is run as meant if and only if what the inner end-if lets through would plan nothing, told apart by which outer arm is taken |
| RealtekNesting.NestLeaks | crates/radio-core/src/realtek_table.rs:165-250 | a nested program whose arm does not hold and whose write goes out all the same |
| RealtekPrograms.PlanIsMeaning | crates/radio-core/src/realtek_table.rs:152-251 | the planner's actions are the program's meaning on every adapter, and its three counts add up to the pair count |
| RealtekCondition.CheckMeansFieldsAgree | crates/radio-core/src/realtek_table.rs:374-455 | the masked word comparison holds exactly if cut, package, interface, platform and the amplifier types asked for agree |
| RealtekCondition.DriverFields | crates/radio-core/src/realtek_table.rs:380-414 | where each property of the adapter lands in the driver words, with the package-type spill |
| RealtekText.FindArrayBodyLoop | crates/radio-core/src/realtek_table.rs:253-284 | the brace-matching loop computes the body function |
| RealtekText.BodyIsBalanced | crates/radio-core/src/realtek_table.rs:253-284 | the body found is the balanced text after the first brace behind the name, and is missed only if name or closing brace is missing |
| RealtekText.ClosingBraceUnique | crates/radio-core/src/realtek_table.rs:268-283 | a body has one closing brace only |
| RealtekText.StripCComments | crates/radio-core/src/realtek_table.rs:286-321 | the stripping loops compute the stripping function |
| RealtekText.StripLeavesNoOpener | crates/radio-core/src/realtek_table.rs:286-321 | no comment opener is left in stripped text |
| RealtekText.StripIdempotent | crates/radio-core/src/realtek_table.rs:286-321 | stripping twice is stripping once |
| RealtekText.ScanU32Literals | crates/radio-core/src/realtek_table.rs:323-372 | the scanning loops compute the literals, or the first literal that does not fit |
| RealtekPrinter.PrintedTableReadsBack | crates/radio-core/src/realtek_table.rs:119-133 | every declaration whose body is a separated layout of printed literals, blanks and comments reads back as its literals, or as an odd count |
| RealtekPrinter.PrintedBytesReadBack | crates/radio-core/src/realtek_table.rs:135-150 | the byte reader returns the same literals if all fit a byte, else names the first that does not |
| RealtekPrinter.BraceFreeBalances | crates/radio-core/src/realtek_table.rs:268-283 | text without braces, such as a comment, never disturbs the body |
| RealtekJoins.PrintedLayoutReadsBackIff | crates/radio-core/src/realtek_table.rs:286-372 | every layout of literals, blanks and comments reads back as its literals if and only if each literal that runs into the next is zero, or reads as itself with a zero behind it, and the last of such a row is a single digit |
| RealtekJoins.DeclarationReadsBackIff | crates/radio-core/src/realtek_table.rs:119-133 | the whole declaration reads back if and only if that holds and its literals come in pairs |
| RealtekJoins.NonzeroLayoutReadsBackIff | crates/radio-core/src/realtek_table.rs:286-372 | where no zero runs into another literal, a layout reads back if and only if its literals are separated |
| RealtekJoins.BlockCommentAloneJoins | crates/radio-core/src/realtek_table.rs:286-372 | two literals with only a block comment between them read back if and only if the first is zero and the second below ten |
| RealtekJoins.ReadingWithZero | crates/radio-core/src/realtek_table.rs:339-368 | zero and 0x112308 are read as themselves where a literal ran into them and they run into another |
| RealtekSource.ScannedValuesFit | crates/radio-core/src/realtek_table.rs:323-372 | everything scanned fits 32 bits |
| RealtekSource.PrintedProgramIsPlanned | crates/radio-core/src/realtek_table.rs:119-251 | a structured program printed as C source is parsed and planned as its meaning, in every layout that reads back and on every adapter |
| Tunnel.ParseTunnelMessage | crates/wfb-tun/src/lib.rs:235-253 | the parsing loop returns the packets of the message and moves the counters as its tail says |
| Tunnel.ParseSound | crates/wfb-tun/src/lib.rs:235-253 | every byte string is the encoding of the packets parsed and a tail that starts with no complete record |
| Tunnel.ParseInvertsEncode | crates/wfb-tun/src/lib.rs:235-253 | that decomposition is unique |
| Tunnel.CountersNameTheTail | crates/wfb-tun/src/lib.rs:235-253 | no counter moves exactly for clean messages, corrupt exactly for a one-byte tail, and at most one step in all |
| Tunnel.Aggregator.AddPacket | crates/wfb-tun/src/lib.rs:180-210 | one add: the new buffer and deadline, the messages emitted, or the refusal |
| Tunnel.Aggregator.FlushIfDue | crates/wfb-tun/src/lib.rs:212-223 | emits and clears exactly when the deadline has passed |
| Tunnel.RejectionLeavesState | crates/wfb-tun/src/lib.rs:180-210 | a refusal leaves the state alone exactly if it drops no batch, and never drops one at 65537 or below |
| Tunnel.DropWitness | crates/wfb-tun/src/lib.rs:189-198 | a run that loses an accepted packet above that size |
| Tunnel.StreamFidelity | crates/wfb-tun/src/lib.rs:180-253 | over every run of adds, flushes and keepalives no datagram is damaged or too long, and datagrams and pending buffer decode to the accepted packets in order if and only if no call drops a batch, and to fewer packets otherwise |
| Tunnel.SmallRunsDropNothing | crates/wfb-tun/src/lib.rs:180-210 | no call drops a batch where the maximum size is at most 65537 or no packet is longer than 65535 |
| TunnelRuns.DeadlineIsOldestPlusTimeout | crates/wfb-tun/src/lib.rs:180-232 | in every run the deadline is set exactly if bytes are pending, to the oldest packet's time plus the timeout |
| TunnelRuns.FlushDueBoundsLatency | crates/wfb-tun/src/lib.rs:212-223 | after a due flush at `now` everything pending is younger than `now - timeout` |
| TunnelRuns.PackingIsOptimal | crates/wfb-tun/src/lib.rs:180-228 | while no timeout fires, whatever packets are offered, no split of the accepted ones into consecutive groups within the size uses fewer messages |
| TunnelRuns.BytesConserved | crates/wfb-tun/src/lib.rs:180-228 | accepted bytes and two header bytes a packet are sent or pending if and only if no call drops a batch, and some are missing otherwise |
| PythonTunnel.Aggregator.AddPacket | scripts/development/wfb-mac-wf-tun.py:52-67 | one add of the list-of-records aggregator, with its two exceptions |
| PythonTunnel.AddSimulates | scripts/development/wfb-mac-wf-tun.py:44-79 | both versions give the same answer, and stay in step exactly if the flat buffer drops no batch |
| PythonTunnel.FlushDueSimulates | scripts/development/wfb-mac-wf-tun.py:69-79 | a due flush gives the same message and keeps them in step |
| PythonTunnel.RustSimulatesPython | scripts/development/wfb-mac-wf-tun.py:44-79 | the same calls give the same datagrams, acceptances, sizes and deadlines in both versions if and only if no call drops a batch in the flat buffer |
| TunBridge.UtunHeaderRoundTrip | crates/wfb-tun/src/lib.rs:255-276 | exactly IPv4 and IPv6 packets get a device header, and it is stripped to the same packet |
| TunBridge.LoopState.HandleDevice | crates/wfb-tun/src/lib.rs:433-456 | a device frame is stripped, counted, added, and what that emits is sent, up to the first error |
| TunBridge.LoopState.HandleRadio | crates/wfb-tun/src/lib.rs:458-480 | a datagram is counted and parsed and its packets written, up to the first error |
| TunBridge.LoopState.Iterate | crates/wfb-tun/src/lib.rs:417-517 | one turn of the bridge loop over counters, aggregator and device, up to its first error |
| TunBridge.LedgerBalances | crates/wfb-tun/src/lib.rs:417-517 | after every error-free run bytes in plus two a packet equal bytes out plus pending, and received bytes exceed written ones exactly if a corruption counter moved |
| TunBridge.FinalFlushSettles | crates/wfb-tun/src/lib.rs:519-527 | after the final flush the sending ledger is even |
| TxRates.RateRoundTrip | crates/radio-core/src/rtl8812au.rs:586-655 | every rate code sent is read back as the rate, CCK becoming 6 Mbit/s in the 5 GHz band |
| TxRates.SecondaryNamesPosition | crates/radio-core/src/rtl8812au.rs:352-389 | on 80 MHz channels the code names the quarter or half the channel lies in, and only those channels have one |
| TxRates.NarrowOn40 | crates/radio-core/src/rtl8812au.rs:391-402 | exactly which channels take a 20 MHz frame at 40 MHz |
| TxDescriptor.DecodeInvertsDescriptor | crates/radio-core/src/rtl8812au.rs:282-346 | every field that fits its bits is decoded from the descriptor as it was written |
| TxDescriptor.ChecksumCancels | crates/radio-core/src/rtl8812au.rs:671-676 | with the checksum stored the sixteen words of the head exclusive-or to zero |
| TxDescriptor.PlanFits | crates/radio-core/src/rtl8812au.rs:245-345 | every planned field fits, and the rate planned is the normalised one |
| TxDescriptor.TxPacketCorrect | crates/radio-core/src/rtl8812au.rs:245-350 | every packet built is no multiple of 512 long, cancels, holds the frame from byte 40 on and zero behind it, and decodes to its plan |
| TxDescriptor.OptionsRecovered | crates/radio-core/src/rtl8812au.rs:245-345 | a decoder reads the normalised rate, bandwidth, flags, retries and, where the hardware does not count, the frame's own sequence number |
| TxBuild.ChecksumOf | crates/radio-core/src/rtl8812au.rs:671-676 | the loop over the words computes the fold |
| TxBuild.BuildTxPacket | crates/radio-core/src/rtl8812au.rs:245-350 | the byte-by-byte filling of the buffer yields the specified packet, or the first reason for refusing |
| TxSubmit.Submitter.SubmitFrame | crates/radio-core/src/rtl8812au.rs:404-442 | one submission and its counters, for every answer of the endpoint |
| TxSubmit.SubmitLedger | crates/radio-core/src/rtl8812au.rs:404-442 | over every run attempts are rejected, submitted or failed, and the bytes are those taken |
| TxSubmit.SubmittedPacketCarriesFrame | crates/radio-core/src/rtl8812au.rs:404-442 | a submitted frame went out whole in a packet that decodes to its plan |
| Align.AlignUpIsLeastMultiple | crates/radio-core/src/rtl8812au.rs:678-681 | the mask expression gives the least multiple not below, for every power of two |
| RxPacket.ParseIsStable | crates/radio-core/src/rtl8812au.rs:444-549 | a result other than more-data does not change when bytes are appended |
| RxPacket.ConsumedAligned | crates/radio-core/src/rtl8812au.rs:472-474 | the size consumed is the least multiple of 128 that holds the packet |
| RxPacket.ReadRxPackets | crates/wfb-radio-runtime/src/lib.rs:7460-7483 | the drain loop returns the packets of the transfer and counts frames and drops |
| RxTransfer.DrainSeparates | crates/wfb-radio-runtime/src/lib.rs:7460-7483 | padded packets in one transfer are parsed as if each had come alone |
| RxTransfer.DrainReturnsFrames | crates/wfb-radio-runtime/src/lib.rs:7460-7483 | every transfer of packets that carry frames is drained to exactly those frames in order |
| RxTransfer.CarriedFrameParses | crates/radio-core/src/rtl8812au.rs:444-549 | a packet carrying a frame and its check bytes parses to the frame and its aligned size |
| RxTransfer.RxBytesCarries | crates/radio-core/src/rtl8812au.rs:464-549 | such packets exist for every frame that fits, with any driver information, shift and content around it |
| WfbFrame.BuildDataHeader | crates/wfb-bridge/src/frame.rs:57-70 | the slices overwritten in the template give the header of the channel |
| WfbFrame.RawCollides | crates/wfb-bridge/src/frame.rs:29-35 | two channel ids have the same bytes exactly if port and low 24 bits agree |
| WfbFrame.ExtractOnChannel | crates/wfb-bridge/src/frame.rs:52-91 | a headed frame gives its payload on look-alike ids and a channel mismatch on every other |
| WfbFrame.OnlyOwnChannel | crates/wfb-bridge/src/frame.rs:19-91 | among ids below 2^24 a frame is accepted on its own only |
| Radiotap.EncodeParses | crates/wfb-bridge/src/radiotap.rs:66-177 | every description an HT or VHT header can express is read back from its header, whatever follows |
| Radiotap.ParsedIsExpressible | crates/wfb-bridge/src/radiotap.rs:66-177 | and nothing else is ever read |
| Radiotap.HeaderDecides | crates/wfb-bridge/src/radiotap.rs:66-91 | the result depends on the header bytes only |
| WfbForward.WriteHeader | crates/wfb-bridge/src/forward.rs:62-76 | the loops that fill the 17 bytes give the specified header |
| WfbForward.HeaderRoundTrip | crates/wfb-bridge/src/forward.rs:62-83 | every header field and the payload are read back |
| WfbForward.NoiseIsTold | crates/wfb-bridge/src/forward.rs:35-60 | the noise level is told from its absence exactly unless it is 127 |
| WfbBridge.DatagramRoundTrip | crates/wfb-bridge/src/tx.rs:46-65 | a distributor datagram is taken apart into mark, description and frame |
| WfbBridge.AcceptedDatagram | crates/wfb-bridge/src/tx.rs:46-65 | whatever is accepted holds a frame and means the same as the datagram written from its parts |
| WfbBridge.TxBridge.Submit | crates/wfb-bridge/src/tx.rs:67-110 | one submission: outcome and all five counters |
| WfbBridge.TxLedger | crates/wfb-bridge/src/tx.rs:67-110 | over every run incoming is injected plus dropped, and unsupported, malformed and dropped are nested |
| WfbBridge.RxForwarder.BuildForwardDatagram | crates/wfb-bridge/src/rx.rs:35-67 | the datagram or none, and the counters |
| WfbBridge.RxForwarder.ForwardFrame | crates/wfb-bridge/src/rx.rs:77-103 | forwarded, filtered, malformed or failed to send, told apart as the counters say |
| WfbBridge.RxLedger | crates/wfb-bridge/src/rx.rs:35-103 | over every run received is matched, filtered or malformed, and matched is forwarded or failed |
| EndToEnd.DescriptorTellsLength | crates/radio-core/src/rtl8812au.rs:282-291 | the 16-bit length field describes the packet exactly below 65536 |
| EndToEnd.EveryPayloadIsTransmitted | crates/wfb-bridge/src/tx.rs:46-99 | a payload goes out if and only if the radio takes the bandwidth and has a code for the rate |
| EndToEnd.PayloadArrives | crates/wfb-bridge/src/rx.rs:35-67 | header, datagram, descriptor, air, aggregate, drain and forwarding composed: exactly the bridges of its channel forward the payload, with a zero byte exactly at the 512 boundary, whatever happens to the sequence control |
| EndToEnd.EveryPayloadCanArrive | crates/wfb-bridge/src/tx.rs:46-99 | for every payload a receiver can take there is such a journey |
| EndToEnd.RateArrives | crates/wfb-bridge/src/rx.rs:52-75 | the forward header names the MCS asked for by the distributor, or the configured one for other rates |
| ManagedSession.Handle.FinishManager | android/sdk/src/main/java/com/arcedge/wfblink/sdk/WfbManagedStreamsSession.java:114-128 | the blocking call returns a result or an error, and nothing else changes |
| ManagedSession.Handle.ReadForOutcome | android/sdk/src/main/java/com/arcedge/wfblink/sdk/WfbManagedStreamsSession.java:114-137 | the worker's read makes the final status from the one it sees |
| ManagedSession.Handle.WriteOutcome | android/sdk/src/main/java/com/arcedge/wfblink/sdk/WfbManagedStreamsSession.java:139-142 | the worker's write replaces the status unconditionally |
| ManagedSession.Handle.ReadForStop | android/sdk/src/main/java/com/arcedge/wfblink/sdk/WfbManagedStreamsSession.java:75-81 | a stop caller gives up exactly on a terminal status |
| ManagedSession.Handle.SwapForStop | android/sdk/src/main/java/com/arcedge/wfblink/sdk/WfbManagedStreamsSession.java:82-86 | the swap succeeds exactly if the status object is still the one read |
| ManagedSession.StepKeepsInvariant | android/sdk/src/main/java/com/arcedge/wfblink/sdk/WfbManagedStreamsSession.java:29-142 | what every atomic step of worker and callers keeps |
| ManagedSession.TerminalIsFinal | android/sdk/src/main/java/com/arcedge/wfblink/sdk/WfbManagedStreamsSession.java:75-142 | in every interleaving a terminal status is never replaced |
| ManagedSession.TerminalHasOneOutcome | android/sdk/src/main/java/com/arcedge/wfblink/sdk/WfbManagedStreamsStatus.java:32-72 | a status is terminal exactly if it has a result or an error, never both |
| ManagedSession.AwaitGivesOutcome | android/sdk/src/main/java/com/arcedge/wfblink/sdk/WfbManagedStreamsSession.java:89-112 | awaiting a task that ended normally gives what the manager gave, and is never incomplete |
| ManagedSession.FinalStopFlag | android/sdk/src/main/java/com/arcedge/wfblink/sdk/WfbManagedStreamsSession.java:75-142 | the final stop flag is set exactly if some swap landed before the worker's read |
| ManagedSession.StopLostIffLate | android/sdk/src/main/java/com/arcedge/wfblink/sdk/WfbManagedStreamsSession.java:75-142 | accepted stops are lost exactly if all of them landed after it |
| ManagedSession.LostStop | android/sdk/src/main/java/com/arcedge/wfblink/sdk/WfbManagedStreamsSession.java:75-142 | an interleaving that loses one |
| LinkRuntime.RuntimeConfig.RemoveBind | crates/wfb-link/src/lib.rs:1634-1647 | the first bind is replaced by the next or the fallback, others are filtered out |
| LinkRuntime.RuntimeConfig.ApplyPreflight | crates/wfb-link/src/lib.rs:1600-1626 | the loop over best-effort transmit streams, for every answer of the binds |
| LinkRuntime.RuntimeConfig.ApplyStreams | crates/wfb-link/src/lib.rs:1503-1548 | where transmit sockets and receive mappings are written |
| LinkRuntime.RuntimeConfig.ReadEndpoints | crates/wfb-link/src/lib.rs:2460-2514 | the loops that list the endpoints of a configuration |
| LinkRuntime.ManagedSockets | crates/wfb-link/src/lib.rs:1416-1548 | streams mapped, written and read back give their own sockets and triples in order |
| LinkBinds.RemovedIsGone | crates/wfb-link/src/lib.rs:1634-1647 | a removed socket is gone exactly unless it is the first bind and a later one too, or the fallback and the only bind |
| LinkBinds.OtherBindsStay | crates/wfb-link/src/lib.rs:1600-1647 | for all configurations, distinct or not, binds that did not fail keep their places and repetitions |
| LinkBinds.PreflightKeepsTheRest | crates/wfb-link/src/lib.rs:1600-1647 | with distinct sockets the binds left are the original ones minus the failed, in order, or the fallback, and exactly the failed streams are reported in order |
| LinkStreams.MapStreams | crates/wfb-link/src/lib.rs:1416-1436 | the mapping loop, or the first failed reservation |
| LinkStreams.MappingsFollowStreams | crates/wfb-link/src/lib.rs:1416-1436 | every stream gets its own mapping, and sockets are distinct exactly if none asks for one already taken |
| LinkStreams.ReadBack | crates/wfb-link/src/lib.rs:1503-1548 | receive triples are read back in order always, transmit sockets exactly if there is one |
| LinkStreams.NamesNeverClash | crates/wfb-link/src/lib.rs:2460-2514 | endpoint names of every configuration are pairwise distinct |
| LinkStreams.ConfigConflicts | crates/wfb-link/src/lib.rs:2553-2579 | so its endpoints are accepted exactly if sockets and receive ports are distinct |
| LinkStreams.Validate | crates/wfb-link/src/lib.rs:2553-2579 | accepts exactly pairwise distinct names, sockets and direction and port pairs, else reports the first stream in conflict |
| FirmwarePlan.Planner.AddPageBlocks | crates/radio-core/src/init_plan.rs:900-927 | the three loops take the longest block that fits each time |
| FirmwarePlan.Planner.AddFirmwareTransfers | crates/radio-core/src/init_plan.rs:451-467 | pages are selected and filled one after the other |
| FirmwarePlan.PlanWritesEveryByteOnce | crates/radio-core/src/init_plan.rs:451-467 | for every size the plan writes byte k, in order and nothing else, to page k / 4096 at 0x1000 + k % 4096, and no place twice |
| FirmwarePlan.GoodPlan | crates/radio-core/src/init_plan.rs:900-927 | blocks have 196, 8 or 1 bytes and stay in the page window |
| FirmwarePlan.PlanSelectsPages | crates/radio-core/src/init_plan.rs:451-467 | the pages selected are 0, 1, 2 and so on, ceiling of n / 4096 of them |
| FirmwareDevice.Device.WriteImage | crates/wfb-radio-runtime/src/lib.rs:3745-3771 | the production writer makes exactly the selections and block writes of the plan, and leaves the payload written byte after byte |
| FirmwareDevice.Device.WritePage | crates/wfb-radio-runtime/src/lib.rs:3773-3815 | a page written in blocks of three sizes is the page written at once |
| FirmwareDevice.SlotsRepeat | crates/wfb-radio-runtime/src/lib.rs:3755-3769 | with the page masked to three bits two bytes share a slot exactly if they are a multiple of 32768 apart |
| FirmwareDevice.LastBytesHeld | crates/wfb-radio-runtime/src/lib.rs:3745-3771 | the device ends with the last 32768 bytes in place |
| FirmwareDevice.PlanTellsMemory | crates/wfb-radio-runtime/src/lib.rs:3745-3771 | of a payload of at most 32768 bytes the device holds byte k at the k-th place the plan writes to |
| FirmwareDevice.WholePayloadHeld | crates/wfb-radio-runtime/src/lib.rs:3745-3771 | it holds the whole payload exactly if the payload repeats every 32768 bytes |
| FirmwareImage.FromBytes | crates/radio-core/src/firmware.rs:22-42 | size limits, and a wrapping 32-bit sum that never wraps |
| FirmwareImage.HeaderMeaning | crates/radio-core/src/firmware.rs:101-123 | which bytes make a header, and that skipping it never leaves an image empty |
| FirmwareImage.Chunks.Next | crates/radio-core/src/firmware.rs:154-170 | the iterator gives the chunks one by one |
| FirmwareImage.ChunksRebuildImage | crates/radio-core/src/firmware.rs:90-170 | for every chunk size but zero the chunks are consecutive, full but for the last, and make up the image |
| TxPower.PlanEfuseTxPower | crates/wfb-radio-runtime/src/tx_power.rs:579-695 | the loops over registers and lanes, or the first error |
| TxPower.PlanSucceedsIffReady | crates/wfb-radio-runtime/src/tx_power.rs:432-627 | planning succeeds exactly for grouped 5 GHz channels whose paths have their bytes and a base within the limit |
| TxPower.WholeRegionFailsOnlyOnBase | crates/wfb-radio-runtime/src/tx_power.rs:579-627 | with 84 bytes only an over-limit base byte can fail it |
| TxPower.WordsCarryLanes | crates/wfb-radio-runtime/src/tx_power.rs:606-676 | the k-th write is that of the k-th register; byte i of its word is lane i's index, which is base byte plus difference plus rate offset, clamped to between 1 and the lane's own maximum |
| TxPower.EveryRegisterOnce | crates/wfb-radio-runtime/src/tx_power.rs:210-430 | every rate register of every selected path is written exactly once |
| TxPower.CarefulNeverRaises | crates/wfb-radio-runtime/src/tx_power.rs:551-577 | the Linux profile or a lower maximum changes no register written and raises no lane |

## Left out

- USB, JNI, sockets, the tunnel device, routes, child processes, signals and clocks: what they answer is an argument (bind results, reservations, the radio's and the endpoint's answers, times, device reads).
- The meaning of conditionals nested more than once: the interpreter is modelled on every table, and one block inside one arm of another is settled by RealtekNesting.NestRunsAsMeantIff.
- Counters that saturate at 2^64: they are unbounded, so the ledgers hold for all runs.
- Characters beyond ASCII in table sources: text is a sequence of characters, without encoding.
- TunBridge.LoopState.Iterate: sends and device writes always succeed here, and the keepalive timer only says whether it has expired, because the failures end the run.
- TunBridge.LedgerBalances: is about runs that meet no error, because after an error the loop is over and its counters are only reported.
- EndToEnd.PayloadArrives: is about payloads whose frame the 16-bit length field can describe, which UDP datagrams always are.
- ManagedSession.Handle.ReadForOutcome: callbacks are a single step that ends normally or not, because they do not touch the status.
- FirmwareDevice.Device.WriteImage: register accesses always succeed here, because the first failure aborts the download.
- The interval and content of health reports, JSON, TOML and command lines, and the mapping of reports between them.
- The airtime scheduler, the LED heartbeat, the capture writer, the adapter registry and the fixed register lists of the start-up plan.
- TxPower.EveryRegisterOnce: names and hexadecimal strings of registers and rates are not modelled, because they only label the report.
- LinkRuntime.RuntimeConfig.ApplyStreams: the endpoints kept beside the runtime configuration are not modelled, because they are a plain copy.
