# RDPulse: verified model of the data plane

RDPulse carries RDP over a relay or, when it can, directly between two machines. This project models
the parts of it that move and account for packets, and the tables around them, and proves what they
promise. `dafny verify dfyconfig.toml` checks everything.

The code that changes state in place is modelled by classes whose methods are tied, by their
postconditions, to step functions on values; the results about whole runs are lemmas about those
functions. A section under a mutex is one atomic step. Where callers interleave in smaller steps (the
mux, the path manager) the model is a system of such steps, and the lemmas quantify over every run.

| files | what they model |
|---|---|
| `Words`, `Bits` | machine words, big-endian numbers, the 64-bit operations of the replay bitmap |
| `ReplayWindow` | duplicate suppression over wrapping packet IDs, compared as in section 3.2 of RFC 1982 |
| `UDPFrame`, `Fragmenter` | the 12-byte datagram header, the authenticated frame, splitting a packet |
| `ReassemblyTable`, `Reassembler`, `RoundTrip`, `Admission` | rebuilding packets: the table as a value, the pooled entries that implement it, the round trip with the fragmenter, who gets into the table and for how long |
| `Delivery`, `Arrivals` | the receive loop of the direct path, from raw bytes to delivered packets: nothing wrong is delivered, and whatever arrives in time is |
| `MuxWire`, `MuxStream`, `MuxSession`, `MuxInvariant`, `MuxRuns`, `MuxEnds`, `MuxCalls`, `MuxReader`, `MuxProgress` | many streams over one TLS connection: frames and their parser, a stream's reads and writes, one direction of a session as a system of steps, its invariant and what follows for all runs, when the reader loop goes on and stops, and that what was begun can arrive |
| `PathManager`, `PathRaces`, `PathInvariant`, `PathRuns`, `PathReceivers`, `PathCalls` | choosing between the direct path and the relay: the operations one at a time, all interleavings of them, sends and receives included, and what each call comes to when it is left alone |
| `FixedWindow`, `IPGuard`, `IPGuardRuns` | rate windows told from the history of attempts, the limiter by remote address |
| `SessionManager`, `SessionRuns`, `Signaling`, `SignalingRuns`, `Routes`, `Channels` | UDP sessions by number and key, signaling sessions and their caps, telling controllers' datagrams from public clients', channels of the socket dispatcher and of the session registry |
| `PortManager`, `PortTable`, `Enrollment` | public ports in memory and in the database, one-shot invitations |

What the model assumes: times are nondecreasing in lock order; the keyed hash and the token hash are
arbitrary functions; random draws, write failures, scheduling and the network are arbitrary choices;
a connection whose write failed fails all later writes.

## Where the code does less than one might expect

Each comes with the exact condition, and with a run that shows it happening.

- The replay window takes a packet ID for the one with the same 32 bits within 2^31 of the highest, and
  its verdict is exact for that one (`VerdictIsOnAlias`). So a delivered ID is delivered again exactly
  if it is more than 2^31 behind and the ID it is taken for is new (`DeliveredAgainExactly`,
  `OutOfReachDuplicateAccepted`).
- A receiver that found no path and waits for one is always woken if the manager has a relay
  (`NoLostWakeup`). Without one a wakeup can be lost, because the second look at the path is not
  trusted then (`WakeupLostWithoutRelay`); no program makes a manager without a relay.
- A receiver that finds UDP disabled waits until it is cancelled, and one that waits for a datagram
  from the relay waits for nothing else. An upgrade to the direct path reaches neither, although
  senders take it from then on (`UpgradeMissed`). A receiver can come to look at the path again, without
  being cancelled and without a datagram from the relay, exactly if it is in neither of these two
  places (`LooksAgainExactly`). The first is never reached exactly if the relay takes datagrams, and the
  second can be reached exactly then (`StuckExactly`); so with a relay for streams only, as the TLS mux
  is, a receiver that looks between the warm-up and the upgrade gets no direct packet.
- Relay warm-up never replaces a chosen UDP path (`StepMeaning`). A TCP upgrade does not take the lock;
  it is safe from the warm-up exactly if none stands between finding no TCP path and storing one
  (`TCPUpgradeSafeExactly`, `WarmUpReplacesTCPUpgrade`).
- A port is stored without conflict exactly if there is none to store or its device still holds it
  (`CreateKeepsExactly`, `UpdateKeepsExactly`, `ReleaseKeepsExactly`). A deletion between the two
  steps of an enrollment lets two devices end up with one port (`OverlapCanShareAPort`).
- Removing a session leaves another one to be found by its key, unless both carry the empty key
  (`FoundAfterRemovalExactly`, `EmptyKeyIsLost`). The programs do not get there: the relay makes
  sessions by key only, where every one is found (`FoundWithoutAdding`), and the agent by number only.
- An address can be admitted twice the configured number within one window length, and never more
  (`RateBound`, `RateBoundIsTight`).

## Model

| member | source | states |
|---|---|---|
| `Replay.SerialDeltaExact` | internal/udp/replay.go:36 | the 32-bit difference is the true one if and only if the unbounded IDs are less than half the circle apart |
| `Replay.MarkRefinesRecord` | internal/udp/replay.go:25-58 | within reach, a packet is accepted exactly if its ID is new and above highest - 64, and bit i of the bitmap keeps meaning that highest - i was accepted |
| `Replay.SeenIsExactComplement` | internal/udp/replay.go:60-70 | within reach, an ID counts as seen exactly if completing it would be refused |
| `Replay.RunRefines` | internal/udp/replay.go:25-58 | over any run in reach the wrapping bitmap and an ideal log of all accepted IDs give the same verdicts |
| `Replay.NoIdAcceptedTwice` | internal/udp/replay.go:23-58 | no ID is accepted twice in a run, across 32-bit wraparound |
| `Replay.AliasIsInReach` | internal/udp/replay.go:36 | the ID a word is taken for has the same 32 bits, is in reach, and is the ID itself exactly if that is in reach |
| `Replay.VerdictIsOnAlias` | internal/udp/replay.go:25-70 | for any ID at all: it is accepted, and not seen, exactly if the ID it is taken for is new |
| `Replay.DeliveredAgainExactly` | internal/udp/replay.go:25-58 | a delivered ID is accepted again exactly if it is more than 2^31 behind and its alias is ahead, or in the window and not delivered |
| `Replay.OutOfReachDuplicateAccepted` | internal/udp/replay.go:36-44 | a run in which that happens |
| `Replay.ReplayWindow.Seen` | internal/udp/replay.go:17-21 | reads the window as the specification does and changes nothing |
| `Replay.ReplayWindow.MarkCompleted` | internal/udp/replay.go:25-58 | the new window and the verdict are those of the specified step |
| `UDPFrame.EncodeUDP` | internal/protocol/udp.go:46-63 | writes the encoding into the buffer if it fits, touching nothing behind it, and into a new one of exact size otherwise |
| `UDPFrame.DecodesExactlyEncodings` | internal/protocol/udp.go:46-100 | bytes decode to a header and payload if and only if they are the encoding of that legal header and payload |
| `UDPFrame.IllegalFragmentRejected` | internal/protocol/udp.go:85-87 | an encoded header with an impossible fragment number or count is rejected as such |
| `UDPFrame.OpensExactlySealed` | internal/protocol/p2p_data.go:51-101 | a packet opens to a datagram if and only if it is that datagram sealed under the receiver's session and key |
| `Fragmentation.Fragmenter.Fragment` | internal/udp/fragment.go:31-65 | the handler gets the packet's datagrams in order up to the first failure, or none if there would be too many |
| `Fragmentation.PiecesMakeUpPacket` | internal/udp/fragment.go:49-56 | the chunks joined in order are the packet |
| `Fragmentation.PieceSizes` | internal/udp/fragment.go:42-56 | every chunk is within the payload limit, and every one but the last is full |
| `Fragmentation.FitsExactly` | internal/udp/fragment.go:41-44 | a packet fits exactly if it is at most 64 times the payload limit |
| `Fragmentation.UDPPacketsFit` | internal/protocol/udp.go:17-21 | with the default limit, which the path manager uses, every packet up to 65535 bytes fits |
| `Fragmentation.DatagramsDecode` | internal/udp/fragment.go:49-61 | each datagram decodes to its own number, the common count and its chunk |
| `ReassemblyTable.FeedKeepsGood` | internal/udp/reassembly.go:96-169 | a fragment keeps: counters equal to filled slots and their bytes, packets incomplete and at most 65535 bytes, at most 32 per session and 1024 in all |
| `ReassemblyTable.ExpireKeepsGood` | internal/udp/reassembly.go:201-209 | so does the cleaner's tick |
| `ReassemblyTable.ShutdownKeepsGood` | internal/udp/reassembly.go:191-200 | so does shutdown, after which nothing is pending and the table is closed |
| `ReassemblyTable.ClosedTakesNoFragment` | internal/udp/reassembly.go:98-111 | once closed, every fragment of a larger packet is refused and the table does not change; a packet in one fragment still passes through |
| `ReassemblyTable.RefusedExactly` | internal/udp/reassembly.go:114-121 | in an open table a fragment is refused for want of room exactly if its packet is not pending and 1024 others are, or 32 of its session, and then nothing changes |
| `ReassemblyTable.FirstFragmentBegins` | internal/udp/reassembly.go:123-156 | with room, the first fragment of a packet makes it pending, with that fragment alone and the time; only one too large for any packet does not |
| `ReassemblyTable.PendingFragmentExactly` | internal/udp/reassembly.go:134-166 | a fragment of a pending packet is refused exactly if its count differs, or it is new and the packet gets too large, and either ends the packet; a duplicate changes nothing |
| `ReassemblyTable.TickKeepsExactly` | internal/udp/reassembly.go:203-206 | a tick keeps exactly the packets whose first fragment came at its deadline or later |
| `ReassemblyTable.TickKeepsInTime` | internal/udp/reassembly.go:201-209 | with the deadline the cleaner computes: exactly those begun no longer ago than the timeout |
| `Admission.StaysExactly` | internal/udp/reassembly.go:96-209 | over any run with none of its fragments, a packet stays pending as it is exactly until a tick whose deadline is after its first fragment |
| `Admission.SurvivesExactly` | internal/udp/reassembly.go:96-209 | a packet begun at a time is pending after any traffic of others exactly if no tick had a later deadline, and then with the fragment it began with |
| `Admission.TableFills` | internal/udp/reassembly.go:116-121 | from the empty table, runs after which any number of packets up to 1024 is pending, up to 32 of each session |
| `Reassembly.PacketReassembly.Recycle` | internal/udp/reassembly.go:46-62 | a recycled entry is as blank as a new one |
| `Reassembly.Reassembler.TakeEntry` | internal/udp/reassembly.go:123 | an entry from the pool, which all reassemblers share, is blank and in use nowhere else |
| `Reassembly.Reassembler.DeleteEntry` | internal/udp/reassembly.go:171-179 | the key leaves the table, the session counter follows, and the entry is blank when it goes back |
| `Reassembly.Reassembler.FeedAppend` | internal/udp/reassembly.go:96-169 | with pooled entries and counters updated in place, the result and the new table are those of the step that `RefusedExactly`, `FirstFragmentBegins`, `PendingFragmentExactly` and `FeedPiece` pin down |
| `Reassembly.Reassembler.ExpireOld` | internal/udp/reassembly.go:201-209 | exactly the packets started before the deadline are dropped, the others stay as they are (`TickKeepsExactly`), and each dropped entry is blank afterwards |
| `Reassembly.Reassembler.Shutdown` | internal/udp/reassembly.go:191-200 | every entry that was pending is blank afterwards, and the table is empty and closed |
| `Reassembly.Beside` | internal/udp/reassembly.go:42 | with one pool for all reassemblers, whatever one of them is asked to do leaves every packet pending in another as it is, and no entry in two places |
| `Reassembly.CountsAfterRemove` | internal/udp/reassembly.go:174-178 | decrementing, and deleting at one, keeps the counter equal to the session's pending keys, absent when zero |
| `RoundTrip.FeedPiece` | internal/udp/reassembly.go:113-168 | a piece of a packet that is pending, or for which there is room, yields nothing until the set is complete, then exactly the packet, and touches no other entry |
| `RoundTrip.RoundTrip` | internal/udp/reassembly.go:96-169 | for any order, duplicates and traffic of other keys, if the first piece finds room and no tick has a deadline after it: nothing comes out for the packet until its last distinct fragment, and then exactly the packet |
| `Admission.RoundTripInTime` | internal/udp/reassembly.go:96-209 | the same told by the clock and the table alone: fewer than 1024 packets pending, and 32 of the session, when the first piece comes, and no tick with a later deadline before the last |
| `Delivery.P2PReceiver.Receive` | internal/agent/client.go:556-578 | one turn of the receive loop, over the real window and reassembler, is the specified step, which keeps every datagram of a new packet (`DatagramHandled`) |
| `Delivery.HonestDatagramGetsThrough` | internal/path/manager.go:382-402 | a datagram of the sender passes the keepalive filter, the codec and the parser unchanged |
| `Delivery.ArrivalStepIntact` | internal/agent/client.go:556-578 | any arrival, by either path and however old, keeps foreign bytes out of the session's packets, and what it delivers was sent under that ID |
| `Delivery.ArrivalStepNew` | internal/agent/client.go:556-578 | in reach of the window, what the direct path delivers it had not delivered before, and the window stays in step with the log of deliveries |
| `Delivery.DirectPathDelivery` | internal/agent/client.go:556-578 | over every run of reordered, duplicated, lost and interleaved datagrams, also with pieces of the same session coming by the relay into the same reassembler: every delivery is as it was sent; and the direct path delivers each packet at most once, if the run stays in reach of its window |
| `Delivery.P2PReceiver.ReceiveRelayed` | internal/path/manager.go:404-425 | one turn of the relay branch feeds the same reassembler past the window |
| `Delivery.CompletingDatagramDelivers` | internal/agent/client.go:567-578 | the datagram that completes a new packet does deliver it |
| `Arrivals.DatagramHandled` | internal/agent/client.go:556-578 | for a packet that is new and in reach, and is pending or has room: a datagram that does not complete it delivers nothing, leaves the window alone and is kept with the others; one that does delivers the packet and completes it in the window; and a datagram of a packet that is not new changes nothing |
| `Arrivals.RelayedHandled` | internal/path/manager.go:404-425 | the same by the relay, whatever the window says |
| `Arrivals.SentPacketArrives` | internal/agent/client.go:556-578 | over whole runs of arrivals from the receiver's start, by both paths, with anything in between: once a packet's first piece has found room, the arrival that makes its pieces complete delivers exactly what was sent, if no tick came with a later deadline and the window did not leave the packet behind |
| `MuxWire.ParseRecoversFrames` | internal/transport/tlsmux/tlsmux.go:185-270 | parsing whole frames and a torn one gives exactly the whole frames, whatever their payloads contain |
| `MuxWire.WriteAll` | internal/transport/tlsmux/tlsmux.go:327-341 | the bytes accepted are a prefix of the data; it succeeds, with all of them, exactly if the connection takes so many |
| `MuxWire.FrameWriter.WriteFrame` | internal/transport/tlsmux/tlsmux.go:294-325 | the wire grows by the whole frame, by nothing, or by a proper prefix of it on a connection then lost; each failure has its cause: the frame is too large, the token is not there or the wait is interrupted, or the connection does not take the frame; so a legal frame goes out if nothing of that holds |
| `MuxStreams.ChunksCarryData` | internal/transport/tlsmux/tlsmux.go:414-426 | the data frames of a write carry its data in order, none longer than 16 KiB |
| `MuxStreams.MuxStream.Read` | internal/transport/tlsmux/tlsmux.go:366-403 | with room, and a byte kept or queued, a call returns at once the smaller of the room and the first frame that has any byte, and keeps the rest; every failure has its cause (closed here, ended by the peer, deadline, session over), and none happens while a byte is queued; bytes returned, kept and still to come are together what there was, in order, also when the call fails |
| `MuxStreams.ReadKeepsBytes` | internal/transport/tlsmux/tlsmux.go:366-403 | a read loses, repeats and moves no byte, returns none only if there is none or no room, and fills the room if any byte of the frame is left over |
| `MuxStreams.MuxStream.Write` | internal/transport/tlsmux/tlsmux.go:405-427 | the wire grows by exactly the frames of the bytes reported written, and a torn frame only if the connection is lost; it writes all unless the stream is closed on this side or that, the token is not to be had, or the connection does not take the frames |
| `MuxInvariant.StepKeeps` | internal/transport/tlsmux/tlsmux.go:185-325 | every step of every writer, of the reader loop and of the streams keeps the session's invariant |
| `MuxInvariant.NextIsLegal` | internal/transport/tlsmux/tlsmux.go:185-228 | the header the loop reads is that of the next frame some writer started |
| `MuxRuns.WireIntegrity` | internal/transport/tlsmux/tlsmux.go:294-340 | in every run, at a frame boundary, parsing the unread bytes gives exactly the frames written and not consumed, and the loop never meets a protocol error |
| `MuxRuns.TokenIsConserved` | internal/transport/tlsmux/tlsmux.go:300-309 | the write token is in its channel or with exactly one writer |
| `MuxRuns.WrittenFrames` | internal/transport/tlsmux/tlsmux.go:294-325 | the complete frames on the wire are, in order, those whose writers were told so, and at most the one whose writer holds the token |
| `MuxRuns.Conservation` | internal/transport/tlsmux/tlsmux.go:218-238 | for a stream not closed by its reader: bytes returned, current, queued, in the loop's hands and still on the wire are, in order, what was written to it |
| `MuxRuns.DeliveredWhenQuiet` | internal/transport/tlsmux/tlsmux.go:366-427 | when all writes have returned and all frames are consumed, the reader has or can take exactly what was written successfully |
| `MuxCalls.WriteIsARun` | internal/transport/tlsmux/tlsmux.go:405-427 | a Write nobody interrupts is a run of the session that puts the chunks of its data on the wire, as the stream's Write promises, gives the token back, and changes nothing else |
| `MuxCalls.ReadIsARun` | internal/transport/tlsmux/tlsmux.go:366-403 | a Read nobody interrupts is a run of the session that returns and keeps what the stream's Read promises, and changes nothing else |
| `MuxCalls.WritesArrive` | internal/transport/tlsmux/tlsmux.go:366-427 | if a stream's data frames are those of its Writes, one after the other, then in a quiet session its reader has, or can take, the data of these Writes in order, whatever all others did |
| `MuxEnds.EndMeansAllArrived` | internal/transport/tlsmux/tlsmux.go:240-246 | a stream is marked ended exactly when its close frame was consumed, and then all data written before it has arrived |
| `MuxEnds.DatagramsInOrder` | internal/transport/tlsmux/tlsmux.go:248-261 | datagrams may be dropped but are never altered, repeated or reordered; when one is dropped says `DroppedExactly` |
| `MuxReader.ReadHeaderExactly` | internal/transport/tlsmux/tlsmux.go:189-246 | in every reachable state the next header stops the loop exactly if it opens a stream while there are 256; below that the stream is there, empty, and the loop goes on, as it does after a close frame; a data or datagram header leads to its payload |
| `MuxReader.ReadPayloadExactly` | internal/transport/tlsmux/tlsmux.go:218-261 | a payload never stops the loop: data goes into its hands unless the stream was closed here, a datagram is queued, and dropped exactly if 256 are waiting |
| `MuxReader.HandOverExactly` | internal/transport/tlsmux/tlsmux.go:231-238 | the loop hands a frame over, to the end of the queue, exactly if fewer than 64 wait there or the stream was closed meanwhile |
| `MuxReader.OpenStreamExactly` | internal/transport/tlsmux/tlsmux.go:123-139 | a side gets a stream of its own exactly if there are fewer than 256, empty and under a number not used before |
| `MuxReader.QueuesStayBounded` | internal/transport/tlsmux/tlsmux.go:206-257 | in every run there are at most 256 streams, 256 datagrams waiting and 64 frames waiting in each stream |
| `MuxReader.StopsOnlyAtLimit` | internal/transport/tlsmux/tlsmux.go:185-270 | in every run in which nobody ends the session, a loop that has stopped did so at an open frame that met 256 streams |
| `MuxReader.ClosedForGood` | internal/transport/tlsmux/tlsmux.go:286-292 | closing a stream takes exactly that one away, and no run has it again, whatever the peer still sends on it |
| `MuxReader.DroppedExactly` | internal/transport/tlsmux/tlsmux.go:248-261 | in every run the datagrams taken and waiting are those read less the ones read while 256 were waiting, so all of them in order exactly if that never happened |
| `MuxProgress.FinishWriting` | internal/transport/tlsmux/tlsmux.go:294-341 | from every reachable state of a connection that is not lost, the writer in the middle of a frame can write the rest of it and give back the token |
| `MuxProgress.CanDrain` | internal/transport/tlsmux/tlsmux.go:185-270 | with no writer in the middle of a frame, the loop and the readers can go on until every frame written is dealt with, unless that takes more than 256 streams |
| `MuxProgress.EverythingCanArrive` | internal/transport/tlsmux/tlsmux.go:185-427 | from every reachable state of a living session, and beginning nothing new, all that was begun can come to the readers of the streams still open, unless that takes more than 256 streams |
| `MuxProgress.NewStreamDelivers` | internal/transport/tlsmux/tlsmux.go:123-139 | whenever nothing is on the wire and there are fewer than 256 streams, the writing side can open another one and write to it, and exactly its data can come to the reader |
| `PathManager.Manager.PathWaiter` | internal/path/manager.go:97-104 | waiters share one open channel until the next change |
| `PathManager.Manager.NotifyPathChanged` | internal/path/manager.go:107-114 | every channel handed out so far is closed |
| `PathManager.Manager.SetDirectUDP` | internal/path/manager.go:156-179 | refuses and closes the result when the manager is closed; otherwise the path is direct, has the result, and all waiters are woken |
| `PathManager.Manager.SetDirectTCP` | internal/path/manager.go:182-193 | sets the TCP path and wakes all waiters unless closed |
| `PathManager.Manager.FallbackUDPFromDirect` | internal/path/manager.go:196-215 | only a direct path is given up: its result is closed and the relay, or nothing, takes over |
| `PathManager.Manager.SetQUICRelay` | internal/path/manager.go:245-261 | takes over exactly the paths still unknown |
| `PathManager.Manager.SendUDP` | internal/path/manager.go:286-335 | for one caller: at most one retry, under the next packet ID, by the relay; which datagrams went out on which path, and which error comes back |
| `PathManager.Manager.Close` | internal/path/manager.go:463-476 | the first call closes the manager and its punch result |
| `PathInvariant.ApplyKeeps` | internal/path/manager.go:97-456 | every step of every overlapping call, sends and receives included, keeps the invariant of the lock, the path, the wait channels and the waiters |
| `PathRuns.NoLostWakeup` | internal/path/manager.go:443-456 | in every interleaving, with a relay, a receiver blocked in awaitPathChange although a path is chosen can wake, or the lock holder is about to notify |
| `PathRuns.WakeupLostWithoutRelay` | internal/path/manager.go:445 | without a relay, a run that leaves a receiver blocked in awaitPathChange on a direct path, with nobody left to notify |
| `PathReceivers.LooksAgainExactly` | internal/path/manager.go:338-456 | from every reachable state, a receive can come to look at the path again without being cancelled and without a datagram from the relay exactly if it neither sits out a disabled path nor waits on the relay |
| `PathReceivers.StuckStays` | internal/path/manager.go:404-430 | a receive in one of these two places stays there through every run that neither cancels it nor brings it a datagram |
| `PathReceivers.HolderFinishes` | internal/path/manager.go:156-261 | whoever holds the lock can go on alone until it gives it back, and a receive that was falling back then looks again |
| `PathReceivers.UpgradeMissed` | internal/path/manager.go:404-430 | for every relay, a run after which the path is direct and usable, and a receiver is parked or waits on the relay |
| `PathReceivers.StuckExactly` | internal/path/manager.go:404-430 | some run parks a receiver exactly if the relay takes no datagrams, and some run has one waiting on the relay exactly if it does |
| `PathRuns.StepMeaning` | internal/path/manager.go:156-261 | only an upgrade, the fallback from a direct path, and the warm-up of an unknown path change the UDP path, and never back to unknown |
| `PathRuns.ChosenForGood` | internal/path/manager.go:156-261 | over any run a chosen UDP path is never unknown again |
| `PathRuns.RetriesBounded` | internal/path/manager.go:286-322 | in every interleaving, a send draws an ID for the n-th time only if at least n - 2 upgrades came since it was called; without one it retries at most once |
| `PathRuns.PacketIDsFresh` | internal/path/manager.go:292 | any two IDs drawn in a run, by one send or by several, are equal exactly if a multiple of 2^32 draws lies between them |
| `PathRuns.GivenUpForGood` | internal/path/manager.go:196-215 | a chosen path that is not direct stays as it is until an upgrade, whatever overlaps |
| `PathRuns.PathIsUsable` | internal/path/manager.go:156-215 | whenever the lock is free a direct path has a punch result and a relayed one a relay for datagrams; after Close no result in use is open |
| `PathRuns.TCPUpgradeSafeExactly` | internal/path/manager.go:182-193 | a direct TCP path stays direct in every continuation exactly if no warm-up is about to store the relay |
| `PathRuns.WarmUpReplacesTCPUpgrade` | internal/path/manager.go:249-251 | a run that reaches the unsafe state, and the step that overwrites the upgrade |
| `PathCalls.UpgradeTaken` | internal/path/manager.go:156-179 | from every reachable state with the lock free, an upgrade that is left alone takes the result, makes the path direct and wakes exactly all waiters |
| `PathCalls.UpgradeRefused` | internal/path/manager.go:157-162 | on a closed manager it closes the result and changes nothing else |
| `PathCalls.TCPUpgrade` | internal/path/manager.go:182-193 | sets the TCP path and wakes all waiters unless the manager is closed |
| `PathCalls.FallbackAlone` | internal/path/manager.go:196-215 | gives up a direct path: the result is closed, the relay or nothing takes over, all waiters are woken; any other path stays |
| `PathCalls.WarmUpAlone` | internal/path/manager.go:245-261 | the relay takes exactly the paths still unknown, and all waiters are woken |
| `PathCalls.CloseAlone` | internal/path/manager.go:463-476 | the first Close closes the result in use, another does nothing |
| `PathCalls.SendGetsThrough` | internal/path/manager.go:286-335 | a send whose attempt, if it makes one, gets through leaves the path as it is and draws one packet ID, or none if UDP is disabled |
| `PathCalls.SendTries` | internal/path/manager.go:294-315 | on a direct path it does make an attempt, with the punch result and under the ID it drew |
| `PathCalls.SendRetries` | internal/path/manager.go:299-322 | if the attempt fails it gives up the path, wakes all waiters, and draws a second ID exactly if the relay takes datagrams |
| `PathCalls.ReceiveAlone` | internal/path/manager.go:338-430 | a receive that finds a path gets to the socket on a direct one, waits on the relay if that has the path, and otherwise to be cancelled |
| `PathCalls.ReceiveWaits` | internal/path/manager.go:431-456 | one that finds none waits for the channel that the next change closes |
| `PathCalls.ReceiveRetries` | internal/path/manager.go:350-403 | one that cannot read from the direct path gives it up and goes on as the relay allows |
| `IPGuard.Guard.Acquire` | internal/ratelimit/ip_guard.go:46-84 | the entry, the verdict and the swept table are those of the step whose verdicts `AdmittedExactly` tells from the history |
| `IPGuard.Guard.SweepLocked` | internal/ratelimit/ip_guard.go:95-101 | deletes exactly the idle keys unseen for more than two windows |
| `IPGuard.Guard.Allow` | internal/ratelimit/ip_guard.go:87-93 | an attempt and its immediate release |
| `IPGuard.Release.Call` | internal/ratelimit/ip_guard.go:73-82 | gives the slot back the first time and does nothing after that |
| `IPGuardRuns.SweepTransparency` | internal/ratelimit/ip_guard.go:46-101 | a guard that sweeps admits exactly the attempts that one that never sweeps admits |
| `IPGuardRuns.RateBound` | internal/ratelimit/ip_guard.go:59-68 | an interval no longer than the window sees at most twice the allowed attempts of a key |
| `IPGuardRuns.RateBoundIsTight` | internal/ratelimit/ip_guard.go:59-68 | for every configuration a run reaches that bound |
| `IPGuardRuns.SlotsInUse` | internal/ratelimit/ip_guard.go:63-83 | the slots of a key are its admissions not yet given back, never more than allowed, however often a release is called |
| `IPGuardRuns.AdmittedExactly` | internal/ratelimit/ip_guard.go:46-84 | in every run, an attempt is admitted exactly if fewer slots of its key than allowed are not given back, and fewer of its attempts than allowed were admitted since its window began, both told from the tickets and the history of attempts; what was swept makes no difference |
| `IPGuardRuns.SlotsAtOnce` | internal/ratelimit/ip_guard.go:63-72 | for every configuration and any number within both limits, a run after which a key holds so many slots at once |
| `FixedWindow.TracksOn` | internal/ratelimit/ip_guard.go:59-68 | a window start and a counter kept attempt by attempt say what the whole history says of the current window |
| `PortManager.LowestIsLowest` | internal/relay/port_manager.go:67-76 | the search finds the lowest free port and fails exactly if every port is taken |
| `PortManager.PreloadMatches` | internal/relay/port_manager.go:39-51 | the maps taken over are mutual inverses exactly if no two devices claim one port of the range |
| `PortManager.NewPortManager` | internal/relay/port_manager.go:26-54 | refuses exactly an impossible range, and otherwise holds the stored ports of the range |
| `PortManager.Manager.GetOrAllocatePort` | internal/relay/port_manager.go:57-77 | the assigned port, or the lowest free one, in both maps |
| `PortManager.Manager.ReleasePort` | internal/relay/port_manager.go:88-95 | removes the device and its port from both maps |
| `PortTable.AllocateKeeps` | internal/relay/port_manager.go:57-77 | allocation keeps the invariant; its port is in range and held by the device; on failure nothing changes and all ports are taken |
| `PortTable.AllocationIsLowest` | internal/relay/port_manager.go:66-76 | a new device's port is the lowest nobody holds and is stored for nobody |
| `PortTable.CreateKeepsExactly` | internal/storage/sqlite.go:217-229 | storing a new device's port, or none, keeps ports distinct and held exactly if there is none, the device still holds it, or it had one stored |
| `PortTable.UpdateKeepsExactly` | internal/storage/sqlite.go:310-318 | for a known device exactly if it still holds the port or its row is gone |
| `PortTable.ReleaseKeepsExactly` | internal/web/server.go:248-257 | giving a port back is right exactly if no row has it any more |
| `PortTable.RestartKeeps` | internal/relay/port_manager.go:26-54 | so does a restart, also with another range |
| `PortTable.PortsStayDistinct` | internal/relay/agent_manager.go:438-466 | over every run of registrations, also refused ones, controllers' enrollments, deletions and restarts, stored ports are distinct and those in range are held by their devices alone |
| `PortTable.PortSurvives` | internal/relay/port_manager.go:37-51 | a stored port of the range is kept and assigned again, through restarts, until the device is deleted |
| `PortTable.RefusedHoldsItsPort` | internal/relay/agent_manager.go:438-473 | a device refused after its port was allocated holds the port without a row, until exactly a restart or its deletion |
| `PortTable.HeldExactly` | internal/relay/port_manager.go:57-95 | after any operation a device holds a port exactly if it held it and was not deleted, or registered while one was free; after a restart exactly if one of the range is stored for it |
| `PortTable.StoredExactly` | internal/storage/sqlite.go:210-229 | after any operation a device has a row exactly if it had one and was not deleted, or was enrolled, as an agent only with a port; and which port the row then has |
| `PortTable.OverlapCanShareAPort` | internal/relay/agent_manager.go:438-464 | for every range, an overlap of an enrollment and a deletion after which two devices have one port |
| `Enrollment.Database.UpsertEnrollmentInvitation` | internal/storage/sqlite.go:146-159 | the same token keeps its consumed state, another one starts afresh |
| `Enrollment.Database.ValidateEnrollmentInvitation` | internal/storage/sqlite.go:179-192 | valid exactly if device and token are given and an enrollment would succeed now |
| `Enrollment.Database.CreateAgentWithEnrollment` | internal/storage/sqlite.go:196-230 | consumes the invitation and writes the row, or does neither |
| `Enrollment.EnrollmentIsAtomic` | internal/storage/sqlite.go:196-230 | success is the same as the invitation going from open to consumed; then name and credential are replaced, a known device is enabled and keeps a stored port, a new one gets its row, and no other device is touched |
| `Enrollment.OneShot` | internal/storage/sqlite.go:143-159 | between two successful enrollments with one token there was a deletion or an upsert of another token |
| `Enrollment.RotationAdmits` | internal/storage/sqlite.go:144-157 | a rotated invitation admits once more, exactly until it expires |
| `Enrollment.EnrollsExactly` | internal/storage/sqlite.go:143-230 | over every history of upserts, expiry changes, enrollments and deletions: an enrollment succeeds exactly if its token was put there and not renewed since, nobody used it up since, and the expiry given last is still to come |
| `SessionManager.Manager.GetOrCreateByKey` | internal/udp/session.go:140-187 | the existing session, a refusal by each limit, or a new one in all three tables |
| `SessionManager.Manager.AddSessionWithID` | internal/udp/session.go:190-210 | the same by number |
| `SessionManager.Manager.Remove` | internal/udp/session.go:213-238 | takes a session out of all three tables and ends it |
| `SessionManager.Manager.Close` | internal/udp/session.go:242-265 | empties the tables and ends every live session |
| `SessionRuns.TablesAgree` | internal/udp/session.go:140-265 | after every run: the key index is the keyed sessions, the counters are the live sessions by address and absent when zero, both limits hold, keyed numbers have no high bit, and every session so far is live or was ended, not both |
| `SessionRuns.MadeExactly` | internal/udp/session.go:140-187 | after every run, a key gets its session if it has one; else it is refused exactly if the manager is closed or full, the address has all the sessions it may have, as many were allowed as may be since the second began, or no number drawn can be used; otherwise it is made under a number drawn, and all others stay |
| `SessionRuns.AddedExactly` | internal/udp/session.go:190-210 | by number: refused exactly if zero, closed, full, or over the rate |
| `SessionRuns.RemovedExactly` | internal/udp/session.go:213-265 | removing ends exactly one session and closing ends all |
| `SessionRuns.ClosedStaysEmpty` | internal/udp/session.go:242-253 | after Close the tables stay empty |
| `SessionRuns.KeyFindsItsSession` | internal/udp/session.go:144-147 | a live session is found by its key, unless that is the empty key |
| `SessionRuns.FoundAfterRemovalExactly` | internal/udp/session.go:213-223 | a session is found by its key after the removal of another exactly if not both carry the empty key |
| `SessionRuns.EmptyKeyIsLost` | internal/udp/session.go:218-223 | from empty tables, a run of three operations that leaves a live session of the empty key unfindable |
| `SessionRuns.FoundWithoutAdding` | internal/relay/agent.go:187-193 | in runs that only make sessions by key, every live one is found by its key |
| `Signaling.ValidateCandidates` | internal/signaling/server.go:318-344 | accepts exactly short lists of acceptable candidates, and deduplicates them |
| `Signaling.DeduplicatedIsDistinct` | internal/signaling/server.go:335-341 | no place occurs twice |
| `Signaling.DeduplicatedIsComplete` | internal/signaling/server.go:324-342 | no place is left out |
| `Signaling.DeduplicatedIsFromInput` | internal/signaling/server.go:340-341 | and none is made up |
| `Signaling.NumbersRepeatExactly` | internal/signaling/server.go:188 | session numbers repeat exactly after multiples of 2^31 |
| `Signaling.Marked` | internal/signaling/server.go:186-188 | a session number has the high bit set |
| `Signaling.Coordinator.RegisterPeer` | internal/signaling/server.go:77-93 | the peer is replaced by this connection, with validated candidates or none |
| `Signaling.Coordinator.UnregisterPeer` | internal/signaling/server.go:110-130 | only the owning connection forgets the peer, and exactly the sessions it carried end and are notified |
| `Signaling.Coordinator.SessionCountLocked` | internal/signaling/server.go:242-250 | the number of sessions in which the device takes either part |
| `Signaling.Coordinator.HandleConnectRequest` | internal/signaling/server.go:140-240 | a request connects exactly if a target is named and known, the candidates are valid, the connection is authorized, a token is drawn, fewer than 2048 sessions are open and fewer than 64 of either device, and the target is reached; otherwise the reply is determined by the first thing in the way; a connected request carries the target's candidates and port and adds exactly its session under the next number, one whose target cannot be notified takes it out again, any other changes nothing |
| `Signaling.Coordinator.CloseSession` | internal/signaling/server.go:298-306 | ends the session for its controller or for a caller that names none |
| `Signaling.CapsHold` | internal/signaling/server.go:194-207 | in every interleaving, and even when a wrapped number overwrites a session: at most 2048 sessions, and no device in more than 64 |
| `SignalingRuns.TakenExactly` | internal/signaling/server.go:194-207 | in every interleaving of requests, disconnections and closings, as long as no number is used twice, a request is taken exactly if fewer than 2048 sessions taken before are still open, and fewer than 64 of its controller and of its target; open until closed by its controller, or by one who names none, or its target's connection goes |
| `SignalingRuns.CapsReached` | internal/signaling/server.go:194-207 | up to 64 requests of one device, and up to 2048 of as many, are all taken |
| `Routes.AgentSession.UnregisterControllerRoute` | internal/relay/agent.go:152-158 | a connection takes back only its own route |
| `Routes.AgentSession.Dispatch` | internal/relay/agent.go:108-137 | an undecodable datagram goes nowhere, another to the controller of its number first and else to that session's client |
| `Routes.NoCrossDelivery` | internal/relay/agent.go:119-138 | in every run a datagram under a coordinator's number goes to the controller routed there or nowhere, and never to a public client; one of a live public session goes to its client and never to a controller |
| `Routes.RoutedExactly` | internal/relay/agent.go:143-158 | in every run a datagram goes to a controller's connection exactly if that connection registered its number and has not given it up since, nor has another taken it |
| `Channels.Dispatcher.Register` | internal/punch/udp_dispatcher.go:68-85 | refuses exactly without a key, after Close and for a number in use; otherwise a new open channel with room for 256 packets is in the table, with a codec made of the session's number and key |
| `Channels.Dispatcher.Release` | internal/punch/udp_dispatcher.go:88-95 | only the entry the release was made for is taken out and closed |
| `Channels.ReleaseOnce.Call` | internal/punch/udp_dispatcher.go:86-99 | acts once, however often called, and then throws away what is queued |
| `Channels.Dispatcher.Deliver` | internal/punch/udp_dispatcher.go:134-168 | a packet is appended to the channel of the session it names if that accepts it, and dropped only if that is full; it is never sent to a closed channel, and no other channel changes |
| `Channels.Dispatcher.FinishClose` | internal/punch/udp_dispatcher.go:118-132 | every channel is closed, each once, and the table is empty for good |
| `Channels.DataPacketsAreAuthentic` | internal/punch/udp_dispatcher.go:170-204 | a data packet accepted for a session was sealed with its number and key, and a sealed packet names its session |
| `Channels.Registry.Register` | internal/agent/p2p_sessions.go:35-53 | a session of the same number is replaced and its channel closed |
| `Channels.Registry.Update` | internal/agent/p2p_sessions.go:70-81 | an update is appended to the open channel of its session unless that is full, and goes nowhere else |
| `Channels.Registry.Remove` | internal/agent/p2p_sessions.go:83-91 | a session is taken out and its channel closed |
| `Channels.Registry.Close` | internal/agent/p2p_sessions.go:93-101 | the table is empty and every channel ever made is closed |

## Left out

- Sockets, TLS and QUIC handshakes, timers, goroutine scheduling, logging and metrics: only the step
  that each event triggers is modelled.
- HMAC, SHA-256 and random tokens: arbitrary functions and arbitrary draws.
- TCP challenge-response, the MAC of punch packets, ACLs, the web handlers, configuration files, the
  tray and the Windows service.
- SQL syntax and write-ahead logging: a statement or transaction is one map update, and database
  errors are not modelled.
- Byte buffers taken from pools: a slot holds the bytes, not the buffer, so returning a buffer twice or
  aliasing it is not captured. The pooled reassembly entries are modelled with their identity.
- `Feed` with a nil destination, where an empty packet and an incomplete one look the same
  (internal/udp/reassembly.go:89-99): the model is `FeedAppend` with a buffer, whose outcomes differ.
- Packets over 65535 bytes: `Fragment` accepts some that the reassembler refuses; the round trip is for
  the others.
- The idle-timeout counter and the check of the remote address in the receive loop: they only drop
  packets or end the loop.
- Forged fragments under the session's own number: the receive loop does not compare the header's
  session with the codec's. The delivery theorem takes what others feed to the shared reassembler to be
  pieces of this session's packets or fragments of other sessions.
- The relay path has no replay window, so nothing is claimed about duplicates there.
- `acceptCh` of the mux and back-pressure on it: accepting a stream never blocks in the model.
- The wrap of mux stream numbers after 2^31 streams: the counters stop there.
- A frame that arrives while `muxStream.Read` waits may lose to the end of the stream, which it then
  reports; the model keeps that choice, so the end is not claimed to mean that everything was read.
- PathManager.Manager.SendUDP: the method is one caller at a time, overlapping sends are calls of
  `PathRaces`; and it hands datagrams to the direct path before they are sealed, sealing being modelled in
  `UDPFrame` and `Delivery`.
- Two reassemblers in the middle of their critical sections at once: they share the pool, and in the
  model one request to either is over before the next begins.
- MuxWire.Conn.Write: a connection takes a number of bytes that is fixed beforehand, which no caller can
  see, and a failing write is taken to accept fewer bytes than it was given.
- MuxStreams.MuxStream.Read: what arrives and ends while a call waits is given to it beforehand; if
  nothing does, the model's call returns that it is still waiting.
- The order in which a Go `select` or map iteration proceeds: any order.
- `AddCandidates`, `DialDirectTCP`, `ParallelRace`: they only start the operations modelled here.
- The activity stamps of UDP sessions: a sweep is modelled as removals of any sessions.
- `UpsertAgent`, which no caller uses, and the other columns of the agent table.
- `addressKey`: the limiter's keys are any strings.
- Liveness under real clocks.
