# Proxyness: verified core

Proxyness tunnels a machine's traffic to exit servers over TLS or over its own reliable transport on UDP. This
project models the parts of it whose correctness is hardest to see, and proves what they are for:

* **The ARQ session** (`pkg/udp/arq`): selective repeat over a network that may lose, duplicate and reorder, with a
  cumulative number plus a 256-bit selective bitmap, three retransmission paths, per-stream reordering, a BBR-like
  window, an RTT estimator and a rule for declaring the session dead. `Session` is one direction of a session as a
  step system: a Send takes four steps, HandleData two, HandleAck three and a round of the timer one, all of them
  interleaving freely, and the network is the growing set of datagrams ever sent, any of which may be taken any number
  of times or never. `SessionProof` and `SessionRuns` prove one inductive invariant; `SessionTheorems` and `SessionDeath`
  draw the conclusions over every run, `SessionRecovery` follows duplicate acknowledgements and measurements,
  `CongestionRuns` the window's timers and counters, and `SessionWitnesses` holds two concrete runs that show where a
  condition is needed.
  The objects of the program (`Controller`, `SendBuffer`, `RecvBuffer`, `AckState`, `AckData`, `CongestionControl`,
  `BandwidthEstimator`, `RTTEstimator`, `UdpStream`) are classes with the program's loops and fields; each method is
  proved to compute the value-level step that the step system takes. `SlotGate` covers the window's token channel at
  the granularity of single token operations.
* **Failover and reconnect** (`daemon/internal/transport/servers.go`, `daemon/internal/tun/engine.go`): the server
  ring, the first connect, failure counting, the retry loop, the D3 rebuild and failover, with histories read off the
  run.
* **Byte-level code**: IPv4/UDP packet construction with one's-complement checksums, the three address codecs, the
  ClientHello sniffer and the device API's sliding-window rate limiter.

Conventions: times are integers in nanoseconds passed in by the caller, rates are reals, Go's integer widths are
written out where they matter (`Wrap32`, `% UINT16_LIMIT`, `% 256`), a Go map or slice that an object changes is a
`map`, `set` or `seq` field, an error return is a `Result`, `Option` or a verdict datatype.

Properties that do not hold everywhere are stated as equivalences: `RefusedIffFullAndNew` (a reorder buffer loses a
payload exactly when it is new, ahead of the gap and the buffer is full; `ReceiveBufferNeverFull` shows that this never
happens in a session), `LowestUnackedClosesTheGap` (exactly when no Send sits between taking a lower number and storing
its packet; `OvertakenPacketLeavesAGap` is a state where one does), `InitialStretchIffNothingSkipped` (a stream that is
written again after a failed Write gave up bytes leaves those bytes out; `WritingAgainLeavesBytesOut` is such a run),
`RoundTripsIffEncodable` (a domain of more than 255 bytes is truncated by `encodeAddr`), `FrameRoundTripsIffFramable`
(so is a frame of more than 65535 bytes) and `LengthFieldsTruthful` (so are the length fields beyond 65507 payload
bytes).

Where the code and its comments disagree the code is followed: the comment in `RetransmitTick` speaks of 6 to 7 seconds
until an unreachable session dies, the bound proved is 8.75 seconds; the comments on `Config` give defaults of 1024 and
512, the constants are 2048 and 1024.

## Model

| member | source | states |
|---|---|---|
| SessionTheorems.ReceiveBufferNeverFull | pkg/udp/arq/recv_buffer.go:57-69 | In every run no receive buffer holds more than 766 of its 1024 places, so the branch that drops a packet is unreachable; every recorded data packet of an open stream was delivered or is held, with its own payload at its own position |
| SessionTheorems.DeliveredIsPrefixOfWritten | daemon/internal/transport/udp.go:544-571 | In every run, under any loss, duplication and reordering, the payloads given to deliverFn are the first chunks of the stream, once each and in order; every chunk is a stretch of the bytes passed to Write, every byte passed to Write was cut, given up by a failed Write or waits; and the delivered bytes are a prefix of the bytes written as long as no delivered chunk was cut after a failed Write gave up bytes |
| SessionTheorems.InitialStretchIffNothingSkipped | daemon/internal/transport/udp.go:544-571 | The bytes of the first n chunks fill an initial stretch of the bytes passed to Write, leaving none out, if and only if none of these chunks was cut after a failed Write gave up bytes |
| SessionWitnesses.WritingAgainLeavesBytesOut | pkg/udp/arq/controller.go:130-134 | A run of eighteen concrete steps: the socket refuses the first chunk of a Write after it was stored, Write returns its error, the timer sends the chunk, the stream is written again, and the delivered bytes are not a prefix of the bytes written |
| SessionTheorems.AllRecordedMeansAllDelivered | pkg/udp/arq/controller.go:141-158 | Once every chunk of an open stream is numbered, recorded and inserted, all of them have been delivered, and with nothing given up that is every byte cut from the written ones |
| SessionTheorems.AcknowledgedWasRecorded | pkg/udp/arq/controller.go:173-212 | In every run the sender treats as acknowledged only what the receiver recorded, and a packet that left the send buffer is covered by a processed cumulative number below which everything is recorded |
| SessionTheorems.TakenAckIsSound | pkg/udp/arq/controller.go:173-212 | Any acknowledgement off the wire, however old or repeated, removes only packets its cumulative number covers and newly marks only recorded ones |
| SessionTheorems.SlotsAreConserved | pkg/udp/arq/controller.go:199-221 | In every run: slots taken = in flight + distinct packets acknowledged, delivered bytes = 1340 per returned packet, OnAck never returns more than is in flight (its clamp never fires), 4 <= cwnd <= 512, inFlight <= 512 |
| SessionTheorems.SendBufferNeverFull | pkg/udp/arq/send_buffer.go:48-63 | In every run the send buffer, whose capacity Add never checks, holds at most 768 of its 2048 entries |
| SessionTheorems.LowestUnackedClosesTheGap | pkg/udp/arq/controller.go:359-384 | Delivering the lowest un-acknowledged packet moves the receiver's cumulative number over it if and only if no Send sits between taking a lower number and storing its packet |
| SessionWitnesses.OvertakenPacketLeavesAGap | pkg/udp/arq/controller.go:111-131 | A reachable state, by eight concrete steps, in which number 2 overtook number 1 inside Send: the lowest un-acknowledged packet is on the wire and delivering it leaves the cumulative number at zero |
| SessionTheorems.FastRetransmitMakesProgress | pkg/udp/arq/controller.go:359-384 | From any state of the invariant where that holds, with the packet on the wire: deliver it, run on, build any acknowledgement, run on, take it: the packet is acknowledged and the un-acknowledged set strictly shrinks unless it was acknowledged before |
| SessionTheorems.ThirdDuplicateResendsLowest | pkg/udp/arq/controller.go:228-238 | The third duplicate acknowledgement puts the lowest un-acknowledged packet, unchanged, back on the wire |
| SessionRecovery.DuplicatesAreCounted | pkg/udp/arq/controller.go:228-238 | Over any run, read off the cumulative numbers of the handled acknowledgements alone: dupAckCount is how often the last of them was repeated, modulo three |
| SessionRecovery.RepetitionsAreTheStreak | pkg/udp/arq/controller.go:228-238 | That many acknowledgements, and one more, share the last cumulative number, and the one before them has another |
| SessionRecovery.EveryThirdRepetitionResends | pkg/udp/arq/controller.go:228-238 | In any run an acknowledgement that is the third, sixth, ... repetition of its cumulative number puts the lowest un-acknowledged packet back on the wire; any other re-sends only what its bitmap shows as lost |
| SessionRecovery.ThreeInARowResendLowest | pkg/udp/arq/controller.go:173-239 | From a counter at zero the third HandleAck in a row that repeats the last cumulative number ends with sending the lowest packet it leaves un-acknowledged |
| SessionRecovery.KarnsRule | pkg/udp/arq/controller.go:187-197 | Over any run: if the packet of the cumulative number was stored at t and is acknowledged at now, the RTT estimator is updated with now - t, and a rate is measured against what had been delivered when it was numbered, if and only if it was never re-sent in between |
| SessionRecovery.SendingIsRemembered | pkg/udp/arq/send_buffer.go:48-142 | Over any run the buffer knows when a packet was first sent, when a step last put it on the wire, what had been delivered when it was numbered, and whether it was re-sent |
| SessionRecovery.NothingToMeasure | pkg/udp/arq/controller.go:192-197 | Without a stored packet of the cumulative number nothing is measured |
| SessionRecovery.CreditMeasures | pkg/udp/arq/controller.go:214-221 | Newly acknowledged packets count 1340 bytes each as delivered now, and the rate measured then covers these bytes too; without a sample, or with no bytes or no time, the window of rates stays as it was |
| SessionTheorems.CoveredIsReleased | pkg/udp/arq/send_buffer.go:74-90 | Taking an acknowledgement whose cumulative number covers p leaves p acknowledged and never adds to the un-acknowledged set |
| SessionTheorems.CumAckGrows | pkg/udp/arq/ack_state.go:26-57 | Over any run the receiver's cumulative number never decreases |
| SessionTheorems.ReachableInv | pkg/udp/arq/controller.go:92-308 | Every reachable state satisfies the session invariant |
| SessionTheorems.HandleAckIsThreeSteps | pkg/udp/arq/controller.go:173-239 | An uninterrupted HandleAck of an acknowledgement off the wire is a run of the enabled steps TakeAck, CreditAck, RecoverAck: it ends in the sender state Controller.HandleAck computes and adds exactly its re-sent packets to the network |
| SessionTheorems.SendIsFourSteps | pkg/udp/arq/controller.go:92-137 | An uninterrupted Send, as Controller.Send computes it, is the run Acquire, Number, Store, Transmit of the step system |
| SessionRuns.StepInv | pkg/udp/arq/controller.go:92-308 | Each of the nineteen steps of a session keeps the invariant |
| SessionProof.AboveAGap | pkg/udp/arq/congestion.go:156-175 | Above a number that was not recorded at most 766 numbers are: at most 511 that occupy a window slot and at most 255 that one bitmap can select |
| SessionProof.RoomToInsert | pkg/udp/arq/recv_buffer.go:57-69 | Whenever a payload is inserted ahead of its stream's gap, fewer than 766 others are held, also when the gap is a chunk whose Send found the session closed and never got a number |
| SessionProof.CreditCounts | pkg/udp/arq/congestion.go:179-189 | OnAck is given at most the slots in flight and restores the slot and byte balance |
| SessionProof.TakeAckNumbers | pkg/udp/arq/controller.go:199-212 | Processing a sound acknowledgement leaves every given-out number stored, covered or held by a Send in progress |
| SessionProof.SendAckNet | pkg/udp/arq/controller.go:338-355 | An acknowledgement is true of the receiver when built and stays true on the wire |
| SessionDeath.UnreachableSessionDies | pkg/udp/arq/controller.go:247-321 | From every reachable state outside HandleAck, for every un-acknowledged packet with fewer than 32 un-acknowledged or unstored numbers below it: whatever else happens, if no acknowledgement is taken and ticks are at most `gap` apart, the session is dead once 15 (500 ms + gap) + 500 ms have passed since that packet was last sent (an overdue timeout counts from 500 ms before now) |
| SessionDeath.DeathWithinNineSeconds | daemon/internal/transport/udp.go:294-335 | With the transport's 50 ms ticker, in the same states, the session is dead at most 8.75 s after acknowledgements stop being taken |
| SessionDeath.LowestHeadsTheBatch | pkg/udp/arq/controller.go:247-258 | The lowest un-acknowledged packet, once expired, is the first of the batch, so the cap of 32 never hides it |
| SessionDeath.DueMeansInBatch | pkg/udp/arq/controller.go:247-258 | An expired packet with fewer than 32 un-acknowledged ones below it is in the batch |
| SessionDeath.TickOnLow | pkg/udp/arq/controller.go:260-300 | A tick leaves such a packet alone before its timeout; after it the session dies or the packet is re-sent and counted exactly once, and with fifteen retransmissions the session dies |
| SlotGate.NoLostWakeUp | pkg/udp/arq/congestion.go:156-175 | Under every interleaving of senders and acknowledgements, tokens in the channel, in hand and about to be pushed cover the free slots; with none of them the window is full |
| SlotGate.StepKeepsCovered | pkg/udp/arq/congestion.go:228-240 | Each token operation, window check and locked update keeps the free slots covered |
| SlotGate.RoomMeansAdmission | pkg/udp/arq/congestion.go:156-175 | Whenever the window has room and a sender is present, at most three steps admit one without any new acknowledgement |
| ArqController.Controller.constructor | pkg/udp/arq/controller.go:73-88 | A new controller has the initial sender state, an empty log, no buffers and no immediate acknowledgement on record |
| ArqController.Controller.Send | pkg/udp/arq/controller.go:92-137 | An admitted packet takes one slot, the next number and a buffer entry and goes out with the caller's fields; if the socket refuses it, it stays numbered and stored but is not on the wire; a call that is not admitted changes nothing but tokens |
| ArqController.Controller.HandleAck | pkg/udp/arq/controller.go:173-239 | Ignores a short datagram and a closed session; otherwise computes exactly the three stages and re-sends exactly their packets, in order |
| ArqController.Controller.AckBuffer | pkg/udp/arq/controller.go:187-212 | The buffer loses what is covered, marks what is selected, counts each newly acknowledged packet once; the RTT is sampled only from a never retransmitted packet |
| ArqController.Controller.AckSelected | pkg/udp/arq/controller.go:202-212 | The bitmap loop marks exactly the selected packets and counts exactly the newly marked |
| ArqController.Controller.AckCredit | pkg/udp/arq/controller.go:214-221 | Acknowledged packets become delivered bytes, at most one rate sample and returned slots, in that order |
| ArqController.Controller.SackDetect | pkg/udp/arq/controller.go:392-459 | Re-sends, in order, exactly the first at most 16 packets the acknowledgement shows as lost |
| ArqSender.LostExactly | pkg/udp/arq/controller.go:408-445 | A packet is lost if and only if it is an un-acknowledged gap above cumAck with at least three selected numbers above it, last sent at least half an RTO and at least 20 ms ago |
| ArqSender.SackBatchExactly | pkg/udp/arq/controller.go:414-456 | A lost packet is re-sent if and only if fewer than 16 lost ones lie below it |
| ArqController.Controller.ThreeAbove | pkg/udp/arq/controller.go:419-431 | Answers whether at least three numbers above a gap are selected |
| ArqController.Controller.HighestSacked | pkg/udp/arq/controller.go:393-406 | Finds the highest selected number, or that there is none |
| ArqController.Controller.FastRetransmit | pkg/udp/arq/controller.go:359-384 | Re-sends the lowest un-acknowledged packet and nothing else |
| ArqController.Controller.AckRecover | pkg/udp/arq/controller.go:223-238 | SACK recovery, then the duplicate counter, which fires at three and starts over |
| ArqController.Controller.RetransmitTick | pkg/udp/arq/controller.go:247-308 | Re-sends the expired batch in order up to a packet at its limit, which kills and closes the session; doubles the RTO only for a first retransmission |
| ArqController.Controller.ExpiredBatch | pkg/udp/arq/controller.go:248-258 | The at most 32 lowest expired packets, ascending |
| ArqSender.TickBatchExactly | pkg/udp/arq/controller.go:248-258 | A tick looks at an un-acknowledged packet if and only if it was last sent more than one RTO ago and fewer than 32 such packets lie below it |
| ArqSender.TickExactly | pkg/udp/arq/controller.go:260-307 | A tick kills and closes the session if and only if a packet it looks at was re-sent fifteen times; otherwise it re-sends all of them in order and backs the RTO off if and only if one had never been re-sent |
| ArqSender.SweepExactly | pkg/udp/arq/controller.go:260-300 | The loop re-sends, once each, the packets before the first with fifteen retransmissions and stops there |
| ArqController.Controller.SweepBatch | pkg/udp/arq/controller.go:260-300 | The loop re-sends the batch up to the first packet with 15 retransmissions |
| ArqController.Controller.Resend | pkg/udp/arq/controller.go:283-299 | A retransmission keeps the packet's number and content |
| ArqController.Controller.HandleData | pkg/udp/arq/controller.go:141-168 | Records the number, inserts into the stream's buffer if it exists and leaves all other buffers alone; for a gap it sends one report of the log and notes the time, unless one went out less than 5 ms before; a closed session changes nothing |
| ArqController.Controller.SendAck | pkg/udp/arq/controller.go:338-355 | Appends one datagram that decodes to a report of the log and resets the counters |
| ArqController.Controller.AckTick | pkg/udp/arq/controller.go:331-335 | Sends one report of the log if and only if two packets arrived or a gap was seen since the last one |
| ArqController.Controller.RecordPktNum | pkg/udp/arq/controller.go:486-491 | Records every number but zero |
| ArqController.Controller.CreateRecvBuffer | pkg/udp/arq/controller.go:464-474 | Refused if and only if the stream is new and the limit reached; otherwise the stream starts with an empty buffer |
| ArqController.Controller.RemoveRecvBuffer | pkg/udp/arq/controller.go:477-481 | Removes that stream's buffer and no other |
| ArqController.Controller.Close | pkg/udp/arq/controller.go:534-544 | The session is closed afterwards |
| ArqSender.TickOnlyResends | pkg/udp/arq/controller.go:247-308 | A tick re-sends only un-acknowledged packets of the buffer and changes nothing of them but timing |
| ArqSender.RecoveryOnlyResends | pkg/udp/arq/controller.go:359-459 | Neither does loss recovery |
| UdpStreams.UdpStream.Write | daemon/internal/transport/udp.go:544-571 | The packets sent carry consecutive sequence numbers, 1340 bytes in each but the one that carries the end of the argument, and spell out the first `total` bytes of the argument, all of it on success; a chunk that fails has used up its number, and one the socket refused is in the send buffer although `total` does not count it |
| AckTracking.RunTracksArrivals | pkg/udp/arq/ack_state.go:26-57 | After any sequence of arrivals cumAck ends the longest complete prefix 1..n of what arrived, and the map holds exactly the rest |
| AckTracking.RecordTracks | pkg/udp/arq/ack_state.go:26-57 | One call refines adding one number to a set |
| AckTracking.TracksUnique | pkg/udp/arq/ack_state.go:26-57 | The set determines cumAck and the map |
| AckTracking.DecodedAckIsExact | pkg/udp/arq/ack_state.go:60-69 | Built, encoded and decoded, an acknowledgement says of every number up to cumAck + 256 whether it arrived |
| AckTracking.TriggersAreExact | pkg/udp/arq/ack_state.go:26-93 | Over any run the delayed trigger counts the arrivals since the last acknowledgement went out, the immediate one is set if and only if one of them left a gap below it, and the duplicate count is the arrivals above a gap since the prefix last moved on |
| AckTracking.AckState.constructor | pkg/udp/arq/ack_state.go:19-23 | A new log stands for the empty set |
| AckTracking.AckState.RecordReceived | pkg/udp/arq/ack_state.go:26-57 | The advancing loop computes the recorded log and keeps it standing for the arrived set |
| AckTracking.AckState.BuildAck | pkg/udp/arq/ack_state.go:60-69 | The acknowledgement selects exactly the received numbers within 256 of cumAck |
| AckTracking.AckState.AckSent | pkg/udp/arq/ack_state.go:88-93 | Resets the triggers and keeps what arrived |
| AckWire.DecodeInvertsEncode | pkg/udp/arq/ack.go:44-60 | Decoding an encoded acknowledgement, with any trailing bytes, gives it back |
| AckWire.EncodeInvertsDecode | pkg/udp/arq/ack.go:44-60 | Every 36-byte string is the encoding of what it decodes to |
| AckWire.DecodedValid | pkg/udp/arq/ack.go:52-60 | Decoding succeeds if and only if there are at least 36 bytes |
| AckWire.AckBytes | pkg/udp/arq/ack.go:44-49 | On the wire: cumAck in four bytes, the most significant first, then the bitmap |
| AckWire.BitOrder | pkg/udp/arq/ack.go:32-41 | The i-th number above cumAck is bit i mod 8, the lowest first, of bitmap byte i div 8 |
| AckWire.MarkAddsExactlyOne | pkg/udp/arq/ack.go:20-41 | Marking a number makes exactly that number test as received, if it is within 256 above cumAck, and nothing otherwise |
| AckWire.MarkSelected | pkg/udp/arq/ack.go:20-29 | The same for the whole selected set |
| AckWire.AckData.constructor | pkg/udp/arq/ack_state.go:60-63 | A new acknowledgement selects nothing |
| AckWire.AckData.SetReceived | pkg/udp/arq/ack.go:20-29 | The bit operation on the bitmap marks the number |
| AckWire.AckData.Encode | pkg/udp/arq/ack.go:44-49 | Fills the 36 bytes of the wire form |
| Reordering.InsertRepresents | pkg/udp/arq/recv_buffer.go:32-70 | Inserting position i of a stream adds exactly i to what is delivered in order or held |
| Reordering.InsertExpected | pkg/udp/arq/recv_buffer.go:41-55 | Inserting the expected position delivers it and every held successor up to the next gap |
| Reordering.RefusedIffFullAndNew | pkg/udp/arq/recv_buffer.go:57-69 | A payload is lost if and only if it is new, ahead of the gap and the buffer is full |
| Reordering.FlushRepresents | pkg/udp/arq/recv_buffer.go:44-53 | The flush loop stops at the first missing position with everything below it delivered in order |
| Reordering.RecvBuffer.constructor | pkg/udp/arq/recv_buffer.go:18-25 | A new buffer expects position 0 and holds nothing |
| Reordering.RecvBuffer.Insert | pkg/udp/arq/recv_buffer.go:32-70 | The program's branches and loop compute the insertion |
| SendBuffering.AckedByUnacked | pkg/udp/arq/send_buffer.go:74-100 | One acknowledgement removes from the un-acknowledged set exactly the numbers it names |
| SendBuffering.AckedByExactly | pkg/udp/arq/send_buffer.go:74-100 | One acknowledgement removes the packets up to its cumulative number, marks the selected ones, changes nothing else, and newly acknowledges those it names that were not marked |
| SendBuffering.ResentAllSame | pkg/udp/arq/send_buffer.go:132-142 | Retransmissions change no packet's content, number or acknowledgement |
| SendBuffering.SendBuffer.constructor | pkg/udp/arq/send_buffer.go:40-45 | A new buffer is empty |
| SendBuffering.SendBuffer.Add | pkg/udp/arq/send_buffer.go:48-63 | Adds one entry, never retransmitted and un-acknowledged |
| SendBuffering.SendBuffer.AckCumulative | pkg/udp/arq/send_buffer.go:74-90 | Removes exactly the covered entries and counts those not acknowledged before |
| SendBuffering.SendBuffer.AckSelective | pkg/udp/arq/send_buffer.go:94-100 | Marks one entry, if present |
| SendBuffering.SendBuffer.Expired | pkg/udp/arq/send_buffer.go:105-127 | Lists exactly the un-acknowledged entries older than the RTO, ascending |
| SendBuffering.SendBuffer.MarkResent | pkg/udp/arq/send_buffer.go:132-142 | Stamps and counts one retransmission |
| SendBuffering.SendBuffer.IsMaxRetransmits | pkg/udp/arq/send_buffer.go:145-153 | True from the fifteenth retransmission on, false for an unknown packet |
| SendBuffering.SendBuffer.FirstUnacked | pkg/udp/arq/send_buffer.go:171-184 | The least un-acknowledged number, or none exactly when there is none |
| RttEstimation.RunBounded | pkg/udp/arq/rtt.go:31-71 | For any mix of samples in [lo, hi] and backoffs: 8 floor(lo/8) <= SRTT <= hi, RTTVAR <= max(floor(hi/2), hi - 8 floor(lo/8)), RTO in 100..500 ms |
| RttEstimation.UpdateBounded | pkg/udp/arq/rtt.go:31-52 | One sample keeps those bounds |
| RttEstimation.UpdateFollowsRfc6298 | pkg/udp/arq/rtt.go:31-52 | The update is section 2 of RFC 6298 up to less than two units of integer rounding, with RTTVAR taken from the old SRTT |
| RttEstimation.ThreeTimeoutsReachTheCap | pkg/udp/arq/rtt.go:55-60 | After any history three backoffs in a row give 500 ms |
| RttEstimation.TimeoutDoubles | pkg/udp/arq/rtt.go:55-60 | After any history one backoff doubles the RTO up to 500 ms and leaves the smoothed times alone; before any event the RTO is 300 ms |
| RttEstimation.ClampRto | pkg/udp/arq/rtt.go:63-71 | The nearest value in 100..500 ms |
| RttEstimation.RTTEstimator.constructor | pkg/udp/arq/rtt.go:24-28 | Starts at 300 ms without a sample |
| RttEstimation.RTTEstimator.Update | pkg/udp/arq/rtt.go:31-52 | The field updates, in the program's order, compute the smoothed state |
| RttEstimation.RTTEstimator.Backoff | pkg/udp/arq/rtt.go:55-60 | Doubles the RTO within its bounds |
| BandwidthEstimation.RunKeepsWindowMaximum | pkg/udp/arq/bandwidth.go:82-143 | Over any run the counter is the sum of all delivered bytes and maxBW the largest of the last 64 positive rates |
| BandwidthEstimation.PeakIsMax | pkg/udp/arq/bandwidth.go:128-134 | The recomputed maximum is an element of the window and bounds it |
| BandwidthEstimation.RateMeasures | pkg/udp/arq/bandwidth.go:101-120 | Over the time since the packet was sent and the time since the delivery before it, a positive rate accounts for at most the bytes delivered since the snapshot, and over one of the two for exactly these |
| BandwidthEstimation.PacketMeasures | pkg/udp/arq/bandwidth.go:68-120 | Over any run, for a packet sent at time t: the bytes delivered since are what the rate accounts for over the longer of the time since t and the time since the last delivery before t; it is positive if and only if there were such bytes and time passed |
| BandwidthEstimation.RunCounts | pkg/udp/arq/bandwidth.go:82-90 | Over any run the counter is the sum of the bytes delivered and its time that of the last of them |
| BandwidthEstimation.MinRttKeeps | pkg/udp/arq/bandwidth.go:136-142 | The minimum RTT never exceeds the newest sample, changes only to it, rises only when more than ten seconds old, and is then always replaced |
| BandwidthEstimation.MinRttIsInForce | pkg/udp/arq/bandwidth.go:136-142 | Over any run it is a sample no later one beat, at most ten seconds older than the last, and zero until there is one |
| BandwidthEstimation.TargetCoversBdp | pkg/udp/arq/bandwidth.go:206-220 | The target is the least positive packet count covering gain times the bandwidth-delay product |
| BandwidthEstimation.BandwidthEstimator.constructor | pkg/udp/arq/bandwidth.go:61-65 | Starts without samples |
| BandwidthEstimation.BandwidthEstimator.RecordDelivered | pkg/udp/arq/bandwidth.go:82-90 | Adds delivered bytes |
| BandwidthEstimation.BandwidthEstimator.SampleRate | pkg/udp/arq/bandwidth.go:95-143 | Pushes a rate, keeps the last 64, recomputes the maximum and refreshes the minimum RTT when beaten or ten seconds old |
| BandwidthEstimation.BandwidthEstimator.CwndFromBDP | pkg/udp/arq/bandwidth.go:206-220 | Computes the target window, 0 without an estimate |
| Congestion.RunSized | pkg/udp/arq/congestion.go:376-406 | In any run 4 <= cwnd <= 512 and inFlight <= 512, whatever the bandwidth estimates, and a probe pins the window to 4 |
| Congestion.ProbeNeverSticks | pkg/udp/arq/congestion.go:345-373 | Right after every acknowledgement of any run an active probe has cwnd = 4 and was entered less than 2 s before, whatever STARTUP did meanwhile |
| Congestion.AfterAckProbe | pkg/udp/arq/congestion.go:345-373 | One OnAck keeps the probe within two seconds, enters only from STEADY when due, and puts the next one ten seconds after an exit |
| Congestion.EntryIsFromSteady | pkg/udp/arq/congestion.go:366-372 | A probe is entered only by an acknowledgement outside STARTUP after the due time |
| Congestion.EntriesAreSpaced | pkg/udp/arq/congestion.go:345-373 | Every probe entry is more than 10 s after every earlier exit |
| Congestion.StartupEndsOnPlateau | pkg/udp/arq/congestion.go:247-289 | One acknowledgement that ends STARTUP completes a stable, network-limited round that grew by less than a quarter, with the counter at its limit |
| Congestion.StartupEndsAfterThreePlateaus | pkg/udp/arq/congestion.go:247-289 | In any run an acknowledgement ends STARTUP if and only if it completes a judged round and the last three judged rounds since STARTUP began, this one included, each grew by less than a quarter over the one before |
| Congestion.StartupNeverShrinks | pkg/udp/arq/congestion.go:376-406 | In STARTUP and outside a probe the window never shrinks |
| Congestion.AfterAckSized | pkg/udp/arq/congestion.go:179-241 | OnAck keeps the bounds and returns exactly n slots, down to zero |
| CongestionRuns.AckResizes | pkg/udp/arq/congestion.go:376-406 | After an acknowledgement the window is 4 in a probe, unchanged without an estimate, and otherwise the least packet count covering twice rate times minimum RTT, between 4 and 512, which STARTUP only lets grow |
| CongestionRuns.RestartsExactly | pkg/udp/arq/congestion.go:179-203 | STARTUP begins again if and only if an idle period was seen and at least three quarters of the window were in flight |
| CongestionRuns.SeenMeansIdle | pkg/udp/arq/congestion.go:212-223 | In any run an idle period counts as seen only if, since STARTUP began last, acknowledgements 200 ms apart and all between them left less than a quarter of the window in flight |
| CongestionRuns.ProbeEndsExactly | pkg/udp/arq/congestion.go:345-365 | In any run an acknowledgement ends an active probe if and only if it comes two seconds after the entry or 200 ms after the probe first drained to four packets |
| CongestionRuns.ProbeBeginsExactly | pkg/udp/arq/congestion.go:366-372 | In any run an acknowledgement enters a probe if and only if it leaves the window out of STARTUP more than ten seconds after the start or the last exit |
| CongestionRuns.RunKeepsLog | pkg/udp/arq/congestion.go:156-373 | Over any run the round counters, idle marks and probe times of the window are those of a log kept from the events alone with the numbers written out |
| Congestion.CongestionControl.constructor | pkg/udp/arq/congestion.go:121-140 | Starts in STARTUP with 32 slots and 32 tokens |
| Congestion.CongestionControl.AcquireSlot | pkg/udp/arq/congestion.go:156-175 | Admits only below cwnd, spending tokens; refuses only when done; would wait only without tokens |
| Congestion.CongestionControl.OnAck | pkg/udp/arq/congestion.go:179-241 | Computes the new window and pushes one token per free slot, dropping those beyond the channel's 512 |
| Congestion.CongestionControl.CheckStartupExit | pkg/udp/arq/congestion.go:247-289 | Computes one STARTUP round |
| Congestion.CongestionControl.EnterStartup | pkg/udp/arq/congestion.go:311-320 | Starts STARTUP over and forgets the idle period |
| Congestion.CongestionControl.CheckProbeRTT | pkg/udp/arq/congestion.go:345-373 | Computes one probe step |
| Congestion.CongestionControl.RecalcCwnd | pkg/udp/arq/congestion.go:376-406 | Computes the clamped window |
| Congestion.CongestionControl.TrackIdle | pkg/udp/arq/congestion.go:212-223 | Notes a period of 200 ms below a quarter of the window |
| Congestion.CongestionControl.WakeSenders | pkg/udp/arq/congestion.go:228-240 | The push loop saturates at the channel's capacity |
| ServerRings.UsableKeepsFirstOccurrences | daemon/internal/transport/servers.go:34-49 | The ring holds each non-blank candidate once, in the order of first occurrence |
| ServerRings.NewServerRing | daemon/internal/transport/servers.go:34-49 | No ring exactly when every candidate is blank; otherwise the usable candidates with the first one current |
| ServerRings.RejectedSinceLastSuccess | daemon/internal/transport/servers.go:111-145 | Over any history a server counts as rejecting if and only if it answered "invalid key" since the last success |
| ServerRings.DialOrderDistinct | daemon/internal/transport/servers.go:66-74 | One turn of the ring dials no server twice |
| ServerRings.DialOrderComplete | daemon/internal/transport/servers.go:66-74 | One turn of the ring reaches every server |
| ServerRings.WalkTurns | daemon/internal/transport/servers.go:164-199 | After i failures that blame the server the next dial goes to the i-th server of the round |
| ServerRings.WalkRejects | daemon/internal/transport/servers.go:164-199 | A round adds to the rejecting servers exactly those that answered "invalid key" in it |
| ServerRings.ConnectGivesUpOnlyForCause | daemon/internal/transport/servers.go:164-199 | ConnectAny reports "invalid key" if and only if every server answered so, and then all are marked; an accepting server stays current with no rejection on record; a dead link keeps the ring; other failures bring it back to its start |
| ServerRings.ConnectEndsWhere | daemon/internal/transport/servers.go:164-199 | ConnectAny ends on the first server that accepts or finds the link down; if one turn has neither it fails with "invalid key" if every server said so and with the other error otherwise |
| ServerRings.ConnectAny | daemon/internal/transport/servers.go:164-199 | Dials the servers in ring order, each at most once, until one accepts or the link is down, and answers accordingly; without a ring it dials nothing |
| ServerRings.ServerRing.DialRound | daemon/internal/transport/servers.go:164-199 | The dialling loop with its exact list of dials, answer and ring |
| ServerRings.ServerRing.All | daemon/internal/transport/servers.go:66-74 | The addresses in dial order |
| ServerRings.ServerRing.Advance | daemon/internal/transport/servers.go:78-86 | One place on, unless there is a single server |
| ServerRings.ServerRing.Prefer | daemon/internal/transport/servers.go:89-99 | Makes a known address current, ignores an unknown one |
| ServerRings.ServerRing.NoteFailure | daemon/internal/transport/servers.go:111-121 | A dead link changes nothing, a rejection is remembered, every other failure moves on |
| ServerRings.ServerRing.NoteSuccess | daemon/internal/transport/servers.go:125-131 | Forgets all rejections |
| ServerRings.ServerRing.AllRejected | daemon/internal/transport/servers.go:136-145 | Whether every server of the ring is marked |
| EngineRecovery.D3TripsOnlyForCause | daemon/internal/tun/engine.go:846-867 | Over any run D3 may trip if and only if three counted stream failures followed the last success, recovery or transport swap |
| EngineRecovery.KeptConnectionsAreSweptExactly | daemon/internal/tun/engine.go:1317-1347 | When a D3 rebuild succeeds the engine is active with a clean counter, and connections are closed then if and only if the transport was TLS when D3 tripped and an unreachable error occurred in the streak that tripped it or during the rebuild |
| EngineRecovery.StepOnConnections | daemon/internal/tun/engine.go:203-219 | Connections are closed by a D3 trip of an active engine unless the transport is TLS, by D1 and the third failed check of an active engine, by the end of a rebuild that kept them if the link was seen down, and by nothing else |
| EngineRecovery.StepOnStatus | daemon/internal/tun/engine.go:203-243 | Each event that engages the kill switch flips an active engine only, each that ends an outage a reconnecting one only; stop, a lost bridge and the twelfth failed check end in inactive |
| EngineRecovery.KeepsExactly | daemon/internal/tun/engine.go:1326-1327 | Over any run, while D3 rebuilds, connections are kept if and only if the transport was TLS when it tripped |
| EngineRecovery.RunExact | daemon/internal/tun/engine.go:224-243 | Over any run the failure counter and both flags say exactly what the history of errors says |
| EngineRecovery.StepExact | daemon/internal/tun/engine.go:1179-1298 | Each event of the health loop (D1 to D4, stream outcomes, dials, stop) keeps them exact |
| EngineRecovery.GivesUpOnlyForCause | daemon/internal/tun/engine.go:1194-1298 | Over any run the engine halts if and only if it is asked to, the TUN bridge is lost, the twelfth health check in a row fails, or the dialled server rejected the key and every ring server has |
| EngineRecovery.RunCountsChecks | daemon/internal/tun/engine.go:1247-1288 | Over any run the health loop's counter is the number of checks that failed since the last that passed or the last rebuild |
| EngineRecovery.GaveUpMeansEveryServerRejected | daemon/internal/tun/engine.go:160-165 | Over any run an "invalid key" answer makes reconnecting give up if and only if every server of the ring has given that answer after the last successful connect |
| EngineRecovery.RingFollowsDials | daemon/internal/tun/engine.go:921-966 | The engine's ring is the ring that its dials and their outcomes determine |
| EngineFailover.FailoverFollowsBlame | daemon/internal/tun/engine.go:921-966 | Over any run a dial goes to the server as many places on from the first as dials have blamed their server; if it succeeds, that server is published and stays current with no rejection on record, and the transport has the mode of the dial |
| EngineFailover.RingTurnsWithBlame | daemon/internal/transport/servers.go:111-121 | Over any run the ring has moved one place on for every failed dial but those that found the link down |
| EngineFailover.RetriesGoRound | daemon/internal/tun/engine.go:1033-1057 | The i-th dial of the retry loop goes to the server as many places on from the current one as its earlier dials blamed theirs |
| EngineFailover.OneTurnReachesEveryServer | daemon/internal/tun/engine.go:1033-1057 | While every dial blames its server, one turn of the retry loop dials the servers in the order ConnectAny would, each of them once |
| EngineFailover.RestoredServer | daemon/internal/tun/engine.go:921-966 | When the loop restores the transport, the server dialled last is published and current, and the transport has the mode of that dial |
| EngineRecovery.RebuildEndsForCause | daemon/internal/tun/engine.go:982-1066 | The retry loop returns only with a transport up and a clean slate, on stop, or with the key rejected everywhere |
| EngineRecovery.RebuildIsAttempts | daemon/internal/tun/engine.go:982-1066 | The retry loop inside D3 is a run of Attempt steps of the machine, ending in the same engine |
| EngineRecovery.DelaysBackOff | daemon/internal/tun/engine.go:1012-1019 | Every pause lies in 3..30 s, none is shorter than the one before, and each grows by half until the cap |
| EngineRecovery.PausesBackOff | daemon/internal/tun/engine.go:1012-1019 | The same for the whole list of pauses |
| EngineRecovery.UnreachedIsTheStreak | daemon/internal/tun/engine.go:1051-1057 | The streak that decides on route refreshes is the longest stretch of unreachable dials at the end |
| EngineRecovery.RefreshesEveryFifth | daemon/internal/tun/engine.go:1080-1102 | While no refresh finds the system offline, routes are refreshed exactly before the dials that follow 2, 7, 12, ... unreachable ones in a row |
| EngineRecovery.RefreshesEveryTimeOffline | daemon/internal/tun/engine.go:1080-1102 | While every refresh finds the system offline, exactly before each dial that follows two or more unreachable ones |
| EngineRecovery.TunEngine.NoteStreamOpenFailure | daemon/internal/tun/engine.go:846-867 | Counts a failure unless the destination refused or the engine is not active; the first of a streak sets the flag afresh |
| EngineRecovery.TunEngine.EnterReconnecting | daemon/internal/tun/engine.go:203-219 | Flips only an active engine, and sweeps only then and only if asked |
| EngineRecovery.TunEngine.SetConnected | daemon/internal/tun/engine.go:224-243 | Flips only a reconnecting engine, with a clean counter |
| EngineRecovery.TunEngine.TryReconnectOnce | daemon/internal/tun/engine.go:921-966 | One dial: the server it goes to, and its effect on ring, transport, address and counter |
| EngineRecovery.TunEngine.ReconnectTransport | daemon/internal/tun/engine.go:982-1066 | The retry loop: its verdict and engine, the servers it dials, exactly one pause of the back-off sequence between two dials, and exactly the route refreshes that the unreachable streak calls for |
| EngineRecovery.TunEngine.OneRound | daemon/internal/tun/engine.go:1033-1057 | One round of the loop and its verdict |
| EngineRecovery.TunEngine.RunD3 | daemon/internal/tun/engine.go:1317-1365 | D3 from its counters to recovery, stop or halt |
| UdpPackets.BuiltVerifies | daemon/internal/tun/packet.go:54-130 | For every address pair, ports and payload up to 65507 bytes the header sum and the pseudo-header sum fold to 0xFFFF, and both accumulators fit 32 bits |
| UdpPackets.BuiltParses | daemon/internal/tun/packet.go:16-46 | The two parsers return the original fields, also with stale bytes behind the datagram |
| UdpPackets.BuiltBytes | daemon/internal/tun/packet.go:54-86 | The bytes of a built packet outside its checksums: version and header length, zero fields, TTL 64, protocol 17, lengths, addresses, ports and payload, the most significant byte first |
| UdpPackets.LengthFieldsTruthful | daemon/internal/tun/packet.go:54-86 | The 16-bit length fields are right if and only if the payload has at most 65507 bytes |
| UdpPackets.FoldIsModular | daemon/internal/tun/packet.go:97-106 | Folding carries keeps a sum modulo 0xFFFF and zero only for zero |
| UdpPackets.WordsByByte | daemon/internal/tun/packet.go:97-101 | In the sum a byte at an even position counts 256 times and one at an odd position once |
| UdpPackets.PseudoHeader | daemon/internal/tun/packet.go:108-115 | The checksum starts from both addresses, protocol 17 and the UDP length, as the pseudo-header of RFC 768 |
| UdpPackets.ComplementVerifies | daemon/internal/tun/packet.go:97-130 | Adding the complement of a folded sum makes the whole fold to 0xFFFF, also where 0 is sent as 0xFFFF |
| UdpPackets.IpHeaderVerifies | daemon/internal/tun/packet.go:97-106 | The IPv4 header with its checksum folds to 0xFFFF |
| UdpPackets.UdpSegmentVerifies | daemon/internal/tun/packet.go:108-130 | So does the UDP datagram with its pseudo-header |
| UdpPackets.IpChecksum | daemon/internal/tun/packet.go:97-106 | The loop computes the complement of the folded word sum |
| UdpPackets.UdpChecksum | daemon/internal/tun/packet.go:108-130 | The loop computes it over pseudo-header and datagram, odd byte included, never 0 |
| UdpPackets.SumWords | daemon/internal/tun/packet.go:97-101 | The 32-bit accumulator holds the word sum |
| UdpPackets.FoldCarries | daemon/internal/tun/packet.go:102-104 | The loop adds the carries back |
| UdpPackets.BuildUDPPacketInto | daemon/internal/tun/packet.go:54-86 | Writes exactly the packet over whatever the reused buffer held and leaves the rest of the buffer alone |
| AddrCodec.AcceptsExactlyEncodings | pkg/proto/udp.go:77-116 | decodeAddr accepts exactly the strings that start with an encoding, with its destination and length |
| AddrCodec.RoundTripsIffEncodable | pkg/proto/udp.go:54-116 | A destination round-trips if and only if its domain has at most 255 bytes |
| AddrCodec.DecodedIsEncoding | pkg/proto/udp.go:77-116 | What decodes is, byte for byte, the encoding of its result |
| AddrCodec.EncodingDecodes | pkg/proto/udp.go:54-116 | An encoding followed by anything decodes to its destination |
| AddrCodec.AddressBytes | pkg/proto/udp.go:54-75 | The bytes of an encoded address: type 1, 4 or 3, the address or a length byte and the name, and the port with the most significant byte first |
| AddrCodec.StreamOpenBytes | pkg/udp/stream.go:23-50 | A stream-open message is its type byte followed by that encoding |
| AddrCodec.FrameBytes | pkg/proto/udp.go:14-25 | A frame is the 16-bit length, the most significant byte first, the address and the payload |
| AddrCodec.ConnectRoundTrip | pkg/proto/proto.go:76-103 | WriteConnect refuses exactly the destinations that would not be read back; what it writes for the others, followed by anything, is read as the destination |
| AddrCodec.StreamOpenAgrees | pkg/udp/stream.go:53-86 | After the type byte DecodeStreamOpen accepts the same strings as decodeAddr with the same result |
| AddrCodec.StreamOpenRoundTrip | pkg/udp/stream.go:23-86 | An encoded stream-open message decodes to itself |
| AddrCodec.ReadConnect | pkg/proto/proto.go:106-146 | On every byte stream ReadConnect succeeds exactly when decodeAddr does, with the same result, and consumes exactly the encoding |
| AddrCodec.ReadHost | pkg/proto/proto.go:106-138 | The host part of that |
| AddrCodec.FrameRoundTripsIffFramable | pkg/proto/udp.go:14-52 | A written frame reads back as its datagram if and only if the domain and the frame fit their length fields |
| AddrCodec.FramesRoundTrip | pkg/proto/udp.go:14-52 | Any list of framable datagrams written one after another reads back as that list with nothing left |
| AddrCodec.FrameReads | pkg/proto/udp.go:28-52 | A frame is read off the front of any stream |
| AddrCodec.ReadUDPFrame | pkg/proto/udp.go:28-52 | The reading steps give that datagram and leave the rest |
| SniSniffing.WellFormedHelloIsAnswered | daemon/internal/tun/stream_log.go:66-149 | A well-formed ClientHello record, followed by anything, is answered with its first host_name (section 3 of RFC 6066), or with none if it has none |
| SniSniffing.AnswerIsStable | daemon/internal/tun/stream_log.go:66-149 | An answer never changes when more bytes follow |
| SniSniffing.AnsweredHostIsThere | daemon/internal/tun/stream_log.go:118-148 | Whatever the bytes, a host answered stands in them as a host_name entry of its own length |
| SniSniffing.AsksForMoreExactly | daemon/internal/tun/stream_log.go:67-76 | More bytes are asked for if and only if there are fewer than five or a handshake record is not complete |
| SniSniffing.OthersHaveNoHost | daemon/internal/tun/stream_log.go:70-80 | What is no handshake record or no ClientHello is answered without a host |
| SniSniffing.ExtensionsScan | daemon/internal/tun/stream_log.go:118-148 | Scanning any serialised extension list finds the first host_name among its server-name extensions |
| SniSniffing.NamesScan | daemon/internal/tun/stream_log.go:135-145 | Scanning any serialised name list finds its first host_name |
| SniSniffing.HandshakeExtensions | daemon/internal/tun/stream_log.go:78-117 | Stepping over session id, suites and compression reaches the extensions |
| SniSniffing.ParseSNI | daemon/internal/tun/stream_log.go:66-149 | The re-slicing loops compute that parse |
| SniSniffing.SniSniffer.Read | daemon/internal/tun/stream_log.go:33-53 | As long as 2048 bytes suffice, the sniffer is done exactly when the bytes read so far have an answer, and holds it; a decided host never changes |
| RateLimiting.AtMostSixtyInAnyMinute | server/internal/admin/auth_device.go:89-114 | Over any run, with any sweeps, no half-open minute at all sees more than sixty admissions of a key |
| RateLimiting.AdmitsIffUnderSixty | server/internal/admin/auth_device.go:89-114 | A request is admitted if and only if fewer than sixty of its key were admitted in the last minute |
| RateLimiting.WindowTracksAdmissions | server/internal/admin/auth_device.go:89-129 | The stored times of a key agree with its admissions on the last minute, whatever the janitor removed |
| RateLimiting.SweepKeeps | server/internal/admin/auth_device.go:116-129 | The janitor never changes what a later request sees |
| RateLimiting.SweptExactly | server/internal/admin/auth_device.go:116-129 | After any run the janitor removes a key if and only if none of its stored times lies in the last minute or at its very start, and leaves every other key as it was |
| RateLimiting.KeyRateLimiter.Allow | server/internal/admin/auth_device.go:89-114 | The filtering loop computes the admission and the new window of that key only |
| RateLimiting.KeyRateLimiter.Janitor | server/internal/admin/auth_device.go:116-129 | The deletion loop removes exactly the idle keys |

## Left out

- Packet encryption and framing (`EncodePacket`, `DecodePacket`): an abstract inverse pair that never fails; a failed encode in Send would burn a packet number and a window slot.
- Packet-number wrap-around, forged acknowledgements and more than one writer per stream: fewer than 2^32 packets per session, honest peers and one writer per stream (a Write begins when the one before it has returned) are preconditions or enabling conditions.
- Data for a stream without a receive buffer is recorded and acknowledged but not stored, as in the program; delivery is claimed for streams whose buffer was opened before their first data packet.
- The `recvCh` queue behind deliverFn, which drops when full by design: delivery claims end at deliverFn.
- `Pacer`, real sleeping, and when acknowledgements are triggered: BuildAck and AckSent are separate critical sections, so promptness is not claimed.
- Several clock readings inside one call are one `now`; the clock is non-decreasing where a property needs it; floating-point rates are reals without rounding.
- Interleavings inside the buffer stage of HandleAck (with its test for a closed session), inside loss recovery and inside one RetransmitTick: each of these merges the short critical sections of its loop into one step; the steps of Send, HandleAck, HandleData, the timer and closing interleave freely.
- `SentPacket` pointers shared between the send buffer and its callers: entries are map values, so a reader's stale view of an entry is not captured; `sort.Slice` is an insertion sort.
- Congestion.CongestionControl.AcquireSlot: reports Blocked where the program waits; waiting and waking are the subject of `SlotGate`.
- UdpStreams.UdpStream.Write: ends with WouldBlock where the program waits for the window, and a whole call has one `now`.
- Error classification by message text: dial and stream errors arrive classified (the TLS transport's "auth rejected" text is not "invalid key").
- Text handling: `strings.TrimSpace`, `net.ParseIP` and `IP.String`; addresses arrive trimmed and hosts classified.
- `waitForNetwork`: not reached from the unlimited retry loop. The UDP retry schedule and the fallback dial inside an Auto transport: their outcomes are events of the machine.
- Events of the engine are atomic; races between an atomic counter update and a rebuild within one event are not captured.
- Sockets, handshakes, key derivation, the gVisor stack, routes, NAT table, dialers, statistics, device cache, database, PAC generation, helper and configuration services, the clients' user interfaces and the scripts: input/output, foreign calls or easy properties.
