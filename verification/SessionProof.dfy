/** Every step of a session keeps its invariant: what each step does to each part of the invariant, then one
    lemma per step that puts the parts together. */
module SessionProof {
  import opened Bytes
  import opened AckWire
  import opened AckTracking
  import opened Ordering
  import opened RttEstimation
  import opened BandwidthEstimation
  import opened Congestion
  import opened SendBuffering
  import opened ArqSender
  import opened Reordering
  import opened Session

  // ----- streams -----

  lemma OpenStreams(streams: map<nat, Stream>, sent: map<nat, Packet>, calls: map<nat, Call>, s: nat)
    requires StreamsOk(streams, sent) && CallsOk(calls, streams) && s !in streams
    ensures var streams' := streams[s := NEW_STREAM];
            StreamsOk(streams', sent) && CallsOk(calls, streams')
  {
    NewStreamOk(s, sent);
    hide StreamOk;
    forall c | c in calls ensures UnnumberedOk(calls[c], streams[s := NEW_STREAM]) {
      assert UnnumberedOk(calls[c], streams);
    }
  }

  lemma NewStreamOk(s: nat, sent: map<nat, Packet>)
    ensures StreamOk(s, NEW_STREAM, sent)
  {
  }

  /** Writing only adds bytes that wait to be cut. */
  lemma WriteStreams(streams: map<nat, Stream>, sent: map<nat, Packet>, calls: map<nat, Call>, s: nat, data: bytes)
    requires StreamsOk(streams, sent) && CallsOk(calls, streams) && s in streams && streams[s].todo == []
    ensures var streams' := streams[s := streams[s].(written := streams[s].written + data, todo := data)];
            StreamsOk(streams', sent) && CallsOk(calls, streams')
  {
    assert StreamOk(s, streams[s], sent);
    WriteBytes(streams[s], data);
    hide BytesOk;
  }

  lemma WriteBytes(st: Stream, data: bytes)
    requires BytesOk(st) && st.todo == []
    ensures BytesOk(st.(written := st.written + data, todo := data))
  {
    var st' := st.(written := st.written + data, todo := data);
    forall i | 0 <= i < |st'.chunks| ensures ChunkOk(st', i) {
      assert ChunkOk(st, i) && Offset(st', i) == Offset(st, i);
    }
  }

  lemma FlatAppend(chunks: seq<bytes>, chunk: bytes)
    ensures Flat(chunks + [chunk]) == Flat(chunks) + chunk
  {
    assert (chunks + [chunk])[..|chunks|] == chunks;
  }

  lemma CutChunks(st: Stream, i: nat)
    requires BytesOk(st) && st.todo != [] && i <= |st.chunks|
    ensures ChunkOk(Cut(st), i)
  {
    var st', chunk, n := Cut(st), Take(st.todo, MAX_PAYLOAD), |st.chunks|;
    if i < n {
      assert ChunkOk(st, i) && st'.chunks[..i] == st.chunks[..i];
    } else {
      assert st'.chunks[..n] == st.chunks;
      var at := |st.written| - |st.todo|;
      assert st.written[at..][..|chunk|] == st.written[at..at + |chunk|];
      assert chunk == st.todo[..|chunk|] && st'.chunks[n] == chunk && st'.skipped[n] == st.lost;
    }
  }

  /** Cutting a chunk moves bytes from the waiting tail to the chunk list. */
  lemma CutBytes(st: Stream)
    requires BytesOk(st) && st.todo != []
    ensures BytesOk(Cut(st))
  {
    hide ChunkOk, Flat;
    var st', chunk, n := Cut(st), Take(st.todo, MAX_PAYLOAD), |st.chunks|;
    FlatAppend(st.chunks, chunk);
    forall i | 0 <= i < |st'.chunks| ensures ChunkOk(st', i) {
      CutChunks(st, i);
    }
    assert st.written[|st.written| - |st'.todo|..] == st.todo[|chunk|..];
    forall i | 0 <= i < n ensures st.skipped[i] <= st.lost {
      SkippedAtMostLost(st, i);
    }
  }

  lemma SkippedAtMostLost(st: Stream, i: nat)
    requires i < |st.chunks| && i < |st.skipped| && ChunkOk(st, i)
    ensures st.skipped[i] <= st.lost
  {
  }

  lemma BeginStreams(streams: map<nat, Stream>, sent: map<nat, Packet>, s: nat)
    requires StreamsOk(streams, sent) && s in streams && streams[s].todo != []
    ensures StreamsOk(streams[s := Cut(streams[s])], sent)
  {
    assert StreamOk(s, streams[s], sent);
    CutBytes(streams[s]);
    hide BytesOk;
  }

  lemma BeginCalls(streams: map<nat, Stream>, calls: map<nat, Call>, c: nat, s: nat)
    requires CallsOk(calls, streams) && c !in calls && s in streams && |streams[s].chunks| !in streams[s].nums
    requires !Busy(calls, s)
    ensures var st := streams[s];
            CallsOk(Begun(calls, c, Packet(MSG_STREAM_DATA, 0, s, |st.chunks|, Take(st.todo, MAX_PAYLOAD))),
                    streams[s := Cut(st)])
  {
    var st := streams[s];
    var calls' := Begun(calls, c, Packet(MSG_STREAM_DATA, 0, s, |st.chunks|, Take(st.todo, MAX_PAYLOAD)));
    assert forall d :: DataCall(calls, d, s) ==> Busy(calls, s);
    assert forall d, t :: DataCall(calls', d, t) && d != c ==> DataCall(calls, d, t);
    assert forall d, t :: DataCall(calls, d, t) ==> DataCall(calls', d, t) && t != s;
    forall d | d in calls' && d != c ensures UnnumberedOk(calls'[d], streams[s := Cut(st)]) {
      assert UnnumberedOk(calls[d], streams);
      assert IsData(calls[d].packet) ==> DataCall(calls, d, calls[d].packet.streamID);
    }
  }

  lemma ControlCalls(streams: map<nat, Stream>, calls: map<nat, Call>, c: nat, p: Packet)
    requires CallsOk(calls, streams) && c !in calls && !IsData(p)
    ensures CallsOk(Begun(calls, c, p), streams)
  {
    var calls' := Begun(calls, c, p);
    assert forall d, t :: DataCall(calls', d, t) ==> DataCall(calls, d, t);
    assert forall d, t :: DataCall(calls, d, t) ==> DataCall(calls', d, t) && calls'[d] == calls[d];
  }

  /** A call that changes phase but not its packet, and does not pass the numbering. */
  lemma PhaseCalls(streams: map<nat, Stream>, calls: map<nat, Call>, c: nat, call: Call)
    requires CallsOk(calls, streams) && c in calls && call.packet == calls[c].packet
    requires call.phase in {Waiting, Slotted} <==> calls[c].phase in {Waiting, Slotted}
    ensures CallsOk(calls[c := call], streams)
  {
    var calls' := calls[c := call];
    assert forall d, t :: DataCall(calls', d, t) <==> DataCall(calls, d, t);
  }

  lemma TransmitCalls(streams: map<nat, Stream>, calls: map<nat, Call>, c: nat)
    requires CallsOk(calls, streams) && InPhase(calls, c, Stored)
    ensures CallsOk(calls - {c}, streams)
  {
    var calls' := calls - {c};
    assert forall d, t :: DataCall(calls', d, t) ==> DataCall(calls, d, t);
    assert forall d, t :: DataCall(calls, d, t) && d != c ==> DataCall(calls', d, t) && calls'[d] == calls[d];
  }

  lemma AbandonCalls(streams: map<nat, Stream>, calls: map<nat, Call>, c: nat)
    requires CallsOk(calls, streams) && c in calls && calls[c].phase in {Waiting, Stored}
    requires IsData(calls[c].packet) ==> calls[c].packet.streamID in streams
    ensures var p := calls[c].packet;
            CallsOk(calls - {c}, AbandonedStreams(streams, p))
  {
    var calls', p := calls - {c}, calls[c].packet;
    assert forall d, t :: DataCall(calls', d, t) ==> DataCall(calls, d, t);
    assert forall d, t :: DataCall(calls, d, t) && d != c ==> DataCall(calls', d, t) && calls'[d] == calls[d];
    assert !IsData(p) ==> forall t :: !DataCall(calls, c, t);
  }

  lemma GivenUpStreams(streams: map<nat, Stream>, sent: map<nat, Packet>, s: nat)
    requires StreamsOk(streams, sent) && s in streams
    ensures StreamsOk(streams[s := GivenUp(streams[s])], sent)
  {
    assert StreamOk(s, streams[s], sent);
    GivenUpBytes(streams[s]);
    hide BytesOk;
  }

  lemma GivenUpBytes(st: Stream)
    requires BytesOk(st)
    ensures BytesOk(GivenUp(st))
  {
    var st' := GivenUp(st);
    forall i | 0 <= i < |st'.chunks| ensures ChunkOk(st', i) {
      assert ChunkOk(st, i) && Offset(st', i) == Offset(st, i);
    }
  }

  // ----- chunks without a number -----

  /** Calls may come, change phase before their numbering, or go once numbered; the session may close. */
  lemma CallHoles(streams: map<nat, Stream>, calls: map<nat, Call>, closed: bool, acknowledged: set<nat>,
                  calls': map<nat, Call>, closed': bool)
    requires HolesOk(streams, calls, closed, acknowledged) && (closed ==> closed')
    requires closed' || forall c, s, i :: Carries(calls, c, s, i) ==> Carries(calls', c, s, i)
    ensures HolesOk(streams, calls', closed', acknowledged)
  {
    forall s: nat, i: nat | s in streams && IsHole(streams[s], i) ensures HoleOk(calls', closed', s, i) {
      assert HoleOk(calls, closed, s, i);
    }
  }

  /** A stream may change in its bytes alone. */
  lemma ByteHoles(streams: map<nat, Stream>, calls: map<nat, Call>, closed: bool, acknowledged: set<nat>, s: nat,
                  st: Stream)
    requires HolesOk(streams, calls, closed, acknowledged)
    requires if s in streams then st.chunks == streams[s].chunks && st.nums == streams[s].nums else st == NEW_STREAM
    ensures HolesOk(streams[s := st], calls, closed, acknowledged)
  {
    hide HoleOk;
    assert forall i: nat :: IsHole(st, i) ==> s in streams && IsHole(streams[s], i);
  }

  lemma BeginHoles(streams: map<nat, Stream>, calls: map<nat, Call>, closed: bool, acknowledged: set<nat>, c: nat,
                   s: nat)
    requires HolesOk(streams, calls, closed, acknowledged) && c !in calls && s in streams && !Busy(calls, s)
    requires forall i :: i in streams[s].nums ==> i < |streams[s].chunks|
    ensures var st := streams[s];
            HolesOk(streams[s := Cut(st)],
                    Begun(calls, c, Packet(MSG_STREAM_DATA, 0, s, |st.chunks|, Take(st.todo, MAX_PAYLOAD))),
                    closed, acknowledged)
  {
    var st := streams[s];
    var calls' := Begun(calls, c, Packet(MSG_STREAM_DATA, 0, s, |st.chunks|, Take(st.todo, MAX_PAYLOAD)));
    assert Carries(calls', c, s, |st.chunks|);
    forall t: nat, i: nat | t in streams && IsHole(streams[t], i) ensures HoleOk(calls', closed, t, i) {
      assert HoleOk(calls, closed, t, i);
      assert forall d :: Carries(calls, d, t, i) ==> Carries(calls', d, t, i);
    }
    assert forall i: nat :: IsHole(Cut(st), i) ==> i == |st.chunks| || IsHole(st, i);
  }

  /** The chunk of the numbered call was the last of its stream, and every earlier hole is there for good. */
  lemma NumberHoles(streams: map<nat, Stream>, calls: map<nat, Call>, closed: bool, acknowledged: set<nat>,
                    c: nat, n: nat, snap: Snapshot)
    requires HolesOk(streams, calls, closed, acknowledged) && CallsOk(calls, streams)
    requires InPhase(calls, c, Slotted) && n !in acknowledged
    ensures var p := calls[c].packet.(pktNum := n);
            HolesOk(NumberedStreams(streams, p, n), calls[c := Call(Numbered, p, snap)], closed, acknowledged)
  {
    var p := calls[c].packet.(pktNum := n);
    var streams', calls' := NumberedStreams(streams, p, n), calls[c := Call(Numbered, p, snap)];
    assert UnnumberedOk(calls[c], streams);
    forall t: nat, i: nat | t in streams' && IsHole(streams'[t], i)
      ensures IsHole(streams[t], i) && HoleOk(calls', closed, t, i)
      ensures IsData(p) && t == p.streamID ==> i < p.seqNum && closed
    {
      assert HoleOk(calls, closed, t, i);
      if !closed {
        var d :| Carries(calls, d, t, i);
        assert IsData(p) ==> DataCall(calls, c, p.streamID);
        assert d != c && Carries(calls', d, t, i);
      }
    }
  }

  lemma TakeAckHoles(streams: map<nat, Stream>, calls: map<nat, Call>, acknowledged: set<nat>, more: set<nat>)
    requires HolesOk(streams, calls, false, acknowledged)
    ensures HolesOk(streams, calls, false, acknowledged + more)
  {
    hide HoleOk;
  }

  // ----- numbering -----

  lemma NumberBytes(st: Stream, nums: map<nat, nat>)
    requires BytesOk(st)
    ensures BytesOk(st.(nums := nums))
  {
    var st' := st.(nums := nums);
    forall i | 0 <= i < |st'.chunks| ensures ChunkOk(st', i) {
      assert ChunkOk(st, i) && Offset(st', i) == Offset(st, i);
    }
  }

  lemma NumberStream(s: nat, st: Stream, sent: map<nat, Packet>, p: Packet, n: nat)
    requires StreamOk(s, st, sent) && forall k :: k in sent ==> k < n
    requires p.seqNum + 1 == |st.chunks| && p.seqNum !in st.nums
    requires p == Packet(MSG_STREAM_DATA, n, s, p.seqNum, st.chunks[p.seqNum])
    ensures StreamOk(s, st.(nums := st.nums[p.seqNum := n]), sent[n := p])
  {
    NumberBytes(st, st.nums[p.seqNum := n]);
    hide BytesOk;
  }

  lemma GrowSent(s: nat, st: Stream, sent: map<nat, Packet>, n: nat, p: Packet)
    requires StreamOk(s, st, sent) && n !in sent
    ensures StreamOk(s, st, sent[n := p])
  {
    hide BytesOk;
  }

  lemma NumberStreams(streams: map<nat, Stream>, sent: map<nat, Packet>, calls: map<nat, Call>, c: nat, n: nat)
    requires StreamsOk(streams, sent) && CallsOk(calls, streams) && InPhase(calls, c, Slotted)
    requires forall k :: k in sent ==> k < n
    ensures var p := calls[c].packet.(pktNum := n);
            StreamsOk(NumberedStreams(streams, p, n), sent[n := p])
  {
    hide StreamOk;
    var p := calls[c].packet.(pktNum := n);
    assert UnnumberedOk(calls[c], streams);
    forall s | s in streams ensures StreamOk(s, streams[s], sent[n := p]) {
      GrowSent(s, streams[s], sent, n, p);
    }
    if IsData(p) {
      NumberStream(p.streamID, streams[p.streamID], sent, p, n);
    }
  }

  lemma NumberCalls(streams: map<nat, Stream>, calls: map<nat, Call>, c: nat, n: nat, snap: Snapshot)
    requires CallsOk(calls, streams) && InPhase(calls, c, Slotted)
    ensures var p := calls[c].packet.(pktNum := n);
            CallsOk(calls[c := Call(Numbered, p, snap)], NumberedStreams(streams, p, n))
  {
    var p := calls[c].packet.(pktNum := n);
    var calls' := calls[c := Call(Numbered, p, snap)];
    assert UnnumberedOk(calls[c], streams);
    assert forall d, t :: DataCall(calls', d, t) <==> DataCall(calls, d, t);
    assert IsData(p) ==> DataCall(calls, c, p.streamID);
    forall d | d in calls' && d != c && IsData(calls'[d].packet)
      ensures calls'[d].packet.streamID != p.streamID || !IsData(p)
    {
      assert DataCall(calls, d, calls[d].packet.streamID);
    }
    assert !IsData(p) ==> forall t :: !DataCall(calls, c, t);
  }

  lemma NumberNumbers(next: nat, sent: map<nat, Packet>, packets: Packets, highCum: nat, calls: map<nat, Call>,
                      c: nat, snap: Snapshot)
    requires NumbersOk(next, sent, packets, highCum, calls) && InPhase(calls, c, Slotted) && next + 1 < UINT32_LIMIT
    requires highCum <= next
    ensures var p := calls[c].packet.(pktNum := next + 1);
            NumbersOk(next + 1, sent[next + 1 := p], packets, highCum, calls[c := Call(Numbered, p, snap)])
  {
    var n := next + 1;
    var p := calls[c].packet.(pktNum := n);
    var sent', calls' := sent[n := p], calls[c := Call(Numbered, p, snap)];
    assert forall d :: InPhase(calls', d, Stored) <==> InPhase(calls, d, Stored);
    assert forall d :: InPhase(calls', d, Numbered) <==> d == c || InPhase(calls, d, Numbered);
    assert forall k :: k in sent ==> k < n;
    forall k | k in sent' && !IsStored(k, packets, highCum) ensures exists d :: HoldsNumber(calls', d, k) {
      if k == n {
        assert HoldsNumber(calls', c, n);
      } else {
        var d :| HoldsNumber(calls, d, k);
        assert HoldsNumber(calls', d, k);
      }
    }
  }

  /** Calls outside the Numbered and Stored phases do not matter to the numbering. */
  lemma PhaseNumbers(next: nat, sent: map<nat, Packet>, packets: Packets, highCum: nat,
                     calls: map<nat, Call>, calls': map<nat, Call>)
    requires NumbersOk(next, sent, packets, highCum, calls)
    requires forall c :: c in calls' && calls'[c].phase in {Numbered, Stored} ==> c in calls && calls'[c] == calls[c]
    requires forall c :: InPhase(calls, c, Numbered) ==> c in calls' && calls'[c] == calls[c]
    ensures NumbersOk(next, sent, packets, highCum, calls')
  {
    forall k | k in sent && !IsStored(k, packets, highCum) ensures exists d :: HoldsNumber(calls', d, k) {
      var d :| HoldsNumber(calls, d, k);
      assert HoldsNumber(calls', d, k);
    }
    assert forall c :: InPhase(calls', c, Stored) ==> InPhase(calls, c, Stored);
    assert forall c :: InPhase(calls', c, Numbered) ==> InPhase(calls, c, Numbered);
  }

  lemma StoreNumbers(next: nat, sent: map<nat, Packet>, packets: Packets, highCum: nat, calls: map<nat, Call>,
                     c: nat, sp: SentPacket)
    requires NumbersOk(next, sent, packets, highCum, calls) && InPhase(calls, c, Numbered)
    requires sp.packet == calls[c].packet
    ensures NumbersOk(next, sent, packets[calls[c].packet.pktNum := sp], highCum,
                      calls[c := calls[c].(phase := Stored)])
  {
    var n := calls[c].packet.pktNum;
    var packets', calls' := packets[n := sp], calls[c := calls[c].(phase := Stored)];
    forall k | k in sent && !IsStored(k, packets', highCum) ensures exists d :: HoldsNumber(calls', d, k) {
      var d :| HoldsNumber(calls, d, k);
      assert HoldsNumber(calls', d, k);
    }
    forall d | InPhase(calls', d, Numbered) ensures !IsStored(calls'[d].packet.pktNum, packets', highCum) {
      assert InPhase(calls, d, Numbered) && calls[d].packet.pktNum != n;
    }
    assert forall d :: InPhase(calls', d, Stored) && d != c ==> InPhase(calls, d, Stored);
  }

  // ----- the network and the receiver's log: what stays true as the world grows -----

  /** Storing, numbering and acknowledging never un-store a packet and never re-number one. */
  lemma GrowNet(net: Network, sent: map<nat, Packet>, packets: Packets, highCum: nat, log: AckLog, seen: set<nat>,
                sent': map<nat, Packet>, packets': Packets, highCum': nat)
    requires NetOk(net, sent, packets, highCum, log, seen)
    requires forall k :: k in sent ==> k in sent' && sent'[k] == sent[k]
    requires forall k :: k in sent && IsStored(k, packets, highCum) ==> IsStored(k, packets', highCum')
    ensures NetOk(net, sent', packets', highCum', log, seen)
  {
  }

  lemma GrowLog(log: AckLog, sent: map<nat, Packet>, packets: Packets, highCum: nat, seen: set<nat>,
                sent': map<nat, Packet>, packets': Packets, highCum': nat)
    requires LogOk(log, sent, packets, highCum, seen)
    requires forall k :: k in sent ==> k in sent' && sent'[k] == sent[k]
    requires forall k :: k in sent && IsStored(k, packets, highCum) ==> IsStored(k, packets', highCum')
    requires highCum' <= log.cumAck
    ensures LogOk(log, sent', packets', highCum', seen)
  {
  }

  lemma TransmitNet(net: Network, sent: map<nat, Packet>, packets: Packets, highCum: nat, log: AckLog, seen: set<nat>,
                    ps: set<Packet>)
    requires NetOk(net, sent, packets, highCum, log, seen)
    requires forall p :: p in ps ==> p.pktNum in sent && sent[p.pktNum] == p && IsStored(p.pktNum, packets, highCum)
    ensures NetOk(net.(data := net.data + ps), sent, packets, highCum, log, seen)
  {
  }

  lemma ReceiveNet(net: Network, sent: map<nat, Packet>, packets: Packets, highCum: nat, log: AckLog, seen: set<nat>,
                   k: nat)
    requires NetOk(net, sent, packets, highCum, log, seen)
    ensures NetOk(net, sent, packets, highCum, Record(log, k), seen + {k})
  {
  }

  lemma ReceiveLog(log: AckLog, sent: map<nat, Packet>, packets: Packets, highCum: nat, seen: set<nat>, k: nat)
    requires LogOk(log, sent, packets, highCum, seen) && k in sent && IsStored(k, packets, highCum) && k > 0
    ensures LogOk(Record(log, k), sent, packets, highCum, seen + {k})
  {
    RecordTracks(log, seen, k);
  }

  /** An acknowledgement built from the log is sound when it is built, hence forever. */
  lemma SendAckNet(net: Network, sent: map<nat, Packet>, packets: Packets, highCum: nat, log: AckLog, seen: set<nat>,
                   a: Ack)
    requires NetOk(net, sent, packets, highCum, log, seen) && Tracks(log, seen) && Reports(a, log)
    ensures NetOk(net.(acks := net.acks + {Encoded(a)}), sent, packets, highCum, Sent(log), seen)
  {
    DecodeInvertsEncode(a, []);
    assert Encoded(a) + [] == Encoded(a);
    forall k | a.IsReceived(k) ensures k in seen {
      assert k in a.Selected();
    }
  }

  // ----- acknowledgements -----

  lemma TakeAckStored(packets: Packets, highCum: nat, a: Ack, k: nat)
    requires a.Valid() && IsStored(k, packets, highCum)
    ensures IsStored(k, AckedBy(packets, a), Max(highCum, a.cumAck))
  {
  }

  lemma TakeAckNumbers(next: nat, sent: map<nat, Packet>, packets: Packets, highCum: nat, calls: map<nat, Call>,
                       log: AckLog, seen: set<nat>, a: Ack)
    requires NumbersOk(next, sent, packets, highCum, calls) && LogOk(log, sent, packets, highCum, seen)
    requires AckSound(a, log, seen)
    ensures NumbersOk(next, sent, AckedBy(packets, a), Max(highCum, a.cumAck), calls)
  {
    var packets', highCum' := AckedBy(packets, a), Max(highCum, a.cumAck);
    forall k | k in sent && !IsStored(k, packets', highCum') ensures exists d :: HoldsNumber(calls, d, k) {
      assert !IsStored(k, packets, highCum);
    }
    forall c | InPhase(calls, c, Numbered) ensures !IsStored(calls[c].packet.pktNum, packets', highCum') {
      var k := calls[c].packet.pktNum;
      assert k <= a.cumAck ==> k in seen;
    }
    forall c | InPhase(calls, c, Stored) ensures IsStored(calls[c].packet.pktNum, packets', highCum') {
      TakeAckStored(packets, highCum, a, calls[c].packet.pktNum);
    }
  }

  lemma TakeAckAcked(packets: Packets, seen: set<nat>, highCum: nat, log: AckLog, a: Ack)
    requires AckedOk(packets, seen, highCum) && AckSound(a, log, seen)
    ensures AckedOk(AckedBy(packets, a), seen, Max(highCum, a.cumAck))
  {
  }

  lemma TakeAckAcknowledged(next: nat, calls: map<nat, Call>, acknowledged: set<nat>, sent: map<nat, Packet>,
                            packets: Packets, highCum: nat, log: AckLog, seen: set<nat>, a: Ack)
    requires AcknowledgedOk(acknowledged, sent, packets, highCum) && NumbersOk(next, sent, packets, highCum, calls)
    requires LogOk(log, sent, packets, highCum, seen) && AckSound(a, log, seen)
    ensures AcknowledgedOk(acknowledged + NewlyAcked(packets, a), sent, AckedBy(packets, a), Max(highCum, a.cumAck))
    ensures acknowledged !! NewlyAcked(packets, a)
  {
    var packets', highCum' := AckedBy(packets, a), Max(highCum, a.cumAck);
    forall k | k in sent
      ensures k in acknowledged + NewlyAcked(packets, a) <==> k <= highCum' || (k in packets' && packets'[k].acked)
    {
      if k <= a.cumAck && k > highCum {
        assert k in seen;
        assert k in packets;
      }
    }
  }

  /** Retransmission changes only timing, which no part of the invariant looks at. */
  lemma ResendParts(w: World, packets': Packets)
    requires SameButTiming(w.snd.packets, packets')
    requires LogOk(w.rcv.log, w.hist.sent, w.snd.packets, w.hist.highCum, w.hist.seen)
    requires NumbersOk(w.snd.next, w.hist.sent, w.snd.packets, w.hist.highCum, w.calls)
    requires AckedOk(w.snd.packets, w.hist.seen, w.hist.highCum)
    requires AcknowledgedOk(w.hist.acknowledged, w.hist.sent, w.snd.packets, w.hist.highCum)
    ensures LogOk(w.rcv.log, w.hist.sent, packets', w.hist.highCum, w.hist.seen)
    ensures NumbersOk(w.snd.next, w.hist.sent, packets', w.hist.highCum, w.calls)
    ensures AckedOk(packets', w.hist.seen, w.hist.highCum)
    ensures AcknowledgedOk(w.hist.acknowledged, w.hist.sent, packets', w.hist.highCum)
  {
    GrowLog(w.rcv.log, w.hist.sent, w.snd.packets, w.hist.highCum, w.hist.seen, w.hist.sent, packets', w.hist.highCum);
    ResendNumbers(w.snd.next, w.hist.sent, w.snd.packets, w.hist.highCum, w.calls, packets');
  }

  lemma ResendNumbers(next: nat, sent: map<nat, Packet>, packets: Packets, highCum: nat, calls: map<nat, Call>,
                      packets': Packets)
    requires NumbersOk(next, sent, packets, highCum, calls) && SameButTiming(packets, packets')
    ensures NumbersOk(next, sent, packets', highCum, calls)
  {
    assert forall k :: IsStored(k, packets', highCum) <==> IsStored(k, packets, highCum);
  }

  lemma ResendNet(w: World, packets': Packets, batch: seq<nat>)
    requires SameButTiming(w.snd.packets, packets')
    requires NetOk(w.net, w.hist.sent, w.snd.packets, w.hist.highCum, w.rcv.log, w.hist.seen)
    requires NumbersOk(w.snd.next, w.hist.sent, w.snd.packets, w.hist.highCum, w.calls)
    ensures NetOk(w.net.(data := w.net.data + Datagrams(w.snd.packets, batch)), w.hist.sent, packets',
                  w.hist.highCum, w.rcv.log, w.hist.seen)
  {
    GrowNet(w.net, w.hist.sent, w.snd.packets, w.hist.highCum, w.rcv.log, w.hist.seen,
            w.hist.sent, packets', w.hist.highCum);
    TransmitNet(w.net, w.hist.sent, packets', w.hist.highCum, w.rcv.log, w.hist.seen, Datagrams(w.snd.packets, batch));
  }

  // ----- slots -----

  lemma AcquireCounts(w: Window, unacked: set<nat>, holders: set<nat>, owed: nat, slots: nat, acknowledged: set<nat>,
                      c: nat)
    requires CountsOk(w, unacked, holders, owed, slots, acknowledged) && CanAcquire(w) && c !in holders
    ensures CountsOk(Acquired(w), unacked, holders + {c}, owed, slots + 1, acknowledged)
  {
  }

  lemma StoreCounts(w: Window, unacked: set<nat>, holders: set<nat>, owed: nat, slots: nat, acknowledged: set<nat>,
                    c: nat, k: nat)
    requires CountsOk(w, unacked, holders, owed, slots, acknowledged) && c in holders && k !in unacked
    ensures CountsOk(w, unacked + {k}, holders - {c}, owed, slots, acknowledged)
  {
  }

  lemma TakeAckCounts(w: Window, packets: Packets, holders: set<nat>, slots: nat, acknowledged: set<nat>, a: Ack)
    requires CountsOk(w, Unacked(packets), holders, 0, slots, acknowledged) && a.Valid()
    requires acknowledged !! NewlyAcked(packets, a)
    ensures CountsOk(w, Unacked(AckedBy(packets, a)), holders, |NewlyAcked(packets, a)|, slots,
                     acknowledged + NewlyAcked(packets, a))
  {
    AckedByUnacked(packets, a);
  }

  /** The estimate as OnAck finds it: the delivered bytes are counted and at most one rate is sampled. */
  lemma EstimateCounts(b: Bandwidth, c: Credit, now: int)
    requires Consistent(b)
    ensures Consistent(Estimated(b, c, now))
    ensures Estimated(b, c, now).delivered == b.delivered + c.acked * PACKET_MSS
  {
    hide Peak, AllPositive, Rate;
    assert Consistent(Delivered(b, c.acked * PACKET_MSS, now));
  }

  lemma CreditBytes(w: Window, c: Credit, now: int)
    requires Consistent(w.bwe)
    ensures Consistent(Credited(w, c, now).bwe)
    ensures Credited(w, c, now).bwe.delivered == w.bwe.delivered + c.acked * PACKET_MSS
    ensures Sized(w) ==> Sized(Credited(w, c, now)) && Credited(w, c, now).inFlight == Max(w.inFlight - c.acked, 0)
  {
    hide Estimated, AfterAck, Consistent;
    EstimateCounts(w.bwe, c, now);
    if c.acked > 0 {
      AfterAckKeepsEstimate(w.(bwe := Estimated(w.bwe, c, now)), c.acked, now);
      if Sized(w) {
        AfterAckSized(w.(bwe := Estimated(w.bwe, c, now)), c.acked, now);
      }
    }
  }

  lemma AfterAckKeepsEstimate(w: Window, n: nat, now: int)
    ensures AfterAck(w, n, now).bwe == w.bwe
  {
  }

  /** OnAck returns exactly the owed slots: its clamp at zero never fires. */
  lemma CreditCounts(w: Window, unacked: set<nat>, holders: set<nat>, slots: nat, acknowledged: set<nat>, c: Credit,
                     now: int)
    requires CountsOk(w, unacked, holders, c.acked, slots, acknowledged)
    ensures c.acked <= w.inFlight
    ensures CountsOk(Credited(w, c, now), unacked, holders, 0, slots, acknowledged)
  {
    CreditBytes(w, c, now);
    hide Credited;
    var a, o := |acknowledged|, c.acked;
    assert PACKET_MSS * (a - o) + o * PACKET_MSS == PACKET_MSS * a;
  }

  // ----- the receiver -----

  lemma FreshBuffer(seen: set<nat>, inserting: Option<Packet>)
    ensures BufferOk(NewReorder(RECV_BUF_SIZE), {}, NEW_STREAM, seen, inserting)
  {
    hide Flush, Inserted;
  }

  lemma OpenReceive(bufs: map<nat, Reorder>, inserting: Option<Packet>, streams: map<nat, Stream>,
                    seen: set<nat>, got: map<nat, set<nat>>, removed: map<nat, Reorder>, s: nat)
    requires ReceiveOk(bufs, inserting, streams, seen, got, removed) && s !in streams
    ensures ReceiveOk(bufs[s := NewReorder(RECV_BUF_SIZE)], inserting,
                      streams[s := NEW_STREAM], seen, got[s := {}], removed)
  {
    hide BufferOk;
    FreshBuffer(seen, inserting);
  }

  /** Numbers may be added as long as the new ones were never recorded. */
  ghost predicate MoreNumbers(nums: map<nat, nat>, nums': map<nat, nat>, seen: set<nat>) {
    && (forall i :: i in nums ==> i in nums' && nums'[i] == nums[i])
    && (forall i :: i in nums' && i !in nums ==> nums'[i] !in seen)
  }

  lemma GrowBuffer(r: Reorder, got: set<nat>, st: Stream, st': Stream, seen: set<nat>, inserting: Option<Packet>)
    requires BufferOk(r, got, st, seen, inserting) && st.chunks <= st'.chunks && MoreNumbers(st.nums, st'.nums, seen)
    ensures BufferOk(r, got, st', seen, inserting)
  {
    RepresentsLonger(r, st.chunks, st'.chunks, got);
    hide Represents;
  }

  lemma DeliveredSoFar(r: Reorder, got: set<nat>, st: Stream, seen: set<nat>, inserting: Option<Packet>)
    requires BufferOk(r, got, st, seen, inserting)
    ensures r.expected <= |st.chunks| && r.delivered == st.chunks[..r.expected]
  {
  }

  /** Streams may grow: more chunks, and more numbers as long as the new ones were never recorded. */
  lemma GrowReceive(bufs: map<nat, Reorder>, inserting: Option<Packet>, streams: map<nat, Stream>,
                    seen: set<nat>, got: map<nat, set<nat>>, removed: map<nat, Reorder>, s: nat, st: Stream)
    requires ReceiveOk(bufs, inserting, streams, seen, got, removed) && s in streams
    requires streams[s].chunks <= st.chunks && MoreNumbers(streams[s].nums, st.nums, seen)
    ensures ReceiveOk(bufs, inserting, streams[s := st], seen, got, removed)
  {
    hide BufferOk;
    if s in bufs {
      GrowBuffer(bufs[s], got[s], streams[s], st, seen, inserting);
    }
  }

  lemma ReceiveBuffer(r: Reorder, got: set<nat>, s: nat, st: Stream, sent: map<nat, Packet>, seen: set<nat>, p: Packet)
    requires BufferOk(r, got, st, seen, None) && StreamOk(s, st, sent)
    requires p.pktNum in sent && sent[p.pktNum] == p
    ensures BufferOk(r, got, st, seen + {p.pktNum}, if IsData(p) then Some(p) else None)
  {
    hide Represents, BytesOk;
  }

  lemma ReceiveReceive(bufs: map<nat, Reorder>, streams: map<nat, Stream>, sent: map<nat, Packet>,
                       seen: set<nat>, got: map<nat, set<nat>>, removed: map<nat, Reorder>, p: Packet)
    requires ReceiveOk(bufs, None, streams, seen, got, removed) && StreamsOk(streams, sent)
    requires p.pktNum in sent && sent[p.pktNum] == p
    ensures ReceiveOk(bufs, if IsData(p) then Some(p) else None, streams, seen + {p.pktNum}, got, removed)
  {
    hide BufferOk, StreamOk;
    forall s | s in bufs
      ensures BufferOk(bufs[s], got[s], streams[s], seen + {p.pktNum}, if IsData(p) then Some(p) else None)
    {
      ReceiveBuffer(bufs[s], got[s], s, streams[s], sent, seen, p);
    }
  }

  lemma RemoveReceive(bufs: map<nat, Reorder>, inserting: Option<Packet>, streams: map<nat, Stream>,
                      seen: set<nat>, got: map<nat, set<nat>>, removed: map<nat, Reorder>, s: nat)
    requires ReceiveOk(bufs, inserting, streams, seen, got, removed) && s in bufs
    ensures ReceiveOk(bufs - {s}, inserting, streams, seen, got, removed[s := bufs[s]])
  {
    hide BufferOk;
    DeliveredSoFar(bufs[s], got[s], streams[s], seen, inserting);
    assert (bufs - {s}).Keys == bufs.Keys - {s};
    assert removed[s := bufs[s]].Keys == removed.Keys + {s};
  }

  // ----- the receive buffer is never full -----

  /** Recorded numbers above an unrecorded one are still in the send buffer; the acknowledged ones lie within 255. */
  lemma AckedAboveGap(w: World, p: nat, above: set<nat>)
    requires LogOk(w.rcv.log, w.hist.sent, w.snd.packets, w.hist.highCum, w.hist.seen)
    requires AckedOk(w.snd.packets, w.hist.seen, w.hist.highCum)
    requires p > 0 && p !in w.hist.seen && forall k :: k in above ==> k in w.hist.seen && k > p
    ensures w.hist.highCum < p
    ensures forall k :: k in above ==> k in w.snd.packets && (w.snd.packets[k].acked ==> k <= p + 255)
  {
    assert w.rcv.log.cumAck < p;
  }

  /** An unrecorded number occupies a slot of its own, so at most 511 others are un-acknowledged. */
  lemma InFlightBeyond(w: World, p: nat, inFlight: set<nat>)
    requires NumbersOk(w.snd.next, w.hist.sent, w.snd.packets, w.hist.highCum, w.calls)
    requires AckedOk(w.snd.packets, w.hist.seen, w.hist.highCum)
    requires CountsOk(w.snd.window, Unacked(w.snd.packets), Holders(w.calls), Owed(w.handling), w.hist.slots,
                      w.hist.acknowledged)
    requires p in w.hist.sent && p !in w.hist.seen && w.hist.highCum < p
    requires inFlight <= Unacked(w.snd.packets) && p !in inFlight
    ensures |inFlight| < MAX_CWND
  {
    var m := w.snd.packets;
    if p in m {
      assert p in Unacked(m);
      SubsetSize(inFlight + {p}, Unacked(m));
    } else {
      assert !IsStored(p, m, w.hist.highCum);
      var c: nat :| HoldsNumber(w.calls, c, p);
      assert c in Holders(w.calls);
      SubsetSize({c}, Holders(w.calls));
      SubsetSize(inFlight, Unacked(m));
    }
  }

  /** While a number p below some recorded numbers is itself not recorded, fewer than 767 numbers above p are:
      those the sender still counts as in flight, at most 511 because p also takes a slot, and those selectively
      acknowledged, at most 255 because no acknowledgement reached past p. */
  lemma AboveAGap(w: World, p: nat, above: set<nat>)
    requires LogOk(w.rcv.log, w.hist.sent, w.snd.packets, w.hist.highCum, w.hist.seen)
    requires NumbersOk(w.snd.next, w.hist.sent, w.snd.packets, w.hist.highCum, w.calls)
    requires AckedOk(w.snd.packets, w.hist.seen, w.hist.highCum)
    requires CountsOk(w.snd.window, Unacked(w.snd.packets), Holders(w.calls), Owed(w.handling), w.hist.slots,
                      w.hist.acknowledged)
    requires p > 0 && p in w.hist.sent && p !in w.hist.seen
    requires forall k :: k in above ==> k in w.hist.seen && k > p
    ensures |above| <= MAX_HELD
  {
    hide LogOk, NumbersOk, AckedOk, CountsOk;
    var m := w.snd.packets;
    var acked := set k | k in above && k in m && m[k].acked;
    var inFlight := above - acked;
    assert acked + inFlight == above;
    AckedAboveGap(w, p, above);
    BoundedSize(acked, p, p + 255);
    InFlightBeyond(w, p, inFlight);
  }

  /** The packet HandleData is about to insert is chunk seqNum of its stream. */
  lemma InsertingChunk(w: World)
    requires w.rcv.inserting.Some? && InsertingOk(w.rcv.inserting, w.net.data, w.hist.seen)
    requires NetOk(w.net, w.hist.sent, w.snd.packets, w.hist.highCum, w.rcv.log, w.hist.seen)
    requires StreamsOk(w.streams, w.hist.sent)
    ensures var p := w.rcv.inserting.value;
            && p.pktNum in w.hist.sent && w.hist.sent[p.pktNum] == p && p.pktNum in w.hist.seen
            && p.streamID in w.streams
            && var st := w.streams[p.streamID];
               && StreamOk(p.streamID, st, w.hist.sent)
               && p.seqNum < |st.chunks| && p.seqNum in st.nums && st.nums[p.seqNum] == p.pktNum
               && p.data == st.chunks[p.seqNum] && Rising(st.nums)
  {
    hide AckSound, BytesOk, Rising;
    var p := w.rcv.inserting.value;
    assert StreamOk(p.streamID, w.streams[p.streamID], w.hist.sent);
  }

  /** The first missing position of a stream with payloads held or arriving ahead of it was never recorded, and
      the packet numbers of those payloads are all above its own, if it has one. */
  lemma HeldAheadOfGap(s: nat, r: Reorder, got: set<nat>, st: Stream, sent: map<nat, Packet>, seen: set<nat>, p: Packet)
    requires BufferOk(r, got, st, seen, Some(p)) && StreamOk(s, st, sent)
    requires p.seqNum in st.nums && st.nums[p.seqNum] == p.pktNum && p.pktNum in seen
    requires p.seqNum !in got && p.seqNum != r.expected
    ensures r.expected < p.seqNum < |st.chunks| && p.seqNum !in r.buffer
    ensures r.expected in st.nums ==> st.nums[r.expected] in sent && st.nums[r.expected] !in seen
    ensures forall i :: i in r.buffer.Keys + {p.seqNum} ==>
              i in st.nums && st.nums[i] in seen && r.expected < i &&
              (r.expected in st.nums ==> st.nums[i] > st.nums[r.expected])
  {
    hide BytesOk;
  }

  lemma PositiveNumber(w: World, k: nat)
    requires NumbersOk(w.snd.next, w.hist.sent, w.snd.packets, w.hist.highCum, w.calls) && k in w.hist.sent
    ensures k > 0
  {
  }

  /** Recorded numbers that no acknowledgement has reached all occupy a slot. */
  lemma AboveAHole(w: World, above: set<nat>)
    requires LogOk(w.rcv.log, w.hist.sent, w.snd.packets, w.hist.highCum, w.hist.seen)
    requires AcknowledgedOk(w.hist.acknowledged, w.hist.sent, w.snd.packets, w.hist.highCum)
    requires CountsOk(w.snd.window, Unacked(w.snd.packets), Holders(w.calls), Owed(w.handling), w.hist.slots,
                      w.hist.acknowledged)
    requires forall k :: k in above ==> k in w.hist.seen && k !in w.hist.acknowledged
    ensures |above| <= MAX_CWND
  {
    assert above <= Unacked(w.snd.packets);
    SubsetSize(above, Unacked(w.snd.packets));
  }

  /** At the moment HandleData inserts a payload ahead of the gap, at most 765 others are held. */
  lemma RoomToInsert(w: World)
    requires Inv(w) && w.rcv.inserting.Some?
    requires var p := w.rcv.inserting.value;
             p.streamID in w.rcv.bufs && p.seqNum !in w.hist.got[p.streamID] &&
             p.seqNum != w.rcv.bufs[p.streamID].expected
    ensures |w.rcv.bufs[w.rcv.inserting.value.streamID].buffer| < MAX_HELD
  {
    hide NetOk, LogOk, NumbersOk, AckedOk, AcknowledgedOk, CountsOk, StreamsOk, CallsOk, HolesOk, InsertingOk;
    hide BufferOk, StreamOk;
    InsertingChunk(w);
    var p := w.rcv.inserting.value;
    var s := p.streamID;
    var r, st := w.rcv.bufs[s], w.streams[s];
    HeldAheadOfGap(s, r, w.hist.got[s], st, w.hist.sent, w.hist.seen, p);
    var ahead := r.buffer.Keys + {p.seqNum};
    var above := set i | i in ahead :: st.nums[i];
    if r.expected in st.nums {
      PositiveNumber(w, st.nums[r.expected]);
      AboveAGap(w, st.nums[r.expected], above);
    } else {
      BeyondAHole(w, s, r.expected, ahead);
      AboveAHole(w, above);
    }
    InjectionSize(ahead, st.nums, above);
  }

  lemma BeyondAHole(w: World, s: nat, i: nat, ahead: set<nat>)
    requires HolesOk(w.streams, w.calls, w.snd.closed, w.hist.acknowledged)
    requires s in w.streams && IsHole(w.streams[s], i) && forall j :: j in ahead ==> j in w.streams[s].nums && i < j
    ensures forall j :: j in ahead ==> w.streams[s].nums[j] !in w.hist.acknowledged
  {
    hide HoleOk;
  }

  lemma InsertReceive(w: World)
    requires Inv(w) && w.rcv.inserting.Some?
    ensures var w' := InsertStep(w);
            ReceiveOk(w'.rcv.bufs, None, w'.streams, w'.hist.seen, w'.hist.got, w'.hist.removed)
  {
    hide NetOk, LogOk, NumbersOk, AckedOk, AcknowledgedOk, CountsOk, StreamsOk, CallsOk, HolesOk, InsertingOk;
    hide BufferOk, StreamOk;
    var p := w.rcv.inserting.value;
    var s := p.streamID;
    InsertingChunk(w);
    InsertOthers(w);
    if s in w.rcv.bufs {
      var r, got, st := w.rcv.bufs[s], w.hist.got[s], w.streams[s];
      if p.seqNum !in got && p.seqNum != r.expected {
        RoomToInsert(w);
      }
      InsertBuffer(r, got, st, w.hist.seen, p);
    }
  }

  lemma InsertBuffer(r: Reorder, got: set<nat>, st: Stream, seen: set<nat>, p: Packet)
    requires BufferOk(r, got, st, seen, Some(p))
    requires p.seqNum < |st.chunks| && p.seqNum in st.nums && st.nums[p.seqNum] == p.pktNum && p.pktNum in seen
    requires p.data == st.chunks[p.seqNum] && Rising(st.nums)
    requires p.seqNum in got || p.seqNum == r.expected || |r.buffer| < MAX_HELD
    ensures BufferOk(Inserted(r, p.seqNum, p.data), got + {p.seqNum}, st, seen, None)
  {
    hide Represents, Inserted;
    InsertRepresents(r, st.chunks, got, p.seqNum);
    InsertSize(r, got, st.chunks, p.seqNum);
    forall i | i in st.nums && st.nums[i] in seen ensures i in got + {p.seqNum} {
      assert i != p.seqNum ==> st.nums[i] != p.pktNum;
    }
  }

  lemma InsertSize(r: Reorder, got: set<nat>, chunks: seq<bytes>, i: nat)
    requires Represents(r, chunks, got) && i < |chunks| && |r.buffer| <= MAX_HELD && r.maxBuf == RECV_BUF_SIZE
    requires i in got || i == r.expected || |r.buffer| < MAX_HELD
    ensures |Inserted(r, i, chunks[i]).buffer| <= MAX_HELD
  {
    if i == r.expected {
      InsertExpected(r, chunks, got);
      hide Represents, Inserted;
      SubsetSize(Inserted(r, i, chunks[i]).buffer.Keys, r.buffer.Keys);
    } else if i !in got {
      InsertRepresents(r, chunks, got, i);
      hide Represents, Inserted;
      SubsetSize(Inserted(r, i, chunks[i]).buffer.Keys, r.buffer.Keys + {i});
    }
  }

  /** The packet being inserted concerns its own stream only. */
  lemma InsertOthers(w: World)
    requires ReceiveOk(w.rcv.bufs, w.rcv.inserting, w.streams, w.hist.seen, w.hist.got, w.hist.removed)
    requires StreamsOk(w.streams, w.hist.sent) && w.rcv.inserting.Some?
    requires var p := w.rcv.inserting.value; p.pktNum in w.hist.sent && w.hist.sent[p.pktNum] == p
    ensures forall t :: t in w.rcv.bufs && t != w.rcv.inserting.value.streamID ==>
              BufferOk(w.rcv.bufs[t], w.hist.got[t], w.streams[t], w.hist.seen, None)
  {
    hide BufferOk, StreamOk;
    forall t | t in w.rcv.bufs && t != w.rcv.inserting.value.streamID
      ensures BufferOk(w.rcv.bufs[t], w.hist.got[t], w.streams[t], w.hist.seen, None)
    {
      OtherBuffer(w.rcv.bufs[t], w.hist.got[t], t, w.streams[t], w.hist.sent, w.hist.seen, w.rcv.inserting.value);
    }
  }

  lemma OtherBuffer(r: Reorder, got: set<nat>, t: nat, st: Stream, sent: map<nat, Packet>, seen: set<nat>, p: Packet)
    requires BufferOk(r, got, st, seen, Some(p)) && StreamOk(t, st, sent)
    requires p.pktNum in sent && sent[p.pktNum] == p && p.streamID != t
    ensures BufferOk(r, got, st, seen, None)
  {
    hide Represents, BytesOk;
  }
}
