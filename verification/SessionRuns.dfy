/** Every step of a session keeps its invariant, hence so does every run. */
module SessionRuns {
  import opened Bytes
  import opened AckWire
  import opened AckTracking
  import opened BandwidthEstimation
  import opened Congestion
  import opened SendBuffering
  import opened ArqSender
  import opened Session
  import opened SessionProof

  lemma InvParts(w: World)
    requires Inv(w)
    ensures Sane(w)
    ensures w.hist.highCum <= w.snd.next
  {
    hide NetOk, AckedOk, AcknowledgedOk, StreamsOk, CallsOk, HolesOk, ReceiveOk, InsertingOk;
    assert w.hist.highCum > 0 ==> w.hist.highCum in w.hist.seen;
  }

  lemma HoldersBegun(calls: map<nat, Call>, c: nat, p: Packet)
    requires c !in calls
    ensures Holders(Begun(calls, c, p)) == Holders(calls)
  {
  }

  lemma HoldersRemoved(calls: map<nat, Call>, c: nat)
    requires c in calls && calls[c].phase in {Waiting, Stored}
    ensures Holders(calls - {c}) == Holders(calls)
  {
  }

  lemma HoldersNumbered(calls: map<nat, Call>, c: nat, call: Call)
    requires InPhase(calls, c, Slotted) && call.phase == Numbered
    ensures Holders(calls[c := call]) == Holders(calls)
  {
  }

  lemma HoldersAcquired(calls: map<nat, Call>, c: nat)
    requires InPhase(calls, c, Waiting)
    ensures c !in Holders(calls) && Holders(calls[c := calls[c].(phase := Slotted)]) == Holders(calls) + {c}
  {
  }

  lemma HoldersStored(calls: map<nat, Call>, c: nat)
    requires InPhase(calls, c, Numbered)
    ensures c in Holders(calls) && Holders(calls[c := calls[c].(phase := Stored)]) == Holders(calls) - {c}
  {
  }

  lemma UnackedStored(m: Packets, k: nat, sp: SentPacket)
    requires k !in m && !sp.acked
    ensures k !in Unacked(m) && Unacked(m[k := sp]) == Unacked(m) + {k}
  {
  }

  lemma AcquiredNumbers(w: World, c: nat)
    requires NumbersOk(w.snd.next, w.hist.sent, w.snd.packets, w.hist.highCum, w.calls) && InPhase(w.calls, c, Waiting)
    ensures NumbersOk(w.snd.next, w.hist.sent, w.snd.packets, w.hist.highCum,
                      w.calls[c := w.calls[c].(phase := Slotted)])
  {
    hide NumbersOk;
    PhaseNumbers(w.snd.next, w.hist.sent, w.snd.packets, w.hist.highCum, w.calls,
                 w.calls[c := w.calls[c].(phase := Slotted)]);
  }

  lemma RemovedNumbers(w: World, c: nat)
    requires NumbersOk(w.snd.next, w.hist.sent, w.snd.packets, w.hist.highCum, w.calls)
    requires c in w.calls && w.calls[c].phase in {Waiting, Stored}
    ensures NumbersOk(w.snd.next, w.hist.sent, w.snd.packets, w.hist.highCum, w.calls - {c})
  {
    hide NumbersOk;
    PhaseNumbers(w.snd.next, w.hist.sent, w.snd.packets, w.hist.highCum, w.calls, w.calls - {c});
  }

  /** A stored packet stays stored, so nothing the network or the receiver knows changes. */
  lemma StoreHistory(w: World, k: nat, sp: SentPacket)
    requires LogOk(w.rcv.log, w.hist.sent, w.snd.packets, w.hist.highCum, w.hist.seen)
    requires NetOk(w.net, w.hist.sent, w.snd.packets, w.hist.highCum, w.rcv.log, w.hist.seen)
    requires w.hist.highCum <= w.rcv.log.cumAck
    ensures NetOk(w.net, w.hist.sent, w.snd.packets[k := sp], w.hist.highCum, w.rcv.log, w.hist.seen)
    ensures LogOk(w.rcv.log, w.hist.sent, w.snd.packets[k := sp], w.hist.highCum, w.hist.seen)
  {
    hide NetOk, LogOk;
    GrowNet(w.net, w.hist.sent, w.snd.packets, w.hist.highCum, w.rcv.log, w.hist.seen,
            w.hist.sent, w.snd.packets[k := sp], w.hist.highCum);
    GrowLog(w.rcv.log, w.hist.sent, w.snd.packets, w.hist.highCum, w.hist.seen, w.hist.sent,
            w.snd.packets[k := sp], w.hist.highCum);
  }

  lemma OpenInv(w: World, s: nat)
    requires Inv(w) && s !in w.streams
    ensures Inv(OpenStep(w, s))
  {
    hide NetOk, LogOk, NumbersOk, AckedOk, AcknowledgedOk, CountsOk, StreamsOk, CallsOk, HolesOk, ReceiveOk;
    hide InsertingOk;
    InvParts(w);
    var w' := OpenStep(w, s);
    OpenStreams(w.streams, w.hist.sent, w.calls, s);
    ByteHoles(w.streams, w.calls, w.snd.closed, w.hist.acknowledged, s, NEW_STREAM);
    OpenReceive(w.rcv.bufs, w.rcv.inserting, w.streams, w.hist.seen, w.hist.got, w.hist.removed, s);
  }

  lemma WriteInv(w: World, s: nat, data: bytes)
    requires Inv(w) && s in w.streams && w.streams[s].todo == []
    ensures Inv(WriteStep(w, s, data))
  {
    hide NetOk, LogOk, NumbersOk, AckedOk, AcknowledgedOk, CountsOk, StreamsOk, CallsOk, HolesOk, ReceiveOk;
    hide InsertingOk;
    InvParts(w);
    var w' := WriteStep(w, s, data);
    WriteStreams(w.streams, w.hist.sent, w.calls, s, data);
    ByteHoles(w.streams, w.calls, w.snd.closed, w.hist.acknowledged, s, w'.streams[s]);
    GrowReceive(w.rcv.bufs, w.rcv.inserting, w.streams, w.hist.seen, w.hist.got, w.hist.removed, s, w'.streams[s]);
  }

  lemma CutReceive(w: World, s: nat)
    requires ReceiveOk(w.rcv.bufs, w.rcv.inserting, w.streams, w.hist.seen, w.hist.got, w.hist.removed)
    requires s in w.streams
    ensures ReceiveOk(w.rcv.bufs, w.rcv.inserting, w.streams[s := Cut(w.streams[s])],
                      w.hist.seen, w.hist.got, w.hist.removed)
  {
    hide ReceiveOk;
    GrowReceive(w.rcv.bufs, w.rcv.inserting, w.streams, w.hist.seen, w.hist.got, w.hist.removed, s, Cut(w.streams[s]));
  }

  lemma NumberReceive(w: World, s: nat, i: nat, n: nat)
    requires ReceiveOk(w.rcv.bufs, w.rcv.inserting, w.streams, w.hist.seen, w.hist.got, w.hist.removed)
    requires s in w.streams && i !in w.streams[s].nums && n !in w.hist.seen
    ensures var st := w.streams[s];
            ReceiveOk(w.rcv.bufs, w.rcv.inserting, w.streams[s := st.(nums := st.nums[i := n])],
                      w.hist.seen, w.hist.got, w.hist.removed)
  {
    hide ReceiveOk;
    var st := w.streams[s];
    GrowReceive(w.rcv.bufs, w.rcv.inserting, w.streams, w.hist.seen, w.hist.got, w.hist.removed, s,
                st.(nums := st.nums[i := n]));
  }

  lemma BegunNumbers(w: World, c: nat, p: Packet)
    requires NumbersOk(w.snd.next, w.hist.sent, w.snd.packets, w.hist.highCum, w.calls) && c !in w.calls
    ensures NumbersOk(w.snd.next, w.hist.sent, w.snd.packets, w.hist.highCum, Begun(w.calls, c, p))
  {
    hide NumbersOk;
    PhaseNumbers(w.snd.next, w.hist.sent, w.snd.packets, w.hist.highCum, w.calls, Begun(w.calls, c, p));
  }

  /** A new number joins the history without disturbing what the network and the receiver know. */
  lemma NumberHistory(w: World, p: Packet)
    requires NumbersOk(w.snd.next, w.hist.sent, w.snd.packets, w.hist.highCum, w.calls)
    requires LogOk(w.rcv.log, w.hist.sent, w.snd.packets, w.hist.highCum, w.hist.seen)
    requires NetOk(w.net, w.hist.sent, w.snd.packets, w.hist.highCum, w.rcv.log, w.hist.seen)
    ensures var sent' := w.hist.sent[w.snd.next + 1 := p];
            && NetOk(w.net, sent', w.snd.packets, w.hist.highCum, w.rcv.log, w.hist.seen)
            && LogOk(w.rcv.log, sent', w.snd.packets, w.hist.highCum, w.hist.seen)
  {
    NumberFresh(w);
    hide NetOk, LogOk, NumbersOk;
    var sent' := w.hist.sent[w.snd.next + 1 := p];
    GrowNet(w.net, w.hist.sent, w.snd.packets, w.hist.highCum, w.rcv.log, w.hist.seen,
            sent', w.snd.packets, w.hist.highCum);
    GrowLog(w.rcv.log, w.hist.sent, w.snd.packets, w.hist.highCum, w.hist.seen, sent', w.snd.packets, w.hist.highCum);
  }

  lemma BeginInv(w: World, c: nat, s: nat)
    requires Inv(w) && c !in w.calls && s in w.streams && w.streams[s].todo != [] && !Busy(w.calls, s)
    ensures Inv(BeginStep(w, c, s))
  {
    hide NetOk, LogOk, NumbersOk, AckedOk, AcknowledgedOk, CountsOk, StreamsOk, CallsOk, HolesOk, ReceiveOk;
    hide InsertingOk, Holders;
    InvParts(w);
    var w' := BeginStep(w, c, s);
    NumberedChunks(w.streams, w.hist.sent, s);
    BeginStreams(w.streams, w.hist.sent, s);
    BeginCalls(w.streams, w.calls, c, s);
    BeginHoles(w.streams, w.calls, w.snd.closed, w.hist.acknowledged, c, s);
    CutReceive(w, s);
    BegunNumbers(w, c, w'.calls[c].packet);
    HoldersBegun(w.calls, c, w'.calls[c].packet);
  }

  lemma NumberedChunks(streams: map<nat, Stream>, sent: map<nat, Packet>, s: nat)
    requires StreamsOk(streams, sent) && s in streams
    ensures forall i :: i in streams[s].nums ==> i < |streams[s].chunks|
  {
    hide BytesOk;
    assert StreamOk(s, streams[s], sent);
  }

  lemma ControlInv(w: World, c: nat, s: nat, t: byte, data: bytes)
    requires Inv(w) && c !in w.calls && t != MSG_STREAM_DATA
    ensures Inv(ControlStep(w, c, s, t, data))
  {
    hide NetOk, LogOk, NumbersOk, AckedOk, AcknowledgedOk, CountsOk, StreamsOk, CallsOk, HolesOk, ReceiveOk;
    hide InsertingOk, Holders;
    InvParts(w);
    var w' := ControlStep(w, c, s, t, data);
    ControlCalls(w.streams, w.calls, c, Packet(t, 0, s, 0, data));
    CallHoles(w.streams, w.calls, w.snd.closed, w.hist.acknowledged, w'.calls, w.snd.closed);
    BegunNumbers(w, c, w'.calls[c].packet);
    HoldersBegun(w.calls, c, w'.calls[c].packet);
  }

  lemma AcquireInv(w: World, c: nat)
    requires Inv(w) && InPhase(w.calls, c, Waiting) && CanAcquire(w.snd.window)
    ensures Inv(AcquireStep(w, c))
  {
    hide NetOk, LogOk, NumbersOk, AckedOk, AcknowledgedOk, CountsOk, StreamsOk, CallsOk, HolesOk, ReceiveOk;
    hide InsertingOk, Holders;
    InvParts(w);
    var w' := AcquireStep(w, c);
    PhaseCalls(w.streams, w.calls, c, w'.calls[c]);
    CallHoles(w.streams, w.calls, w.snd.closed, w.hist.acknowledged, w'.calls, w.snd.closed);
    AcquiredNumbers(w, c);
    HoldersAcquired(w.calls, c);
    AcquireCounts(w.snd.window, Unacked(w.snd.packets), Holders(w.calls), Owed(w.handling), w.hist.slots,
                  w.hist.acknowledged, c);
  }

  lemma NotNumberedYet(calls: map<nat, Call>, streams: map<nat, Stream>, c: nat)
    requires CallsOk(calls, streams) && InPhase(calls, c, Slotted) && IsData(calls[c].packet)
    ensures calls[c].packet.streamID in streams
    ensures calls[c].packet.seqNum !in streams[calls[c].packet.streamID].nums
  {
    assert UnnumberedOk(calls[c], streams);
  }

  lemma NumberStreamSide(w: World, c: nat, snap: Snapshot)
    requires NumbersOk(w.snd.next, w.hist.sent, w.snd.packets, w.hist.highCum, w.calls)
    requires LogOk(w.rcv.log, w.hist.sent, w.snd.packets, w.hist.highCum, w.hist.seen)
    requires StreamsOk(w.streams, w.hist.sent) && CallsOk(w.calls, w.streams) && InPhase(w.calls, c, Slotted)
    requires ReceiveOk(w.rcv.bufs, w.rcv.inserting, w.streams, w.hist.seen, w.hist.got, w.hist.removed)
    ensures var n := w.snd.next + 1;
            var p := w.calls[c].packet.(pktNum := n);
            var streams' := NumberedStreams(w.streams, p, n);
            && StreamsOk(streams', w.hist.sent[n := p])
            && CallsOk(w.calls[c := Call(Numbered, p, snap)], streams')
            && ReceiveOk(w.rcv.bufs, w.rcv.inserting, streams', w.hist.seen, w.hist.got, w.hist.removed)
  {
    hide NumbersOk, LogOk, StreamsOk, CallsOk, ReceiveOk;
    NumberFresh(w);
    var n, s := w.snd.next + 1, w.calls[c].packet.streamID;
    NumberStreams(w.streams, w.hist.sent, w.calls, c, n);
    NumberCalls(w.streams, w.calls, c, n, snap);
    if IsData(w.calls[c].packet) {
      NotNumberedYet(w.calls, w.streams, c);
      NumberReceive(w, s, w.calls[c].packet.seqNum, n);
    }
  }

  lemma NumberSenderSide(w: World, c: nat, snap: Snapshot)
    requires NumbersOk(w.snd.next, w.hist.sent, w.snd.packets, w.hist.highCum, w.calls)
    requires LogOk(w.rcv.log, w.hist.sent, w.snd.packets, w.hist.highCum, w.hist.seen)
    requires NetOk(w.net, w.hist.sent, w.snd.packets, w.hist.highCum, w.rcv.log, w.hist.seen)
    requires AcknowledgedOk(w.hist.acknowledged, w.hist.sent, w.snd.packets, w.hist.highCum)
    requires w.hist.highCum <= w.snd.next && InPhase(w.calls, c, Slotted) && w.snd.next + 1 < UINT32_LIMIT
    ensures var n := w.snd.next + 1;
            var p := w.calls[c].packet.(pktNum := n);
            var sent', calls' := w.hist.sent[n := p], w.calls[c := Call(Numbered, p, snap)];
            && NumbersOk(n, sent', w.snd.packets, w.hist.highCum, calls')
            && NetOk(w.net, sent', w.snd.packets, w.hist.highCum, w.rcv.log, w.hist.seen)
            && LogOk(w.rcv.log, sent', w.snd.packets, w.hist.highCum, w.hist.seen)
            && AcknowledgedOk(w.hist.acknowledged, sent', w.snd.packets, w.hist.highCum)
            && Holders(calls') == Holders(w.calls)
  {
    hide NetOk, LogOk, NumbersOk, AcknowledgedOk, Holders;
    var p := w.calls[c].packet.(pktNum := w.snd.next + 1);
    NumberNumbers(w.snd.next, w.hist.sent, w.snd.packets, w.hist.highCum, w.calls, c, snap);
    NumberHistory(w, p);
    NumberAcknowledged(w, p);
    HoldersNumbered(w.calls, c, Call(Numbered, p, snap));
  }

  lemma NumberInv(w: World, c: nat, now: int)
    requires Inv(w) && InPhase(w.calls, c, Slotted) && w.snd.next + 1 < UINT32_LIMIT
    ensures Inv(NumberStep(w, c, now))
  {
    hide NetOk, LogOk, NumbersOk, AckedOk, AcknowledgedOk, CountsOk, StreamsOk, CallsOk, HolesOk, ReceiveOk;
    hide InsertingOk;
    hide Holders, Unacked, NumberedStreams, SnapshotOf, HandlingOk, Sane, Consistent;
    InvParts(w);
    NumberStreamSide(w, c, SnapshotOf(w.snd.window.bwe, now));
    NumberSenderSide(w, c, SnapshotOf(w.snd.window.bwe, now));
    NotAcknowledgedYet(w);
    NumberHoles(w.streams, w.calls, w.snd.closed, w.hist.acknowledged, c, w.snd.next + 1, SnapshotOf(w.snd.window.bwe,
                                                                                                     now));
  }

  lemma NotAcknowledgedYet(w: World)
    requires NumbersOk(w.snd.next, w.hist.sent, w.snd.packets, w.hist.highCum, w.calls)
    requires AcknowledgedOk(w.hist.acknowledged, w.hist.sent, w.snd.packets, w.hist.highCum)
    ensures w.snd.next + 1 !in w.hist.acknowledged
  {
  }

  lemma NumberFresh(w: World)
    requires NumbersOk(w.snd.next, w.hist.sent, w.snd.packets, w.hist.highCum, w.calls)
    requires LogOk(w.rcv.log, w.hist.sent, w.snd.packets, w.hist.highCum, w.hist.seen)
    ensures forall k :: k in w.hist.sent ==> k < w.snd.next + 1
    ensures w.snd.next + 1 !in w.hist.seen && w.hist.highCum <= w.rcv.log.cumAck
  {
  }

  lemma NumberAcknowledged(w: World, p: Packet)
    requires NumbersOk(w.snd.next, w.hist.sent, w.snd.packets, w.hist.highCum, w.calls)
    requires AcknowledgedOk(w.hist.acknowledged, w.hist.sent, w.snd.packets, w.hist.highCum)
    requires w.hist.highCum <= w.snd.next
    ensures AcknowledgedOk(w.hist.acknowledged, w.hist.sent[w.snd.next + 1 := p], w.snd.packets, w.hist.highCum)
  {
  }

  lemma StoreInv(w: World, c: nat, now: int)
    requires Inv(w) && InPhase(w.calls, c, Numbered)
    ensures Inv(StoreStep(w, c, now))
  {
    hide NetOk, LogOk, NumbersOk, AckedOk, AcknowledgedOk, CountsOk, StreamsOk, CallsOk, HolesOk, ReceiveOk;
    hide InsertingOk, Holders, Unacked;
    InvParts(w);
    var w' := StoreStep(w, c, now);
    var p := w.calls[c].packet;
    var sp := NewlySent(p, now, w.calls[c].snap);
    StoreFacts(w, c, sp);
    StoreNumbers(w.snd.next, w.hist.sent, w.snd.packets, w.hist.highCum, w.calls, c, sp);
    PhaseCallsStored(w.streams, w.calls, c);
    CallHoles(w.streams, w.calls, w.snd.closed, w.hist.acknowledged, w'.calls, w.snd.closed);
    StoreHistory(w, p.pktNum, sp);
    HoldersStored(w.calls, c);
    UnackedStored(w.snd.packets, p.pktNum, sp);
    StoreCounts(w.snd.window, Unacked(w.snd.packets), Holders(w.calls), Owed(w.handling), w.hist.slots,
                w.hist.acknowledged, c, p.pktNum);
  }

  lemma StoreFacts(w: World, c: nat, sp: SentPacket)
    requires NumbersOk(w.snd.next, w.hist.sent, w.snd.packets, w.hist.highCum, w.calls) && InPhase(w.calls, c, Numbered)
    requires LogOk(w.rcv.log, w.hist.sent, w.snd.packets, w.hist.highCum, w.hist.seen)
    requires AckedOk(w.snd.packets, w.hist.seen, w.hist.highCum) && !sp.acked
    requires AcknowledgedOk(w.hist.acknowledged, w.hist.sent, w.snd.packets, w.hist.highCum)
    ensures var k := w.calls[c].packet.pktNum;
            && k !in w.snd.packets && w.hist.highCum <= w.rcv.log.cumAck
            && AckedOk(w.snd.packets[k := sp], w.hist.seen, w.hist.highCum)
            && AcknowledgedOk(w.hist.acknowledged, w.hist.sent, w.snd.packets[k := sp], w.hist.highCum)
  {
  }

  lemma PhaseCallsStored(streams: map<nat, Stream>, calls: map<nat, Call>, c: nat)
    requires CallsOk(calls, streams) && InPhase(calls, c, Numbered)
    ensures CallsOk(calls[c := calls[c].(phase := Stored)], streams)
  {
    PhaseCalls(streams, calls, c, calls[c].(phase := Stored));
  }

  lemma TransmitInv(w: World, c: nat)
    requires Inv(w) && InPhase(w.calls, c, Stored)
    ensures Inv(TransmitStep(w, c))
  {
    hide NetOk, LogOk, NumbersOk, AckedOk, AcknowledgedOk, CountsOk, StreamsOk, CallsOk, HolesOk, ReceiveOk;
    hide InsertingOk, Holders;
    InvParts(w);
    var w' := TransmitStep(w, c);
    StoredPacket(w, c);
    TransmitNet(w.net, w.hist.sent, w.snd.packets, w.hist.highCum, w.rcv.log, w.hist.seen, {w.calls[c].packet});
    TransmitCalls(w.streams, w.calls, c);
    CallHoles(w.streams, w.calls, w.snd.closed, w.hist.acknowledged, w'.calls, w.snd.closed);
    RemovedNumbers(w, c);
    MoreData(w.rcv.inserting, w.net.data, w'.net.data, w.hist.seen);
    HoldersRemoved(w.calls, c);
  }

  lemma StoredPacket(w: World, c: nat)
    requires NumbersOk(w.snd.next, w.hist.sent, w.snd.packets, w.hist.highCum, w.calls) && InPhase(w.calls, c, Stored)
    ensures var p := w.calls[c].packet;
            p.pktNum in w.hist.sent && w.hist.sent[p.pktNum] == p && IsStored(p.pktNum, w.snd.packets, w.hist.highCum)
  {
  }

  lemma MoreData(inserting: Option<Packet>, data: set<Packet>, data': set<Packet>, seen: set<nat>)
    requires InsertingOk(inserting, data, seen) && data <= data'
    ensures InsertingOk(inserting, data', seen)
  {
  }

  lemma AbandonInv(w: World, c: nat)
    requires Inv(w) && c in w.calls && w.calls[c].phase in {Waiting, Stored}
    requires w.calls[c].phase == Waiting ==> w.snd.closed
    ensures Inv(AbandonStep(w, c))
  {
    hide NetOk, LogOk, NumbersOk, AckedOk, AcknowledgedOk, CountsOk, StreamsOk, CallsOk, HolesOk, ReceiveOk;
    hide InsertingOk, Holders;
    InvParts(w);
    var w' := AbandonStep(w, c);
    var p := w.calls[c].packet;
    if IsData(p) {
      AbandonStream(w, c);
    }
    AbandonCalls(w.streams, w.calls, c);
    RemovedNumbers(w, c);
    HoldersRemoved(w.calls, c);
    CallHoles(w.streams, w.calls, w.snd.closed, w.hist.acknowledged, w'.calls, w.snd.closed);
    if IsData(p) {
      GivenUpStreams(w.streams, w.hist.sent, p.streamID);
      ByteHoles(w.streams, w'.calls, w.snd.closed, w.hist.acknowledged, p.streamID, w'.streams[p.streamID]);
      GrowReceive(w.rcv.bufs, w.rcv.inserting, w.streams, w.hist.seen, w.hist.got, w.hist.removed, p.streamID,
                  w'.streams[p.streamID]);
    }
  }

  lemma AbandonStream(w: World, c: nat)
    requires NumbersOk(w.snd.next, w.hist.sent, w.snd.packets, w.hist.highCum, w.calls)
    requires StreamsOk(w.streams, w.hist.sent) && CallsOk(w.calls, w.streams)
    requires c in w.calls && w.calls[c].phase in {Waiting, Stored} && IsData(w.calls[c].packet)
    ensures w.calls[c].packet.streamID in w.streams
  {
    assert UnnumberedOk(w.calls[c], w.streams);
  }

  lemma TakeAckInv(w: World, d: bytes, now: int)
    requires Inv(w) && w.handling.Ready? && d in w.net.acks && Decoded(d).Ok? && Decoded(d).value.Valid()
    requires !w.snd.closed
    ensures Inv(TakeAckStep(w, Decoded(d).value, now))
  {
    hide NetOk, LogOk, NumbersOk, AckedOk, AcknowledgedOk, CountsOk, StreamsOk, CallsOk, HolesOk, ReceiveOk;
    hide InsertingOk;
    InvParts(w);
    var w' := TakeAckStep(w, Decoded(d).value, now);
    var a := Decoded(d).value;
    OnWire(w, d);
    TakeAckNumbers(w.snd.next, w.hist.sent, w.snd.packets, w.hist.highCum, w.calls, w.rcv.log, w.hist.seen, a);
    TakeAckAcked(w.snd.packets, w.hist.seen, w.hist.highCum, w.rcv.log, a);
    TakeAckAcknowledged(w.snd.next, w.calls, w.hist.acknowledged, w.hist.sent, w.snd.packets, w.hist.highCum,
                        w.rcv.log, w.hist.seen, a);
    TakeAckHoles(w.streams, w.calls, w.hist.acknowledged, NewlyAcked(w.snd.packets, a));
    TakeAckCounts(w.snd.window, w.snd.packets, Holders(w.calls), w.hist.slots, w.hist.acknowledged, a);
    GrowNet(w.net, w.hist.sent, w.snd.packets, w.hist.highCum, w.rcv.log, w.hist.seen,
            w.hist.sent, w'.snd.packets, w'.hist.highCum);
    GrowLog(w.rcv.log, w.hist.sent, w.snd.packets, w.hist.highCum, w.hist.seen, w.hist.sent, w'.snd.packets,
            w'.hist.highCum);
  }

  /** Whatever acknowledgement reaches the sender, however old, is true of what the receiver has recorded. */
  lemma OnWire(w: World, d: bytes)
    requires NetOk(w.net, w.hist.sent, w.snd.packets, w.hist.highCum, w.rcv.log, w.hist.seen) && d in w.net.acks
    requires LogOk(w.rcv.log, w.hist.sent, w.snd.packets, w.hist.highCum, w.hist.seen)
    ensures Decoded(d).Ok? && AckSound(Decoded(d).value, w.rcv.log, w.hist.seen)
    ensures w.hist.highCum <= w.rcv.log.cumAck && Decoded(d).value.cumAck <= w.rcv.log.cumAck
  {
  }

  lemma CreditInv(w: World, now: int)
    requires Inv(w) && w.handling.Crediting? && Consistent(w.snd.window.bwe)
    ensures Inv(CreditStep(w, now))
  {
    hide NetOk, LogOk, NumbersOk, AckedOk, AcknowledgedOk, CountsOk, StreamsOk, CallsOk, HolesOk, ReceiveOk;
    hide InsertingOk;
    InvParts(w);
    var w' := CreditStep(w, now);
    CreditCounts(w.snd.window, Unacked(w.snd.packets), Holders(w.calls), w.hist.slots, w.hist.acknowledged,
                 w.handling.credit, now);
    hide Credited;
  }

  lemma RecoverInv(w: World, now: int)
    requires Inv(w) && w.handling.Recovering? && w.handling.ack.Valid()
    ensures Inv(RecoverStep(w, w.handling.ack, now))
  {
    hide NetOk, LogOk, NumbersOk, AckedOk, AcknowledgedOk, CountsOk, StreamsOk, CallsOk, HolesOk, ReceiveOk;
    hide InsertingOk;
    InvParts(w);
    var w' := RecoverStep(w, w.handling.ack, now);
    RecoveryOnlyResends(w.snd, w.handling.ack, now);
    SameButTimingUnacked(w.snd.packets, w'.snd.packets);
    hide SameButTiming, RecoveryBatch;
    ResendParts(w, w'.snd.packets);
    ResendNet(w, w'.snd.packets, RecoveryBatch(w.snd, w.handling.ack, now));
    MoreData(w.rcv.inserting, w.net.data, w'.net.data, w.hist.seen);
  }

  lemma TickInv(w: World, now: int)
    requires Inv(w)
    ensures Inv(TickStep(w, now))
  {
    hide NetOk, LogOk, NumbersOk, AckedOk, AcknowledgedOk, CountsOk, StreamsOk, CallsOk, HolesOk, ReceiveOk;
    hide InsertingOk;
    InvParts(w);
    var w' := TickStep(w, now);
    TickOnlyResends(w.snd, now);
    SameButTimingUnacked(w.snd.packets, w'.snd.packets);
    assert w.snd.closed ==> w'.snd.closed;
    hide SameButTiming, Ticked, TickResent;
    ResendParts(w, w'.snd.packets);
    ResendNet(w, w'.snd.packets, TickResent(w.snd, now));
    CallHoles(w.streams, w.calls, w.snd.closed, w.hist.acknowledged, w.calls, w'.snd.closed);
    MoreData(w.rcv.inserting, w.net.data, w'.net.data, w.hist.seen);
  }

  lemma ReceiveInv(w: World, p: Packet)
    requires Inv(w) && p in w.net.data && w.rcv.inserting.None?
    ensures Inv(ReceiveStep(w, p))
  {
    hide NetOk, LogOk, NumbersOk, AckedOk, AcknowledgedOk, CountsOk, StreamsOk, CallsOk, HolesOk, ReceiveOk;
    hide InsertingOk;
    InvParts(w);
    var w' := ReceiveStep(w, p);
    Received(w, p);
    ReceiveNet(w.net, w.hist.sent, w.snd.packets, w.hist.highCum, w.rcv.log, w.hist.seen, p.pktNum);
    ReceiveLog(w.rcv.log, w.hist.sent, w.snd.packets, w.hist.highCum, w.hist.seen, p.pktNum);
    ReceiveReceive(w.rcv.bufs, w.streams, w.hist.sent, w.hist.seen, w.hist.got, w.hist.removed, p);
  }

  lemma Received(w: World, p: Packet)
    requires NetOk(w.net, w.hist.sent, w.snd.packets, w.hist.highCum, w.rcv.log, w.hist.seen) && p in w.net.data
    requires NumbersOk(w.snd.next, w.hist.sent, w.snd.packets, w.hist.highCum, w.calls)
    requires AckedOk(w.snd.packets, w.hist.seen, w.hist.highCum)
    ensures p.pktNum > 0 && p.pktNum in w.hist.sent && w.hist.sent[p.pktNum] == p
    ensures IsStored(p.pktNum, w.snd.packets, w.hist.highCum)
    ensures AckedOk(w.snd.packets, w.hist.seen + {p.pktNum}, w.hist.highCum)
    ensures InsertingOk(if IsData(p) then Some(p) else None, w.net.data, w.hist.seen + {p.pktNum})
  {
  }

  lemma InsertInv(w: World)
    requires Inv(w) && w.rcv.inserting.Some?
    ensures Inv(InsertStep(w))
  {
    hide NetOk, LogOk, NumbersOk, AckedOk, AcknowledgedOk, CountsOk, StreamsOk, CallsOk, HolesOk, ReceiveOk;
    hide InsertingOk;
    InvParts(w);
    var w' := InsertStep(w);
    InsertReceive(w);
    assert InsertingOk(None, w.net.data, w.hist.seen) by {
      NothingToInsert(w.net.data, w.hist.seen);
    }
  }

  lemma NothingToInsert(data: set<Packet>, seen: set<nat>)
    ensures InsertingOk(None, data, seen)
  {
  }

  lemma SendAckInv(w: World, a: Ack)
    requires Inv(w) && Reports(a, w.rcv.log)
    ensures Inv(SendAckStep(w, a))
  {
    hide NetOk, LogOk, NumbersOk, AckedOk, AcknowledgedOk, CountsOk, StreamsOk, CallsOk, HolesOk, ReceiveOk;
    hide InsertingOk;
    InvParts(w);
    var w' := SendAckStep(w, a);
    SentLog(w);
    SendAckNet(w.net, w.hist.sent, w.snd.packets, w.hist.highCum, w.rcv.log, w.hist.seen, a);
  }

  lemma SentLog(w: World)
    requires LogOk(w.rcv.log, w.hist.sent, w.snd.packets, w.hist.highCum, w.hist.seen)
    ensures LogOk(AckTracking.Sent(w.rcv.log), w.hist.sent, w.snd.packets, w.hist.highCum, w.hist.seen)
    ensures Tracks(w.rcv.log, w.hist.seen)
  {
  }

  lemma RemoveInv(w: World, s: nat)
    requires Inv(w) && s in w.rcv.bufs
    ensures Inv(RemoveStep(w, s))
  {
    hide NetOk, LogOk, NumbersOk, AckedOk, AcknowledgedOk, CountsOk, StreamsOk, CallsOk, HolesOk, ReceiveOk;
    hide InsertingOk;
    InvParts(w);
    var w' := RemoveStep(w, s);
    RemoveReceive(w.rcv.bufs, w.rcv.inserting, w.streams, w.hist.seen, w.hist.got, w.hist.removed, s);
  }

  lemma CloseSenderInv(w: World)
    requires Inv(w)
    ensures Inv(w.(snd := w.snd.(closed := true)))
  {
    hide NetOk, LogOk, NumbersOk, AckedOk, AcknowledgedOk, CountsOk, StreamsOk, CallsOk, HolesOk, ReceiveOk;
    hide InsertingOk;
    InvParts(w);
    var w' := w.(snd := w.snd.(closed := true));
    CallHoles(w.streams, w.calls, w.snd.closed, w.hist.acknowledged, w.calls, true);
  }

  lemma CloseReceiverInv(w: World)
    requires Inv(w)
    ensures Inv(w.(rcv := w.rcv.(closed := true)))
  {
    hide NetOk, LogOk, NumbersOk, AckedOk, AcknowledgedOk, CountsOk, StreamsOk, CallsOk, HolesOk, ReceiveOk;
    hide InsertingOk;
    InvParts(w);
    var w' := w.(rcv := w.rcv.(closed := true));
  }

  /** The invariant is inductive. */
  lemma StepInv(w: World, step: Step)
    requires Inv(w) && Enabled(w, step)
    ensures Sane(w)
    ensures Inv(Next(w, step))
  {
    hide Inv, Reports, Busy;
    hide OpenStep, WriteStep, BeginStep, ControlStep, AcquireStep, NumberStep, StoreStep, TransmitStep, AbandonStep;
    hide TakeAckStep, CreditStep, RecoverStep, TickStep, ReceiveStep, InsertStep, SendAckStep, RemoveStep;
    InvParts(w);
    match step
    case Open(s) => OpenInv(w, s);
    case Write(s, data) => WriteInv(w, s, data);
    case Begin(c, s) => BeginInv(w, c, s);
    case Control(c, s, t, data) => ControlInv(w, c, s, t, data);
    case Acquire(c) => AcquireInv(w, c);
    case Number(c, now) => NumberInv(w, c, now);
    case Store(c, now) => StoreInv(w, c, now);
    case Transmit(c) => TransmitInv(w, c);
    case Abandon(c) => AbandonInv(w, c);
    case TakeAck(d, now) => DecodedValid(d); TakeAckInv(w, d, now);
    case CreditAck(now) => CreditInv(w, now);
    case RecoverAck(now) => RecoverInv(w, now);
    case Tick(now) => TickInv(w, now);
    case CloseSender => CloseSenderInv(w);
    case Receive(p) => ReceiveInv(w, p);
    case InsertData => InsertInv(w);
    case SendAck(a) => SendAckInv(w, a);
    case Remove(s) => RemoveInv(w, s);
    case CloseReceiver => CloseReceiverInv(w);
  }
}
