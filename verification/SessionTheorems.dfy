/** What the program promises of an ARQ session, over every run. */
module SessionTheorems {
  import opened Bytes
  import opened AckWire
  import opened AckTracking
  import opened Ordering
  import opened BandwidthEstimation
  import opened Congestion
  import opened SendBuffering
  import opened ArqSender
  import opened Reordering
  import opened Session
  import opened SessionProof
  import opened SessionRuns

  // ----- runs -----

  ghost predicate IsRun(w: World, steps: seq<Step>)
    decreases |steps|
  {
    steps == [] || (Enabled(w, steps[0]) && Sane(w) && IsRun(Next(w, steps[0]), steps[1..]))
  }

  ghost function After(w: World, steps: seq<Step>): World
    requires IsRun(w, steps)
    decreases |steps|
  {
    if steps == [] then w else After(Next(w, steps[0]), steps[1..])
  }

  /** One step leads from w to w'. */
  ghost predicate Goes(w: World, s: Step, w': World) {
    Enabled(w, s) && Sane(w) && Next(w, s) == w'
  }

  lemma {:induction false} RunInv(w: World, steps: seq<Step>)
    requires Inv(w) && IsRun(w, steps)
    ensures Inv(After(w, steps))
    decreases |steps|
  {
    hide Inv, Next, Enabled;
    if steps != [] {
      StepInv(w, steps[0]);
      RunInv(Next(w, steps[0]), steps[1..]);
    }
  }

  /** Every reachable state satisfies the invariant, and every enabled step can be taken from it. */
  lemma ReachableInv(start: int, steps: seq<Step>)
    requires IsRun(Initial(start), steps)
    ensures Inv(After(Initial(start), steps)) && Sane(After(Initial(start), steps))
  {
    InitialInv(start);
    RunInv(Initial(start), steps);
    InvParts(After(Initial(start), steps));
  }

  // ----- 1. the receive buffer never refuses a packet -----

  /** The payload of packet k has been handed to deliverFn or is held in the receive buffer of its stream. */
  ghost predicate Kept(w: World, k: nat)
    requires k in w.hist.sent && w.hist.sent[k].streamID in w.rcv.bufs
  {
    var p := w.hist.sent[k];
    var r := w.rcv.bufs[p.streamID];
    || (p.seqNum < |r.delivered| && r.delivered[p.seqNum] == p.data)
    || (p.seqNum in r.buffer && r.buffer[p.seqNum] == p.data)
  }

  lemma KeptIfInserted(r: Reorder, chunks: seq<bytes>, got: set<nat>, i: nat)
    requires Represents(r, chunks, got) && i in got
    ensures i < |chunks|
    ensures (i < |r.delivered| && r.delivered[i] == chunks[i]) || (i in r.buffer && r.buffer[i] == chunks[i])
  {
  }

  lemma KeptIfRecorded(w: World, k: nat)
    requires StreamsOk(w.streams, w.hist.sent)
    requires ReceiveOk(w.rcv.bufs, w.rcv.inserting, w.streams, w.hist.seen, w.hist.got, w.hist.removed)
    requires NetOk(w.net, w.hist.sent, w.snd.packets, w.hist.highCum, w.rcv.log, w.hist.seen)
    requires InsertingOk(w.rcv.inserting, w.net.data, w.hist.seen)
    requires k in w.hist.seen && k in w.hist.sent && IsData(w.hist.sent[k]) && w.hist.sent[k].streamID in w.rcv.bufs
    ensures Kept(w, k) || w.rcv.inserting == Some(w.hist.sent[k])
  {
    hide Represents, AckSound, BytesOk, Rising;
    var p := w.hist.sent[k];
    var s := p.streamID;
    assert BufferOk(w.rcv.bufs[s], w.hist.got[s], w.streams[s], w.hist.seen, w.rcv.inserting);
    assert StreamOk(s, w.streams[s], w.hist.sent);
    if p.seqNum in w.hist.got[s] {
      KeptIfInserted(w.rcv.bufs[s], w.streams[s].chunks, w.hist.got[s], p.seqNum);
    }
  }

  /** In every run no receive buffer ever holds more than 766 of its 1024 places, so the branch that drops a
      packet is unreachable, and every recorded data packet of an open stream was delivered or is held,
      except the one HandleData is about to insert. */
  lemma ReceiveBufferNeverFull(start: int, steps: seq<Step>)
    requires IsRun(Initial(start), steps)
    ensures var w := After(Initial(start), steps);
            && (forall s :: s in w.rcv.bufs ==> |w.rcv.bufs[s].buffer| <= MAX_HELD && !Full(w.rcv.bufs[s]))
            && (forall k :: k in w.hist.seen ==> k in w.hist.sent)
            && (forall k :: k in w.hist.seen && IsData(w.hist.sent[k]) && w.hist.sent[k].streamID in w.rcv.bufs ==>
                  Kept(w, k) || w.rcv.inserting == Some(w.hist.sent[k]))
  {
    ReachableInv(start, steps);
    var w := After(Initial(start), steps);
    BuffersBounded(w);
    RecordedWereSent(w);
    hide NetOk, LogOk, NumbersOk, AckedOk, AcknowledgedOk, CountsOk, StreamsOk, CallsOk, HolesOk, ReceiveOk;
    hide InsertingOk, Kept;
    forall k | k in w.hist.seen && IsData(w.hist.sent[k]) && w.hist.sent[k].streamID in w.rcv.bufs
      ensures Kept(w, k) || w.rcv.inserting == Some(w.hist.sent[k])
    {
      assert Inv(w);
      KeptIfRecorded(w, k);
    }
  }

  lemma BuffersBounded(w: World)
    requires Inv(w)
    ensures forall s :: s in w.rcv.bufs ==> |w.rcv.bufs[s].buffer| <= MAX_HELD && !Full(w.rcv.bufs[s])
  {
    hide NetOk, LogOk, NumbersOk, AckedOk, AcknowledgedOk, CountsOk, StreamsOk, CallsOk, HolesOk, InsertingOk;
    forall s | s in w.rcv.bufs ensures |w.rcv.bufs[s].buffer| <= MAX_HELD && !Full(w.rcv.bufs[s]) {
      assert BufferOk(w.rcv.bufs[s], w.hist.got[s], w.streams[s], w.hist.seen, w.rcv.inserting);
    }
  }

  lemma RecordedWereSent(w: World)
    requires Inv(w)
    ensures forall k :: k in w.hist.seen ==> k in w.hist.sent
  {
    hide NetOk, NumbersOk, AckedOk, AcknowledgedOk, CountsOk, StreamsOk, CallsOk, HolesOk, ReceiveOk, InsertingOk;
  }

  // ----- 2. end-to-end: what is delivered is a prefix of what was written -----

  ghost function DeliveredTo(w: World, s: nat): seq<bytes>
    requires s in w.rcv.bufs || s in w.hist.removed
  {
    if s in w.rcv.bufs then w.rcv.bufs[s].delivered else w.hist.removed[s].delivered
  }

  /** In every run, for every stream: the payloads handed to deliverFn are the first chunks of the stream, each once
      and in order; chunk i is the stretch of the bytes passed to Write that starts `skipped[i]` bytes beyond the
      chunks before it, where `skipped` counts what failed Writes gave up before it was cut; and as long as no
      delivered chunk was cut after such a loss, the delivered bytes are a prefix of the bytes passed to Write. */
  lemma DeliveredIsPrefixOfWritten(start: int, steps: seq<Step>, s: nat)
    requires IsRun(Initial(start), steps) && s in After(Initial(start), steps).streams
    ensures var w := After(Initial(start), steps);
            var st := w.streams[s];
            && (s in w.rcv.bufs || s in w.hist.removed)
            && DeliveredTo(w, s) <= st.chunks
            && BytesOk(st)
            && (NothingSkipped(st, |DeliveredTo(w, s)|) ==> Flat(DeliveredTo(w, s)) <= st.written)
  {
    hide Inv, BytesOk, Carried;
    ReachableInv(start, steps);
    var w := After(Initial(start), steps);
    DeliveredChunks(w, s);
    var st, n := w.streams[s], |DeliveredTo(w, s)|;
    if NothingSkipped(st, n) {
      UnskippedIsPrefix(st, n);
      assert st.chunks[..n] == DeliveredTo(w, s);
    }
  }

  lemma DeliveredChunks(w: World, s: nat)
    requires Inv(w) && s in w.streams
    ensures s in w.rcv.bufs || s in w.hist.removed
    ensures DeliveredTo(w, s) <= w.streams[s].chunks && BytesOk(w.streams[s])
  {
    hide NetOk, LogOk, NumbersOk, AckedOk, AcknowledgedOk, CountsOk, CallsOk, HolesOk, InsertingOk, BufferOk;
    hide BytesOk;
    assert StreamOk(s, w.streams[s], w.hist.sent);
    assert s in w.rcv.bufs.Keys + w.hist.removed.Keys;
    if s in w.rcv.bufs {
      DeliveredSoFar(w.rcv.bufs[s], w.hist.got[s], w.streams[s], w.hist.seen, w.rcv.inserting);
    }
  }

  /** None of the first n chunks was cut after a failed Write had given up bytes. */
  ghost predicate NothingSkipped(st: Stream, n: nat) {
    forall i :: 0 <= i < n && i < |st.skipped| ==> st.skipped[i] == 0
  }

  /** The position of a byte passed to Write that one of the first n chunks carries. */
  ghost predicate Carried(st: Stream, n: nat, pos: nat)
    requires n <= |st.chunks| == |st.skipped|
  {
    exists i :: 0 <= i < n && InChunk(st, i, pos)
  }

  ghost predicate InChunk(st: Stream, i: nat, pos: nat)
    requires i < |st.chunks| == |st.skipped|
  {
    Offset(st, i) <= pos < Offset(st, i) + |st.chunks[i]|
  }

  lemma CarriedByLast(st: Stream, n: nat, pos: nat)
    requires 0 < n <= |st.chunks| == |st.skipped|
    ensures Carried(st, n, pos) <==> Carried(st, n - 1, pos) || InChunk(st, n - 1, pos)
  {
    hide InChunk;
    if Carried(st, n - 1, pos) {
      var i :| 0 <= i < n - 1 && InChunk(st, i, pos);
      assert InChunk(st, i, pos) && i < n;
    }
  }

  lemma {:induction false} UnskippedIsPrefix(st: Stream, n: nat)
    requires BytesOk(st) && n <= |st.chunks| && NothingSkipped(st, n)
    ensures Flat(st.chunks[..n]) <= st.written
    ensures forall pos: nat :: Carried(st, n, pos) <==> pos < |Flat(st.chunks[..n])|
  {
    if n > 0 {
      var init, chunk := st.chunks[..n - 1], st.chunks[n - 1];
      UnskippedIsPrefix(st, n - 1);
      assert ChunkOk(st, n - 1);
      hide BytesOk, Carried, Flat;
      assert st.chunks[..n] == init + [chunk];
      FlatAppend(init, chunk);
      assert Offset(st, n - 1) == |Flat(init)|;
      forall pos: nat ensures Carried(st, n, pos) <==> pos < |Flat(st.chunks[..n])| {
        CarriedByLast(st, n, pos);
      }
    } else {
      assert st.chunks[..n] == [];
    }
  }

  /** Chunks follow each other in the written bytes without overlapping. */
  lemma {:induction false} OffsetsFollow(st: Stream, i: nat, j: nat)
    requires BytesOk(st) && i < j < |st.chunks|
    ensures Offset(st, i) + |st.chunks[i]| <= Offset(st, j)
    ensures |Flat(st.chunks[..i])| + |st.chunks[i]| <= |Flat(st.chunks[..j])|
    decreases j
  {
    assert st.chunks[..j] == st.chunks[..j - 1] + [st.chunks[j - 1]];
    FlatAppend(st.chunks[..j - 1], st.chunks[j - 1]);
    if i < j - 1 {
      OffsetsFollow(st, i, j - 1);
    }
  }

  ghost predicate CarriesInitialStretch(st: Stream, n: nat)
    requires n <= |st.chunks| == |st.skipped|
  {
    forall pos: nat, before: nat :: Carried(st, n, pos) && before < pos ==> Carried(st, n, before)
  }

  lemma SkippedLeavesAHole(st: Stream, n: nat, i: nat)
    requires BytesOk(st) && i < n <= |st.chunks| && NothingSkipped(st, i) && st.skipped[i] > 0
    ensures !CarriesInitialStretch(st, n)
  {
    assert ChunkOk(st, i) && InChunk(st, i, Offset(st, i));
    var hole := |Flat(st.chunks[..i])|;
    forall j | 0 <= j < n ensures !InChunk(st, j, hole) {
      if j < i {
        OffsetsFollow(st, j, i);
      } else if i < j {
        OffsetsFollow(st, i, j);
      }
    }
    assert Carried(st, n, Offset(st, i)) && !Carried(st, n, hole);
  }

  /** The bytes of the first n chunks fill an initial stretch of the bytes passed to Write, leaving no byte out,
      exactly when none of these chunks was cut after a failed Write had given up bytes. */
  lemma InitialStretchIffNothingSkipped(st: Stream, n: nat)
    requires BytesOk(st) && n <= |st.chunks|
    ensures CarriesInitialStretch(st, n) <==> NothingSkipped(st, n)
  {
    if NothingSkipped(st, n) {
      UnskippedIsPrefix(st, n);
    } else {
      var i := 0;
      while st.skipped[i] == 0
        invariant i < n && NothingSkipped(st, i)
        invariant exists j :: i <= j < n && st.skipped[j] != 0
        decreases n - i
      {
        i := i + 1;
      }
      SkippedLeavesAHole(st, n, i);
    }
  }

  /** Once every chunk of an open stream has been recorded and inserted, all of them have been delivered; with no
      failed Write those are all bytes cut so far. */
  lemma AllRecordedMeansAllDelivered(w: World, s: nat)
    requires Inv(w) && s in w.rcv.bufs && s in w.streams && w.rcv.inserting.None?
    requires forall i :: 0 <= i < |w.streams[s].chunks| ==>
               i in w.streams[s].nums && w.streams[s].nums[i] in w.hist.seen
    ensures var st := w.streams[s];
            && w.rcv.bufs[s].delivered == st.chunks
            && |Flat(w.rcv.bufs[s].delivered)| + st.lost + |st.todo| == |st.written|
            && (st.lost == 0 ==> Flat(w.rcv.bufs[s].delivered) + st.todo == st.written)
  {
    hide NetOk, LogOk, NumbersOk, AckedOk, AcknowledgedOk, CountsOk, CallsOk, HolesOk, InsertingOk, BufferOk;
    AllGotMeansAllDelivered(w.rcv.bufs[s], w.hist.got[s], w.streams[s], w.hist.seen);
    assert StreamOk(s, w.streams[s], w.hist.sent);
    if w.streams[s].lost == 0 {
      NothingLost(w.streams[s]);
    }
  }

  lemma NothingLost(st: Stream)
    requires BytesOk(st) && st.lost == 0
    ensures Flat(st.chunks) + st.todo == st.written
  {
    forall i | 0 <= i < |st.skipped| ensures st.skipped[i] == 0 {
      assert ChunkOk(st, i);
    }
    UnskippedIsPrefix(st, |st.chunks|);
    assert st.chunks[..|st.chunks|] == st.chunks;
  }

  lemma AllGotMeansAllDelivered(r: Reorder, got: set<nat>, st: Stream, seen: set<nat>)
    requires BufferOk(r, got, st, seen, None)
    requires forall i :: 0 <= i < |st.chunks| ==> i in st.nums && st.nums[i] in seen
    ensures r.delivered == st.chunks
  {
    assert forall i :: 0 <= i < |st.chunks| ==> i in got;
    assert st.chunks[..|st.chunks|] == st.chunks;
  }

  // ----- 3. acknowledgements are sound and never leave a hole -----

  /** In every run: whatever the sender treats as acknowledged the receiver has recorded; a packet that left the
      send buffer is covered by a processed cumulative acknowledgement, below which everything is recorded. */
  lemma AcknowledgedWasRecorded(start: int, steps: seq<Step>)
    requires IsRun(Initial(start), steps)
    ensures var w := After(Initial(start), steps);
            && w.hist.acknowledged <= w.hist.seen
            && w.hist.highCum <= w.rcv.log.cumAck
            && (forall k :: 1 <= k <= w.rcv.log.cumAck ==> k in w.hist.seen)
            && (forall k :: k in w.hist.sent && k !in w.snd.packets ==>
                  k <= w.hist.highCum || exists c :: HoldsNumber(w.calls, c, k))
  {
    ReachableInv(start, steps);
    var w := After(Initial(start), steps);
    AcknowledgedParts(w);
  }

  lemma AcknowledgedParts(w: World)
    requires Inv(w)
    ensures w.hist.acknowledged <= w.hist.seen && w.hist.highCum <= w.rcv.log.cumAck
    ensures forall k :: 1 <= k <= w.rcv.log.cumAck ==> k in w.hist.seen
    ensures forall k :: k in w.hist.sent && k !in w.snd.packets ==>
              k <= w.hist.highCum || exists c :: HoldsNumber(w.calls, c, k)
  {
    hide NetOk, CountsOk, StreamsOk, CallsOk, HolesOk, ReceiveOk, InsertingOk;
    forall k | k in w.hist.sent && k !in w.snd.packets && k > w.hist.highCum
      ensures exists c :: HoldsNumber(w.calls, c, k)
    {
      assert !IsStored(k, w.snd.packets, w.hist.highCum);
    }
  }

  /** One acknowledgement taken off the wire, however old or repeated, newly marks only recorded packets and
      removes only packets its cumulative number covers. */
  lemma TakenAckIsSound(w: World, d: bytes, now: int)
    requires Inv(w) && Enabled(w, TakeAck(d, now)) && Decoded(d).value.Valid()
    ensures var a := Decoded(d).value;
            var m, m' := w.snd.packets, TakeAckStep(w, a, now).snd.packets;
            && (forall k :: k in m && k !in m' ==> k <= a.cumAck && k in w.hist.seen)
            && (forall k :: k in m' ==> k in m)
            && (forall k :: k in m' && m'[k].acked && !m[k].acked ==> k in w.hist.seen)
  {
    hide NumbersOk, AckedOk, AcknowledgedOk, CountsOk, StreamsOk, CallsOk, HolesOk, ReceiveOk, InsertingOk;
    var a := Decoded(d).value;
    assert AckSound(a, w.rcv.log, w.hist.seen);
    forall k | k in w.snd.packets && k <= a.cumAck ensures k in w.hist.seen {
      PacketNumbersArePositive(w);
    }
  }

  lemma PacketNumbersArePositive(w: World)
    requires Inv(w)
    ensures forall k :: k in w.snd.packets ==> k > 0
  {
    hide NetOk, LogOk, AckedOk, AcknowledgedOk, CountsOk, StreamsOk, CallsOk, HolesOk, ReceiveOk, InsertingOk;
  }

  // ----- 4. conservation -----

  /** In every run: slots acquired = inFlight + distinct packets acknowledged, less those acknowledged but not yet
      returned by OnAck; delivered bytes = 1340 times the acknowledged packets already returned; OnAck is never
      asked to return more than is in flight; 4 <= cwnd <= 512 and inFlight <= 512. */
  lemma SlotsAreConserved(start: int, steps: seq<Step>)
    requires IsRun(Initial(start), steps)
    ensures var w := After(Initial(start), steps);
            var owed := Owed(w.handling);
            && w.hist.slots == w.snd.window.inFlight + |w.hist.acknowledged| - owed
            && w.snd.window.bwe.delivered == PACKET_MSS * (|w.hist.acknowledged| - owed)
            && owed <= w.snd.window.inFlight
            && MIN_CWND <= w.snd.window.cwnd <= MAX_CWND && w.snd.window.inFlight <= MAX_CWND
  {
    ReachableInv(start, steps);
    var w := After(Initial(start), steps);
    hide NetOk, LogOk, NumbersOk, AckedOk, AcknowledgedOk, StreamsOk, CallsOk, HolesOk, ReceiveOk, InsertingOk;
    assert Inv(w);
  }

  // ----- 5. the send buffer stays far below its configured size -----

  lemma SendBufferBound(packets: Packets, seen: set<nat>, highCum: nat)
    requires AckedOk(packets, seen, highCum) && |Unacked(packets)| <= MAX_CWND
    requires forall k :: k in packets ==> k > highCum
    ensures |packets| <= MAX_BUFFERED
  {
    var acked := set k | k in packets && packets[k].acked;
    assert packets.Keys == acked + Unacked(packets) && acked !! Unacked(packets);
    BoundedSize(acked, highCum, highCum + SACK_WIDTH);
  }

  lemma BufferedAboveCum(w: World)
    requires NumbersOk(w.snd.next, w.hist.sent, w.snd.packets, w.hist.highCum, w.calls)
    requires CountsOk(w.snd.window, Unacked(w.snd.packets), Holders(w.calls), Owed(w.handling), w.hist.slots,
                      w.hist.acknowledged)
    ensures |Unacked(w.snd.packets)| <= MAX_CWND
    ensures forall k :: k in w.snd.packets ==> k > w.hist.highCum
  {
    hide Unacked, Holders;
  }

  /** In every run the send buffer, whose capacity Add never checks, holds at most 768 of its 2048 entries. */
  lemma SendBufferNeverFull(start: int, steps: seq<Step>)
    requires IsRun(Initial(start), steps)
    ensures |After(Initial(start), steps).snd.packets| <= MAX_BUFFERED < SEND_BUF_SIZE
  {
    ReachableInv(start, steps);
    var w := After(Initial(start), steps);
    hide NetOk, LogOk, NumbersOk, AckedOk, AcknowledgedOk, CountsOk, StreamsOk, CallsOk, HolesOk, ReceiveOk;
    hide InsertingOk;
    assert Inv(w);
    BufferedAboveCum(w);
    SendBufferBound(w.snd.packets, w.hist.seen, w.hist.highCum);
  }

  // ----- 6. progress -----

  /** Some Send has taken a number below p and has not stored its packet yet. */
  ghost predicate PendingBelow(w: World, p: nat) {
    exists c: nat, k: nat :: k < p && HoldsNumber(w.calls, c, k)
  }

  /** Everything below the lowest un-acknowledged packet has been recorded, save what is not stored yet. */
  lemma RecordedBelow(w: World, p: nat, k: nat)
    requires Inv(w) && IsLeast(p, Unacked(w.snd.packets)) && 1 <= k < p && !PendingBelow(w, p)
    ensures k in w.hist.seen
  {
    hide NetOk, AcknowledgedOk, CountsOk, StreamsOk, CallsOk, HolesOk, ReceiveOk, InsertingOk;
    assert p in w.hist.sent && k in w.hist.sent && k !in Unacked(w.snd.packets);
    assert forall c: nat :: HoldsNumber(w.calls, c, k) ==> PendingBelow(w, p);
    assert IsStored(k, w.snd.packets, w.hist.highCum);
  }

  /** Delivering the packet fastRetransmit picks makes the cumulative acknowledgement cover it, exactly when no
      Send sits between taking a lower number and storing its packet. */
  lemma LowestUnackedClosesTheGap(w: World, p: nat)
    requires Inv(w) && IsLeast(p, Unacked(w.snd.packets)) && p in w.hist.sent
    ensures ReceiveStep(w, w.hist.sent[p]).rcv.log.cumAck >= p <==> !PendingBelow(w, p)
  {
    var w' := ReceiveStep(w, w.hist.sent[p]);
    var seen' := w.hist.seen + {p};
    NumberedMatch(w, p);
    assert Tracks(w'.rcv.log, seen') by {
      hide NetOk, NumbersOk, AckedOk, AcknowledgedOk, CountsOk, StreamsOk, CallsOk, HolesOk, ReceiveOk, InsertingOk;
      RecordTracks(w.rcv.log, w.hist.seen, p);
    }
    hide Inv;
    if PendingBelow(w, p) {
      var c: nat, k: nat :| k < p && HoldsNumber(w.calls, c, k);
      PendingNotRecorded(w, c, k);
      assert k !in seen';
    } else {
      forall k | 1 <= k <= p ensures k in seen' {
        if k < p {
          RecordedBelow(w, p, k);
        }
      }
      assert w'.rcv.log.cumAck < p ==> w'.rcv.log.cumAck + 1 in seen';
    }
  }

  lemma NumberedMatch(w: World, p: nat)
    requires Inv(w) && p in w.hist.sent
    ensures w.hist.sent[p].pktNum == p > 0
  {
    hide NetOk, LogOk, AckedOk, AcknowledgedOk, CountsOk, StreamsOk, CallsOk, HolesOk, ReceiveOk, InsertingOk;
  }

  lemma PendingNotRecorded(w: World, c: nat, k: nat)
    requires Inv(w) && HoldsNumber(w.calls, c, k)
    ensures k > 0 && k !in w.hist.seen
  {
    hide NetOk, AckedOk, AcknowledgedOk, CountsOk, StreamsOk, CallsOk, HolesOk, ReceiveOk, InsertingOk;
  }

  lemma CumAckGrowsByStep(w: World, step: Step)
    requires Enabled(w, step) && Sane(w)
    ensures Next(w, step).rcv.log.cumAck >= w.rcv.log.cumAck
    ensures w.net.acks <= Next(w, step).net.acks
  {
    hide BufferStage, CreditStage, RecoverStage, Ticked, CreditOf, RecoveryBatch, TickResent;
  }

  lemma {:induction false} CumAckGrows(w: World, steps: seq<Step>)
    requires IsRun(w, steps)
    ensures After(w, steps).rcv.log.cumAck >= w.rcv.log.cumAck
    ensures w.net.acks <= After(w, steps).net.acks
    decreases |steps|
  {
    hide Enabled, Next;
    if steps != [] {
      CumAckGrowsByStep(w, steps[0]);
      CumAckGrows(Next(w, steps[0]), steps[1..]);
    }
  }

  /** Taking an acknowledgement whose cumulative number covers p leaves p acknowledged and, if it was not,
      strictly shrinks the un-acknowledged set. */
  lemma CoveredIsReleased(w: World, a: Ack, p: nat, now: int)
    requires a.Valid() && a.cumAck >= p
    ensures var m, m' := w.snd.packets, TakeAckStep(w, a, now).snd.packets;
            && p !in Unacked(m') && Unacked(m') <= Unacked(m)
            && (p in Unacked(m) ==> |Unacked(m')| < |Unacked(m)|)
  {
    var m := w.snd.packets;
    AckedByUnacked(m, a);
    if p in Unacked(m) {
      assert p in NewlyAcked(m, a);
      SubsetSize({p}, NewlyAcked(m, a));
    }
  }

  /** Progress from every reachable state with an un-acknowledged packet: deliver the packet fastRetransmit picks,
      build an acknowledgement after any further run, take it after any further run, and the packet is
      acknowledged, shrinking the un-acknowledged set if nothing acknowledged it before. */
  lemma FastRetransmitMakesProgress(w: World, p: nat, middle: seq<Step>, a: Ack, last: seq<Step>, now: int)
    requires Inv(w) && IsLeast(p, Unacked(w.snd.packets)) && !PendingBelow(w, p)
    requires p in w.hist.sent && w.hist.sent[p] in w.net.data && w.rcv.inserting.None?
    requires var w1 := ReceiveStep(w, w.hist.sent[p]);
             IsRun(w1, middle) && Reports(a, After(w1, middle).rcv.log) &&
             IsRun(SendAckStep(After(w1, middle), a), last)
    ensures var w1 := ReceiveStep(w, w.hist.sent[p]);
            var w3 := After(SendAckStep(After(w1, middle), a), last);
            var m, m' := w3.snd.packets, TakeAckStep(w3, a, now).snd.packets;
            && Encoded(a) in w3.net.acks && Decoded(Encoded(a)) == Ok(a)
            && p !in Unacked(m') && Unacked(m') <= Unacked(m)
            && (p in Unacked(m) ==> |Unacked(m')| < |Unacked(m)|)
  {
    var w1 := ReceiveStep(w, w.hist.sent[p]);
    LowestUnackedClosesTheGap(w, p);
    hide Inv, ReceiveStep, TakeAckStep, PendingBelow;
    CumAckGrows(w1, middle);
    var w2 := After(w1, middle);
    var w2' := SendAckStep(w2, a);
    CumAckGrows(w2', last);
    DecodeInvertsEncode(a, []);
    assert Encoded(a) + [] == Encoded(a);
    CoveredIsReleased(After(w2', last), a, p, now);
  }

  /** The third duplicate acknowledgement puts exactly that packet back on the wire. */
  lemma ThirdDuplicateResendsLowest(w: World, a: Ack, now: int)
    requires Inv(w) && a.Valid() && FiresFastRetransmit(w.snd, a) && Unacked(w.snd.packets) != {}
    ensures var p := Least(Unacked(w.snd.packets));
            p in w.hist.sent && w.hist.sent[p] in RecoverStep(w, a, now).net.data
  {
    hide NetOk, LogOk, AckedOk, AcknowledgedOk, CountsOk, StreamsOk, CallsOk, HolesOk, ReceiveOk, InsertingOk;
    hide SackBatch;
    var p := Least(Unacked(w.snd.packets));
    var batch := RecoveryBatch(w.snd, a, now);
    assert p == batch[|batch| - 1];
    assert p in batch && p in w.snd.packets;
    assert w.snd.packets[p].packet in Datagrams(w.snd.packets, batch);
  }

  // ----- the uninterrupted calls of the controller are runs of these steps -----

  /** An uninterrupted HandleAck of an acknowledgement off the wire is the run TakeAck, CreditAck, RecoverAck: it
      computes what Controller.HandleAck computes and puts the same packets back on the wire. */
  lemma HandleAckIsThreeSteps(w: World, d: bytes, now: int)
    requires Sane(w) && w.handling.Ready? && !w.snd.closed && d in w.net.acks && Decoded(d).Ok?
    ensures Decoded(d).value.Valid()
    ensures var a := Decoded(d).value;
            var steps := [TakeAck(d, now), CreditAck(now), RecoverAck(now)];
            && IsRun(w, steps)
            && var w' := After(w, steps);
               && w'.snd == AckHandled(w.snd, a, now) && w'.handling.Ready?
               && w'.net.data == w.net.data + (set p | p in AckResends(w.snd, a, now))
               && w'.net.acks == w.net.acks
  {
    hide Decoded, Goes, Sane, BufferStage, CreditStage, RecoverStage, RecoveryBatch, Consistent;
    DecodedValid(d);
    var a := Decoded(d).value;
    TakeGoes(w, d, now);
    var taken := TakeAckStep(w, a, now);
    CreditGoes(taken, now);
    var credited := CreditStep(taken, now);
    RecoverGoes(credited, now);
    ResendsAreDatagrams(credited.snd, a, now);
    ThreeStepsRun(w, TakeAck(d, now), taken, CreditAck(now), credited, RecoverAck(now), RecoverStep(credited, a, now));
  }

  lemma ThreeStepsRun(w: World, s: Step, w1: World, t: Step, w2: World, u: Step, w3: World)
    requires Goes(w, s, w1) && Goes(w1, t, w2) && Goes(w2, u, w3)
    ensures IsRun(w, [s, t, u]) && After(w, [s, t, u]) == w3
  {
    hide Enabled, Sane, Next;
    assert [s, t, u][1..] == [t, u] && [t, u][1..] == [u] && [u][1..] == [];
    assert IsRun(w2, [u]) && After(w2, [u]) == w3;
    assert IsRun(w1, [t, u]) && After(w1, [t, u]) == w3;
  }

  lemma TakeGoes(w: World, d: bytes, now: int)
    requires Sane(w) && w.handling.Ready? && !w.snd.closed && d in w.net.acks && Decoded(d).Ok?
    ensures var a := Decoded(d).value;
            && a.Valid() && Consistent(w.snd.window.bwe)
            && Goes(w, TakeAck(d, now), TakeAckStep(w, a, now)) && Sane(TakeAckStep(w, a, now))
  {
    DecodedValid(d);
    hide Decoded, AckedBy, CreditOf, SampleOf, NewlyAcked;
  }

  lemma CreditGoes(w: World, now: int)
    requires Sane(w) && w.handling.Crediting? && w.handling.ack.Valid()
    ensures Consistent(w.snd.window.bwe)
    ensures Goes(w, CreditAck(now), CreditStep(w, now)) && Sane(CreditStep(w, now))
  {
    hide Credited, Busy, Reports, Decoded, AckTracking.Record, Reordering.Inserted, Consistent;
    CreditConsistent(w.snd.window, w.handling.credit, now);
  }

  lemma CreditConsistent(w: Window, c: Credit, now: int)
    requires Consistent(w.bwe)
    ensures Consistent(Credited(w, c, now).bwe)
  {
    hide Credited, Consistent;
    CreditBytes(w, c, now);
  }

  lemma RecoverGoes(w: World, now: int)
    requires Sane(w) && w.handling.Recovering?
    ensures w.handling.ack.Valid() && Goes(w, RecoverAck(now), RecoverStep(w, w.handling.ack, now))
  {
    hide RecoverStep;
  }

  lemma ResendsAreDatagrams(s: Sender, a: Ack, now: int)
    requires a.Valid()
    ensures forall k :: k in RecoveryBatch(s, a, now) ==> k in s.packets
    ensures Datagrams(s.packets, RecoveryBatch(s, a, now)) ==
            set p | p in PacketsOf(s.packets, RecoveryBatch(s, a, now))
  {
    RecoveryOnlyResends(s, a, now);
    var batch := RecoveryBatch(s, a, now);
    hide RecoveryBatch, RecoverStage;
    var ps := PacketsOf(s.packets, batch);
    forall p | p in Datagrams(s.packets, batch) ensures p in ps {
      var k :| k in batch && s.packets[k].packet == p;
      var i :| 0 <= i < |batch| && batch[i] == k;
      assert ps[i] == p;
    }
    forall p | p in ps ensures p in Datagrams(s.packets, batch) {
      var i :| 0 <= i < |ps| && ps[i] == p;
      assert batch[i] in batch;
    }
  }

  /** Send without interruption is Acquire, Number, Store, Transmit, and transmits the packet it stored. */
  lemma SendIsFourSteps(w: World, c: nat, now: int)
    requires InPhase(w.calls, c, Waiting) && CanAcquire(w.snd.window)
    ensures var p := w.calls[c].packet.(pktNum := w.snd.next + 1);
            var stored := StoreStep(NumberStep(AcquireStep(w, c), c, now), c, now);
            && TransmitStep(stored, c).snd == PacketSent(w.snd, p, now)
            && p in TransmitStep(stored, c).net.data
  {
  }
}
