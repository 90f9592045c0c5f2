/** The ARQ session manager itself (pkg/udp/arq/controller.go): an object over the buffers, the window, the
    estimators and the receiver's log, each of whose methods computes the value-level step of its half. The
    datagrams passed to sendFn are appended to `wire` and `acksOut`. */
module ArqController {
  import opened Bytes
  import opened AckWire
  import opened AckTracking
  import opened Ordering
  import opened RttEstimation
  import opened BandwidthEstimation
  import opened Congestion
  import opened SendBuffering
  import opened ArqSender
  import opened Reordering

  const IMMEDIATE_ACK_INTERVAL := 5 * MILLISECOND

  /** The selected packets up to the i-th bit are marked. */
  ghost function MarkedUpTo(m: Packets, a: Ack, limit: nat): Packets
    requires a.Valid()
  {
    map k | k in m :: if a.IsReceived(k) && k <= limit then m[k].(acked := true) else m[k]
  }

  ghost function SelectedUpTo(m: Packets, a: Ack, limit: nat): set<nat>
    requires a.Valid()
  {
    set k | k in Unacked(m) && a.IsReceived(k) && k <= limit
  }

  lemma MarkedIsAckedBy(m: Packets, a: Ack)
    requires a.Valid()
    ensures MarkedUpTo(AckedCumulatively(m, a.cumAck), a, a.cumAck + SACK_WIDTH) == AckedBy(m, a)
    ensures |set k | k in Unacked(m) && k <= a.cumAck| +
            |SelectedUpTo(AckedCumulatively(m, a.cumAck), a, a.cumAck + SACK_WIDTH)| == |NewlyAcked(m, a)|
  {
    MarkedEntries(m, a);
    SelectedSplit(m, a);
  }

  lemma MarkedEntries(m: Packets, a: Ack)
    requires a.Valid()
    ensures MarkedUpTo(AckedCumulatively(m, a.cumAck), a, a.cumAck + SACK_WIDTH) == AckedBy(m, a)
  {
    ReceivedIsNear(a);
    hide Ack.IsReceived;
    var marked, acked := MarkedUpTo(AckedCumulatively(m, a.cumAck), a, a.cumAck + SACK_WIDTH), AckedBy(m, a);
    assert marked.Keys == acked.Keys;
    assert forall k :: k in marked ==> marked[k] == acked[k];
  }

  lemma SelectedSplit(m: Packets, a: Ack)
    requires a.Valid()
    ensures |set k | k in Unacked(m) && k <= a.cumAck| +
            |SelectedUpTo(AckedCumulatively(m, a.cumAck), a, a.cumAck + SACK_WIDTH)| == |NewlyAcked(m, a)|
  {
    ReceivedIsNear(a);
    hide Ack.IsReceived;
    var cum := set k | k in Unacked(m) && k <= a.cumAck;
    var sel := SelectedUpTo(AckedCumulatively(m, a.cumAck), a, a.cumAck + SACK_WIDTH);
    forall k: nat ensures k in NewlyAcked(m, a) <==> k in cum || k in sel {
    }
    assert NewlyAcked(m, a) == cum + sel && cum !! sel;
  }

  lemma ReceivedIsNear(a: Ack)
    requires a.Valid()
    ensures forall k: nat :: a.IsReceived(k) ==> a.cumAck < k <= a.cumAck + SACK_WIDTH
  {
  }

  lemma InTail(s: seq<nat>, x: nat)
    requires Ascending(s) && s != []
    ensures x in s[1..] <==> x in s && x != s[0]
  {
    assert s == [s[0]] + s[1..];
  }

  lemma MarkNone(m: Packets, a: Ack)
    requires a.Valid()
    ensures MarkedUpTo(m, a, a.cumAck) == m && SelectedUpTo(m, a, a.cumAck) == {}
  {
  }

  /** One bit of the SACK loop. */
  lemma MarkNext(m: Packets, a: Ack, k: nat)
    requires a.Valid() && k > 0
    ensures var before, after := MarkedUpTo(m, a, k - 1), MarkedUpTo(m, a, k);
            if a.IsReceived(k) && k in before && !before[k].acked
            then after == AckedSelectively(before, k) && k !in SelectedUpTo(m, a, k - 1) &&
                 SelectedUpTo(m, a, k) == SelectedUpTo(m, a, k - 1) + {k}
            else after == before && SelectedUpTo(m, a, k) == SelectedUpTo(m, a, k - 1)
  {
  }

  /** A listing of the members of S below a bound is a prefix of the listing of S. */
  lemma {:induction false} ListingBelow(b: seq<nat>, s: seq<nat>, bound: nat)
    requires Ascending(b) && Ascending(s)
    requires forall x :: x in b <==> x in s && x < bound
    ensures b <= s
    decreases |b|
  {
    if b != [] {
      assert b[0] in s;
      var i :| 0 <= i < |s| && s[i] == b[0];
      assert s[0] in s && s[0] <= b[0] < bound;
      assert s[0] in b;
      assert i == 0;
      forall x: nat ensures x in b[1..] <==> x in s[1..] && x < bound {
        InTail(b, x);
        InTail(s, x);
      }
      ListingBelow(b[1..], s[1..], bound);
    }
  }

  lemma SameFastBatch(m: Packets, m': Packets)
    requires Unacked(m) == Unacked(m')
    ensures FastBatch(m) == FastBatch(m')
  {
  }

  lemma {:induction false} ResentAllConcat(m: Packets, a: seq<nat>, b: seq<nat>, now: int)
    ensures ResentAll(m, a + b, now) == ResentAll(ResentAll(m, a, now), b, now)
    decreases |a|
  {
    if a == [] {
      assert a + b == b;
    } else {
      assert (a + b)[1..] == a[1..] + b;
      ResentAllConcat(Resent(m, a[0], now), a[1..], b, now);
    }
  }

  lemma PacketsOfConcat(m: Packets, m': Packets, a: seq<nat>, b: seq<nat>)
    requires SameButTiming(m, m') && (forall k :: k in a ==> k in m) && (forall k :: k in b ==> k in m)
    ensures PacketsOf(m, a + b) == PacketsOf(m, a) + PacketsOf(m', b)
  {
  }

  ghost function CountedBelow(a: Ack, k: nat, j: nat): set<nat>
    requires a.Valid()
  {
    set x | x in Above(a, k) && x < j
  }

  lemma CountNext(a: Ack, k: nat, j: nat)
    requires a.Valid() && a.cumAck < k < j <= a.cumAck + SACK_WIDTH
    ensures CountedBelow(a, k, j + 1) == CountedBelow(a, k, j) + (if a.IsReceived(j) then {j} else {})
    ensures j !in CountedBelow(a, k, j)
    ensures CountedBelow(a, k, j + 1) <= Above(a, k)
  {
    assert j in a.Selected() <==> a.IsReceived(j);
  }

  lemma CountEnds(a: Ack, k: nat, j: nat)
    requires a.Valid()
    ensures j <= k + 1 ==> CountedBelow(a, k, j) == {}
    ensures (forall x :: x in a.Selected() ==> x < j) ==> CountedBelow(a, k, j) == Above(a, k)
  {
  }

  lemma SweepNext(m: Packets, batch: seq<nat>, i: nat, now: int)
    requires i < |batch| && batch[i] in m
    ensures Sweep(m, batch[i..], now) ==
            if m[batch[i]].retransmits >= MAX_RETRANSMITS then Swept(m, [], false, true) else
            var rest := Sweep(Resent(m, batch[i], now), batch[i + 1..], now);
            Swept(rest.packets, [batch[i]] + rest.resent, m[batch[i]].retransmits == 0 || rest.newLoss, rest.dead)
  {
    assert batch[i..][1..] == batch[i + 1..];
  }

  lemma SweepStarts(m: Packets, batch: seq<nat>, now: int)
    ensures batch[..0] == [] && batch[0..] == batch && ResentAll(m, [], now) == m && PacketsOf(m, []) == []
  {
  }

  lemma SweepEnds(m: Packets, batch: seq<nat>, now: int)
    ensures Sweep(m, batch[|batch|..], now) == Swept(m, [], false, false)
    ensures batch[0..] == batch && batch[..|batch|] == batch
  {
  }

  lemma PacketsOfAppend(m: Packets, ks: seq<nat>, k: nat)
    requires k in m && forall x :: x in ks ==> x in m
    ensures PacketsOf(m, ks + [k]) == PacketsOf(m, ks) + [m[k].packet]
  {
  }

  /** `batch` lists the lost packets numbered below `bound`. */
  ghost predicate BatchSoFar(batch: seq<nat>, lost: set<nat>, bound: nat) {
    Ascending(batch) && forall k :: k in batch <==> k in lost && k < bound
  }

  /** One gap of the loop: it joins the batch exactly when it is lost. */
  lemma BatchGrows(batch: seq<nat>, lost: set<nat>, k: nat)
    requires BatchSoFar(batch, lost, k)
    ensures k in lost ==> BatchSoFar(batch + [k], lost, k + 1)
    ensures k !in lost ==> BatchSoFar(batch, lost, k + 1)
  {
    assert forall i :: 0 <= i < |batch| ==> batch[i] in batch;
    forall x: nat ensures x in batch + [k] <==> x in batch || x == k {
      assert x in [k] <==> x == k;
    }
  }

  lemma Untouched(m: Packets, batch: seq<nat>, now: int, k: nat, lost: set<nat>)
    requires BatchSoFar(batch, lost, k)
    ensures k in ResentAll(m, batch, now) <==> k in m
    ensures k in m ==> ResentAll(m, batch, now)[k] == m[k]
  {
    ResentAllSame(m, batch, now);
    if k in m {
      ResentAllUntouched(m, batch, now, k);
    }
  }

  lemma LostBelowHighest(m: Packets, a: Ack, now: int, rto: nat, highest: nat)
    requires a.Valid() && forall j :: j in a.Selected() ==> j <= highest
    ensures forall k :: k in LostSet(m, a, now, rto) ==> k < highest
  {
    forall k | k in LostSet(m, a, now, rto) ensures k < highest {
      var j :| j in Above(a, k);
    }
  }

  lemma BatchIsPrefix(batch: seq<nat>, lost: set<nat>, bound: nat, highest: nat)
    requires BatchSoFar(batch, lost, bound) && |batch| <= MAX_SACK_RETRANSMIT
    requires bound == highest || |batch| == MAX_SACK_RETRANSMIT
    requires forall k :: k in lost ==> k < highest
    ensures batch == Take(Sorted(lost), MAX_SACK_RETRANSMIT)
  {
    var s := Sorted(lost);
    forall x: nat ensures x in s <==> x in lost {
      InElements(s, x);
    }
    ListingBelow(batch, s, bound);
    if bound == highest {
      assert Elements(batch) == Elements(s);
      ListingIsUnique(batch, s);
    }
  }

  /** How a Send ends: the datagram went out, the socket refused it, the session is closed, or the program would
      wait for the window. */
  datatype SendResult = Sent | Refused | SessionClosed | WouldBlock

  /** One more datagram went out, and it decodes to a report of the log. */
  ghost predicate AckAppended(before: seq<bytes>, after: seq<bytes>, log: AckLog) {
    && |after| == |before| + 1 && after[..|before|] == before
    && Decoded(after[|before|]).Ok? && Reports(Decoded(after[|before|]).value, log)
  }

  class Controller {
    const sendBuf: SendBuffer
    var nextPktNum: nat
    const cwnd: CongestionControl
    const rtt: RTTEstimator

    var recvBufs: map<nat, RecvBuffer>
    const ackState: AckState
    const recvBufSize: nat
    const maxStreams: nat

    var lastAckCumAck: nat
    var dupAckCount: nat
    var lastImmediateAck: Option<int>  // None is Go's zero time

    var closed: bool
    var dead: bool

    var wire: seq<Packet>
    var acksOut: seq<bytes>

    ghost predicate Valid()
      reads this, cwnd, cwnd.bwe, ackState
    {
      && cwnd.Valid() && ackState.Valid() && nextPktNum < UINT32_LIMIT
      && forall s, t :: s in recvBufs && t in recvBufs && s != t ==> recvBufs[s] != recvBufs[t]
    }

    ghost function SenderView(): Sender
      reads this, sendBuf, cwnd, cwnd.bwe, rtt
    {
      Sender(nextPktNum, sendBuf.packets, cwnd.View(), rtt.View(), lastAckCumAck, dupAckCount, closed, dead)
    }

    ghost function BuffersView(): map<nat, Reorder>
      reads this, recvBufs.Values
    {
      map s | s in recvBufs :: recvBufs[s].View()
    }

    constructor (sendBufSize: nat, recvBufSize: nat, maxStreams: nat, now: int)
      ensures Valid() && SenderView() == NewSender(now)
      ensures ackState.View() == FRESH_LOG && BuffersView() == map[] && wire == [] && acksOut == []
      ensures lastImmediateAck.None?
    {
      sendBuf := new SendBuffer(sendBufSize);
      nextPktNum := 0;
      cwnd := new CongestionControl(now);
      rtt := new RTTEstimator();
      recvBufs := map[];
      ackState := new AckState();
      this.recvBufSize, this.maxStreams := recvBufSize, maxStreams;
      lastAckCumAck, dupAckCount, lastImmediateAck := 0, 0, None;
      closed, dead, wire, acksOut := false, false, [], [];
    }

    // ----- sending -----

    /** Sends one packet if the window admits it; a call that is not admitted leaves buffer, numbers and window alone.
        A packet the socket refuses stays in the buffer, from where the timer will send it. */
    method Send(msgType: byte, streamID: nat, seqNum: nat, data: bytes, now: int) returns (r: SendResult)
      requires Valid() && nextPktNum + 1 < UINT32_LIMIT
      modifies this`nextPktNum, this`wire, sendBuf, cwnd
      ensures Valid()
      ensures var p := Packet(msgType, old(nextPktNum) + 1, streamID, seqNum, data);
              && SenderView() ==
                 (if r.Sent? || r.Refused? then PacketSent(old(SenderView()), p, now) else old(SenderView()))
              && wire == (if r.Sent? then old(wire) + [p] else old(wire))
    {
      var admission := cwnd.AcquireSlot(closed);
      if !admission.Admitted? {
        return if admission.Blocked? then WouldBlock else SessionClosed;
      }
      var snap := cwnd.bwe.TakeSnapshot(now);
      nextPktNum := nextPktNum + 1;
      var pkt := Packet(msgType, nextPktNum, streamID, seqNum, data);
      sendBuf.Add(pkt, snap, now);
      var accepted: bool := *;  // what sendFn answers
      if !accepted {
        return Refused;
      }
      wire := wire + [pkt];
      r := Sent;
    }

    /** Re-sends a packet of the buffer under its old number. */
    method Resend(k: nat, now: int)
      requires k in sendBuf.packets
      modifies this`wire, sendBuf
      ensures sendBuf.packets == Resent(old(sendBuf.packets), k, now)
      ensures wire == old(wire) + [old(sendBuf.packets)[k].packet]
    {
      var p := sendBuf.packets[k].packet;
      sendBuf.MarkResent(k, now);
      wire := wire + [p];
    }

    // ----- acknowledgements -----

    /** The SACK loop: marks every selected packet and counts the newly acknowledged ones. */
    method AckSelected(a: Ack) returns (acked: nat)
      requires a.Valid()
      modifies sendBuf
      ensures sendBuf.packets == MarkedUpTo(old(sendBuf.packets), a, a.cumAck + SACK_WIDTH)
      ensures acked == |SelectedUpTo(old(sendBuf.packets), a, a.cumAck + SACK_WIDTH)|
    {
      hide MarkedUpTo, SelectedUpTo, AckedSelectively;
      acked := 0;
      ghost var m := sendBuf.packets;
      MarkNone(m, a);
      for i := 0 to SACK_WIDTH
        invariant sendBuf.packets == MarkedUpTo(m, a, a.cumAck + i)
        invariant acked == |SelectedUpTo(m, a, a.cumAck + i)|
      {
        var pktNum := a.cumAck + 1 + i;
        MarkNext(m, a, pktNum);
        if a.IsReceived(pktNum) && pktNum in sendBuf.packets && !sendBuf.packets[pktNum].acked {
          sendBuf.AckSelective(pktNum);
          acked := acked + 1;
        }
      }
    }

    /** The first stage of HandleAck. */
    method AckBuffer(a: Ack, now: int) returns (credit: Credit)
      requires a.Valid()
      modifies sendBuf, rtt
      ensures credit == CreditOf(old(SenderView()), a, now)
      ensures SenderView() == BufferStage(old(SenderView()), a, now)
    {
      ghost var before := SenderView();
      var sample := None;
      if a.cumAck in sendBuf.packets && sendBuf.packets[a.cumAck].retransmits == 0 {
        var p := sendBuf.packets[a.cumAck];
        var rttSample := Since(now, p.sentAt);
        sample := Some((p.delivery, rttSample));
        rtt.Update(rttSample);
      }
      MarkedIsAckedBy(sendBuf.packets, a);
      var cumulative := sendBuf.AckCumulative(a.cumAck);
      var selective := AckSelected(a);
      credit := Credit(cumulative + selective, sample);
    }

    /** The second stage: delivered bytes, one rate sample, and the returned slots. */
    method AckCredit(c: Credit, now: int)
      requires cwnd.Valid()
      modifies cwnd, cwnd.bwe
      ensures cwnd.Valid() && SenderView() == CreditStage(old(SenderView()), c, now)
    {
      hide Sampled, AfterAck, Delivered, Consistent;
      if c.acked > 0 {
        cwnd.bwe.RecordDelivered(c.acked * PACKET_MSS, now);
        if c.sample.Some? {
          cwnd.bwe.SampleRate(c.sample.value.0, c.sample.value.1, now);
        }
        cwnd.OnAck(c.acked, now);
      }
    }

    // ----- loss recovery -----

    /** Three selected numbers above a gap: counts them up to three. */
    method ThreeAbove(a: Ack, k: nat, highest: nat) returns (r: bool)
      requires a.Valid() && a.cumAck < k < highest <= a.cumAck + SACK_WIDTH
      requires forall j :: j in a.Selected() ==> j <= highest
      ensures r <==> |Above(a, k)| >= 3
    {
      hide CountedBelow, Above;
      var laterAcked := 0;
      var j := k + 1;
      CountEnds(a, k, j);
      while j <= highest && j <= a.cumAck + 256
        invariant k < j <= highest + 1 && laterAcked < 3
        invariant laterAcked == |CountedBelow(a, k, j)|
      {
        CountNext(a, k, j);
        if a.IsReceived(j) {
          laterAcked := laterAcked + 1;
          if laterAcked >= 3 {
            SubsetSize(CountedBelow(a, k, j + 1), Above(a, k));
            return true;
          }
        }
        j := j + 1;
      }
      CountEnds(a, k, j);
      r := false;
    }

    method HighestSacked(a: Ack) returns (highest: nat)
      requires a.Valid()
      ensures highest == 0 ==> a.Selected() == {}
      ensures highest > 0 ==> highest in a.Selected() && forall j :: j in a.Selected() ==> j <= highest
    {
      var i := 255;
      while true
        invariant 0 <= i <= 255
        invariant forall j :: j in a.Selected() ==> j <= a.cumAck + 1 + i
        decreases i
      {
        if a.IsReceived(a.cumAck + 1 + i) {
          return a.cumAck + 1 + i;
        }
        assert a.cumAck + 1 + i !in a.Selected();
        if i == 0 {
          break;
        }
        i := i - 1;
      }
      assert forall j :: j in a.Selected() ==> j == a.cumAck + 1;
      highest := 0;
    }

    /** Retransmits, in order, exactly the first at most sixteen packets the acknowledgement shows as lost. */
    method SackDetect(a: Ack, now: int)
      requires a.Valid()
      modifies this`wire, sendBuf
      ensures var batch := SackBatch(old(sendBuf.packets), a, now, old(rtt.rto));
              && sendBuf.packets == ResentAll(old(sendBuf.packets), batch, now)
              && (forall k :: k in batch ==> k in old(sendBuf.packets))
              && wire == old(wire) + PacketsOf(old(sendBuf.packets), batch)
    {
      ghost var m := sendBuf.packets;
      ghost var lost := LostSet(m, a, now, rtt.rto);
      var highest := HighestSacked(a);
      if highest == 0 {
        assert forall k :: Above(a, k) == {};
        assert lost == {};
        return;
      }
      var minInterval := MinInterval(rtt.rto);
      var pktNum := a.cumAck + 1;
      ghost var batch: seq<nat> := [];
      var retxCount := 0;
      while pktNum < highest && retxCount < MAX_SACK_RETRANSMIT
        invariant a.cumAck < pktNum <= highest
        invariant retxCount == |batch| <= MAX_SACK_RETRANSMIT
        invariant BatchSoFar(batch, lost, pktNum) && (forall k :: k in batch ==> k in m)
        invariant sendBuf.packets == ResentAll(m, batch, now)
        invariant wire == old(wire) + PacketsOf(m, batch)
      {
        var three := false;
        if !a.IsReceived(pktNum) {
          three := ThreeAbove(a, pktNum, highest);
        }
        Untouched(m, batch, now, pktNum, lost);
        BatchGrows(batch, lost, pktNum);
        if three && pktNum in sendBuf.packets && !sendBuf.packets[pktNum].acked &&
           Since(now, sendBuf.packets[pktNum].lastSentAt) >= minInterval
        {
          assert pktNum in lost;
          ResentAllAppend(m, batch, pktNum, now);
          PacketsOfAppend(m, batch, pktNum);
          Resend(pktNum, now);
          batch := batch + [pktNum];
          retxCount := retxCount + 1;
        } else {
          assert pktNum !in lost;
        }
        pktNum := pktNum + 1;
      }
      LostBelowHighest(m, a, now, rtt.rto, highest);
      BatchIsPrefix(batch, lost, pktNum, highest);
    }

    /** Re-sends the lowest un-acknowledged packet. */
    method FastRetransmit(now: int)
      modifies this`wire, sendBuf
      ensures var batch := FastBatch(old(sendBuf.packets));
              && sendBuf.packets == ResentAll(old(sendBuf.packets), batch, now)
              && (forall k :: k in batch ==> k in old(sendBuf.packets))
              && wire == old(wire) + PacketsOf(old(sendBuf.packets), batch)
    {
      var first := sendBuf.FirstUnacked();
      if first.None? {
        return;
      }
      assert first.value == Least(Unacked(sendBuf.packets));
      assert [first.value][1..] == [];
      Resend(first.value, now);
    }

    /** The last stage of HandleAck: SACK gaps, then duplicate acknowledgements. */
    method AckRecover(a: Ack, now: int)
      requires a.Valid()
      modifies this`wire, this`lastAckCumAck, this`dupAckCount, sendBuf
      ensures SenderView() == RecoverStage(old(SenderView()), a, now)
      ensures var batch := RecoveryBatch(old(SenderView()), a, now);
              (forall k :: k in batch ==> k in old(sendBuf.packets)) &&
              wire == old(wire) + PacketsOf(old(sendBuf.packets), batch)
    {
      hide SackBatch, ResentAll, FastBatch, SameButTiming, Unacked;
      ghost var s, m := SenderView(), sendBuf.packets;
      ghost var sack := SackBatch(m, a, now, rtt.rto);
      SackDetect(a, now);
      ResentAllSame(m, sack, now);
      SameButTimingUnacked(m, sendBuf.packets);
      if a.cumAck == lastAckCumAck && a.cumAck > 0 {
        dupAckCount := dupAckCount + 1;
        if dupAckCount >= DUP_ACK_THRESHOLD {
          ghost var m1 := sendBuf.packets;
          SameFastBatch(m, m1);
          ResentAllConcat(m, sack, FastBatch(m), now);
          FastRetransmit(now);
          PacketsOfConcat(m, m1, sack, FastBatch(m));
          dupAckCount := 0;
        }
      } else {
        lastAckCumAck := a.cumAck;
        dupAckCount := 0;
      }
    }

    method HandleAck(data: bytes, now: int)
      requires Valid()
      modifies this`wire, this`lastAckCumAck, this`dupAckCount, sendBuf, rtt, cwnd, cwnd.bwe
      ensures Valid()
      ensures closed || Decoded(data).Err? ==> SenderView() == old(SenderView()) && wire == old(wire)
      ensures !closed && Decoded(data).Ok? ==>
                && Decoded(data).value.Valid()
                && SenderView() == AckHandled(old(SenderView()), Decoded(data).value, now)
                && wire == old(wire) + AckResends(old(SenderView()), Decoded(data).value, now)
    {
      DecodedValid(data);
      if closed {
        return;
      }
      var r := Decoded(data);
      if r.Err? {
        return;
      }
      hide BufferStage, CreditStage, RecoverStage, CreditOf, RecoveryBatch;
      var credit := AckBuffer(r.value, now);
      AckCredit(credit, now);
      AckRecover(r.value, now);
    }

    // ----- the retransmission timer -----

    method RetransmitTick(now: int)
      modifies this`wire, this`closed, this`dead, sendBuf, rtt
      ensures SenderView() == Ticked(old(SenderView()), now)
      ensures var resent := TickResent(old(SenderView()), now);
              (forall k :: k in resent ==> k in old(sendBuf.packets)) &&
              wire == old(wire) + PacketsOf(old(sendBuf.packets), resent)
    {
      hide TickBatch, SameButTiming;
      TickOnlyResends(SenderView(), now);
      var batch := ExpiredBatch(now);
      if |batch| == 0 {
        return;
      }
      var newLoss, isDead := SweepBatch(batch, now);
      if isDead {
        dead := true;
        closed := true;
        return;
      }
      if newLoss {
        rtt.Backoff();
      }
    }

    /** The expired packets, lowest number first, cut to the size of one batch. */
    method ExpiredBatch(now: int) returns (batch: seq<nat>)
      ensures batch == TickBatch(SenderView(), now)
      ensures forall k :: k in batch ==> k in sendBuf.packets
    {
      hide Sorted;
      batch := sendBuf.Expired(rtt.rto, now);
      if |batch| > MAX_RETRANSMIT_BATCH {
        batch := batch[..MAX_RETRANSMIT_BATCH];
      }
      BatchWithin(ExpiredSet(sendBuf.packets, now, rtt.rto), MAX_RETRANSMIT_BATCH);
    }

    /** The loop of RetransmitTick over the expired batch. */
    method SweepBatch(batch: seq<nat>, now: int) returns (newLoss: bool, isDead: bool)
      requires forall k :: k in batch ==> k in sendBuf.packets
      modifies this`wire, sendBuf
      ensures var swept := Sweep(old(sendBuf.packets), batch, now);
              && sendBuf.packets == swept.packets && newLoss == swept.newLoss && isDead == swept.dead
              && (forall k :: k in swept.resent ==> k in old(sendBuf.packets))
              && wire == old(wire) + PacketsOf(old(sendBuf.packets), swept.resent)
    {
      hide Sweep, ResentAll, PacketsOf, Resent;
      ghost var m := sendBuf.packets;
      newLoss, isDead := false, false;
      ghost var total := Sweep(m, batch, now);
      SweepStarts(m, batch, now);
      for i := 0 to |batch|
        invariant sendBuf.packets == ResentAll(m, batch[..i], now)
        invariant wire == old(wire) + PacketsOf(m, batch[..i])
        invariant var rest := Sweep(sendBuf.packets, batch[i..], now);
                  total == Swept(rest.packets, batch[..i] + rest.resent, newLoss || rest.newLoss, rest.dead)
      {
        var k := batch[i];
        ghost var done := batch[..i];
        ResentAllSame(m, done, now);
        SweepNext(sendBuf.packets, batch, i, now);
        var atLimit := sendBuf.IsMaxRetransmits(k);
        if atLimit {
          assert done + [] == done;
          isDead := true;
          return;
        }
        if sendBuf.packets[k].retransmits == 0 {
          newLoss := true;
        }
        ResentAllAppend(m, done, k, now);
        PacketsOfAppend(m, done, k);
        Resend(k, now);
        assert batch[..i + 1] == done + [k];
        ghost var rest := Sweep(sendBuf.packets, batch[i + 1..], now);
        assert done + ([k] + rest.resent) == (done + [k]) + rest.resent;
      }
      SweepEnds(sendBuf.packets, batch, now);
      assert batch[..|batch|] + [] == batch;
    }

    method Close()
      modifies this`closed
      ensures closed
    {
      closed := true;
    }

    // ----- receiving -----

    /** Builds an acknowledgement from the log and hands its 36 bytes to sendFn. */
    method SendAck()
      requires Valid()
      modifies this`acksOut, ackState
      ensures Valid() && ackState.seen == old(ackState.seen)
      ensures ackState.View() == AckTracking.Sent(old(ackState.View()))
      ensures AckAppended(old(acksOut), acksOut, old(ackState.View()))
    {
      var ack := ackState.BuildAck();
      ackState.AckSent();
      var data := ack.Encode();
      DecodeInvertsEncode(ack.View(), []);
      assert Encoded(ack.View()) + [] == Encoded(ack.View());
      acksOut := acksOut + [data[..]];
    }

    method RecordPktNum(pktNum: nat)
      requires Valid() && pktNum < UINT32_LIMIT
      modifies ackState
      ensures Valid()
      ensures ackState.View() == if pktNum > 0 then Record(old(ackState.View()), pktNum) else old(ackState.View())
    {
      if pktNum > 0 {
        ackState.RecordReceived(pktNum);
      }
    }

    /** Records the number, then inserts the payload into the stream's buffer if there is one. An immediate
        acknowledgement follows when a gap was seen and none went out in the last 5 ms. */
    method HandleData(pkt: Packet, now: int)
      requires Valid() && pkt.pktNum < UINT32_LIMIT
      modifies this`acksOut, this`lastImmediateAck, ackState, recvBufs.Values
      ensures Valid() && recvBufs == old(recvBufs)
      ensures closed ==>
                && ackState.View() == old(ackState.View()) && BuffersView() == old(BuffersView())
                && acksOut == old(acksOut) && lastImmediateAck == old(lastImmediateAck)
      ensures !closed ==>
                && BuffersView() == (if pkt.streamID in recvBufs
                     then old(BuffersView())[pkt.streamID :=
                            Inserted(old(BuffersView())[pkt.streamID], pkt.seqNum, pkt.data)]
                     else old(BuffersView()))
                && var log := if pkt.pktNum > 0 then Record(old(ackState.View()), pkt.pktNum) else old(ackState.View());
                   if log.immediateAck &&
                      (old(lastImmediateAck).None? || now - old(lastImmediateAck).value >= 5_000_000)
                   then ackState.View() == AckTracking.Sent(log) && AckAppended(old(acksOut), acksOut, log) &&
                        lastImmediateAck == Some(now)
                   else ackState.View() == log && acksOut == old(acksOut) && lastImmediateAck == old(lastImmediateAck)
    {
      hide Record, Inserted, Tracks, AckAppended;
      if closed {
        return;
      }
      Accept(pkt);
      var immediate := ackState.NeedsImmediateAck();
      if immediate && (lastImmediateAck.None? || now - lastImmediateAck.value >= IMMEDIATE_ACK_INTERVAL) {
        lastImmediateAck := Some(now);
        SendAck();
      }
    }

    method Accept(pkt: Packet)
      requires Valid() && pkt.pktNum < UINT32_LIMIT
      modifies ackState, recvBufs.Values
      ensures Valid()
      ensures BuffersView() == if pkt.streamID in recvBufs
                then old(BuffersView())[pkt.streamID :=
                       Inserted(old(BuffersView())[pkt.streamID], pkt.seqNum, pkt.data)]
                else old(BuffersView())
      ensures ackState.View() ==
              if pkt.pktNum > 0 then Record(old(ackState.View()), pkt.pktNum) else old(ackState.View())
    {
      hide Record, Inserted, Tracks;
      RecordPktNum(pkt.pktNum);
      if pkt.streamID in recvBufs {
        recvBufs[pkt.streamID].Insert(pkt.seqNum, pkt.data);
      }
    }

    /** Sends a delayed acknowledgement if two packets arrived since the last one or a gap was seen. */
    method AckTick()
      requires Valid()
      modifies this`acksOut, ackState
      ensures Valid()
      ensures if old(ackState.View()).pktsSinceAck >= 2 || old(ackState.View()).immediateAck
              then ackState.View() == AckTracking.Sent(old(ackState.View())) &&
                   AckAppended(old(acksOut), acksOut, old(ackState.View()))
              else ackState.View() == old(ackState.View()) && acksOut == old(acksOut)
    {
      var delayed := ackState.NeedsDelayedAck();
      var immediate := ackState.NeedsImmediateAck();
      if delayed || immediate {
        SendAck();
      }
    }

    /** Opens (or resets) the buffer of a stream; refused when a new stream would exceed the limit. */
    method CreateRecvBuffer(streamID: nat) returns (ok: bool)
      requires Valid()
      modifies this`recvBufs
      ensures Valid()
      ensures ok <==> streamID in old(recvBufs) || |old(recvBufs)| < maxStreams
      ensures BuffersView() ==
              if ok then old(BuffersView())[streamID := NewReorder(recvBufSize)] else old(BuffersView())
    {
      if streamID !in recvBufs && |recvBufs| >= maxStreams {
        return false;
      }
      var rb := new RecvBuffer(recvBufSize);
      recvBufs := recvBufs[streamID := rb];
      ok := true;
    }

    method RemoveRecvBuffer(streamID: nat)
      requires Valid()
      modifies this`recvBufs
      ensures Valid() && BuffersView() == old(BuffersView()) - {streamID}
    {
      recvBufs := recvBufs - {streamID};
    }
  }
}
