/** The sending half of a Controller as a value, and what each of its entry points does to that value
    (pkg/udp/arq/controller.go). */
module ArqSender {
  import opened Bytes
  import opened AckWire
  import opened Ordering
  import opened RttEstimation
  import opened BandwidthEstimation
  import opened Congestion
  import opened SendBuffering

  const MAX_RETRANSMIT_BATCH := 32
  const MAX_SACK_RETRANSMIT := 16
  const MIN_RESEND_INTERVAL := 20 * MILLISECOND
  const DUP_ACK_THRESHOLD := 3

  datatype Sender = Sender(
    next: nat, packets: Packets, window: Window, rtt: Rtt,
    lastAckCumAck: nat, dupAckCount: nat, closed: bool, dead: bool)

  function NewSender(now: int): Sender {
    Sender(0, map[], NewWindow(now), FRESH_RTT, 0, 0, false, false)
  }

  /** Elapsed monotonic time. */
  function Since(now: int, t: int): nat {
    Max(now - t, 0)
  }

  // ----- HandleAck, in the three stages between which other goroutines may run -----

  /** What the buffer stage found out: how many packets are newly acknowledged and the rate snapshot, if any. */
  datatype Credit = Credit(acked: nat, sample: Option<(Snapshot, nat)>)

  /** Karn's rule: only a packet never retransmitted yields an RTT sample. */
  function SampleOf(s: Sender, a: Ack, now: int): Option<(Snapshot, nat)> {
    if a.cumAck in s.packets && s.packets[a.cumAck].retransmits == 0
    then Some((s.packets[a.cumAck].delivery, Since(now, s.packets[a.cumAck].sentAt)))
    else None
  }

  ghost function BufferStage(s: Sender, a: Ack, now: int): Sender
    requires a.Valid()
  {
    var sample := SampleOf(s, a, now);
    s.(packets := AckedBy(s.packets, a),
       rtt := if sample.Some? then Updated(s.rtt, sample.value.1) else s.rtt)
  }

  ghost function CreditOf(s: Sender, a: Ack, now: int): Credit
    requires a.Valid()
  {
    Credit(|NewlyAcked(s.packets, a)|, SampleOf(s, a, now))
  }

  /** Delivered bytes are counted and at most one rate is sampled. */
  function Estimated(b: Bandwidth, c: Credit, now: int): Bandwidth
    requires Consistent(b)
  {
    var counted := Delivered(b, c.acked * PACKET_MSS, now);
    if c.acked > 0 && c.sample.Some? then Sampled(counted, c.sample.value.0, c.sample.value.1, now) else counted
  }

  function Credited(w: Window, c: Credit, now: int): Window
    requires Consistent(w.bwe)
  {
    if c.acked == 0 then w else AfterAck(w.(bwe := Estimated(w.bwe, c, now)), c.acked, now)
  }

  function CreditStage(s: Sender, c: Credit, now: int): Sender
    requires Consistent(s.window.bwe)
  {
    s.(window := Credited(s.window, c, now))
  }

  /** A whole uninterrupted HandleAck. */
  ghost function AckHandled(s: Sender, a: Ack, now: int): Sender
    requires a.Valid() && Consistent(s.window.bwe)
  {
    RecoverStage(CreditStage(BufferStage(s, a, now), CreditOf(s, a, now), now), a, now)
  }

  /** A whole uninterrupted Send of an admitted packet. */
  function PacketSent(s: Sender, p: Packet, now: int): Sender {
    var admitted := Acquired(s.window);
    s.(window := admitted, next := p.pktNum,
       packets := s.packets[p.pktNum := NewlySent(p, now, SnapshotOf(admitted.bwe, now))])
  }

  /** The datagrams the listed retransmissions put on the wire, in order. */
  function PacketsOf(m: Packets, ks: seq<nat>): seq<Packet>
    requires forall k :: k in ks ==> k in m
  {
    seq(|ks|, i requires 0 <= i < |ks| => m[ks[i]].packet)
  }

  // ----- SACK-gap loss detection -----

  ghost function Above(a: Ack, k: nat): set<nat>
    requires a.Valid()
  {
    set j | j in a.Selected() && j > k
  }

  function MinInterval(rto: nat): nat {
    Max(rto / 2, MIN_RESEND_INTERVAL)
  }

  /** A packet the acknowledgement shows as lost: an un-acknowledged gap with three selected numbers above it,
      not sent within the last max(RTO/2, 20 ms). */
  ghost predicate IsLost(m: Packets, a: Ack, k: nat, now: int, rto: nat)
    requires a.Valid()
  {
    && a.cumAck < k && !a.IsReceived(k) && |Above(a, k)| >= 3
    && k in m && !m[k].acked && Since(now, m[k].lastSentAt) >= MinInterval(rto)
  }

  ghost function LostSet(m: Packets, a: Ack, now: int, rto: nat): set<nat>
    requires a.Valid()
  {
    set k | k in m && IsLost(m, a, k, now, rto)
  }

  /** The packets one acknowledgement makes sackDetect retransmit, in order. */
  ghost function SackBatch(m: Packets, a: Ack, now: int, rto: nat): seq<nat>
    requires a.Valid()
  {
    Take(Sorted(LostSet(m, a, now, rto)), MAX_SACK_RETRANSMIT)
  }

  /** The lost packets, written out: un-acknowledged gaps with three selected numbers above them whose last
      transmission is at least half an RTO and at least 20 ms old. */
  lemma LostExactly(m: Packets, a: Ack, now: int, rto: nat, k: nat)
    requires a.Valid()
    ensures k in LostSet(m, a, now, rto) <==>
              && k in m && !m[k].acked && a.cumAck < k && k !in a.Selected()
              && |set j | j in a.Selected() && j > k| >= 3
              && now - m[k].lastSentAt >= rto / 2 && now - m[k].lastSentAt >= 20_000_000
  {
    if k in LostSet(m, a, now, rto) {
      assert IsLost(m, a, k, now, rto);
    }
    assert k in a.Selected() ==> a.IsReceived(k);
    if a.IsReceived(k) {
      ReceivedIsSelected(a, k);
    }
    assert Above(a, k) == set j | j in a.Selected() && j > k;
  }

  lemma ReceivedIsSelected(a: Ack, k: nat)
    requires a.Valid() && a.IsReceived(k)
    ensures k in a.Selected()
  {
  }

  /** The batch is ascending and holds a lost packet exactly if fewer than 16 lost ones lie below it. */
  lemma SackBatchExactly(m: Packets, a: Ack, now: int, rto: nat, k: nat)
    requires a.Valid()
    ensures Ascending(SackBatch(m, a, now, rto))
    ensures var lost := LostSet(m, a, now, rto);
            k in SackBatch(m, a, now, rto) <==> k in lost && |Smaller(lost, k)| < 16
  {
    hide LostSet;
    TakenExactly(LostSet(m, a, now, rto), k, 16);
  }

  // ----- duplicate acknowledgements -----

  predicate IsDuplicate(s: Sender, a: Ack) {
    a.cumAck == s.lastAckCumAck && a.cumAck > 0
  }

  predicate FiresFastRetransmit(s: Sender, a: Ack) {
    IsDuplicate(s, a) && s.dupAckCount + 1 >= DUP_ACK_THRESHOLD
  }

  function DupCounted(s: Sender, a: Ack): Sender {
    if FiresFastRetransmit(s, a) then s.(dupAckCount := 0)
    else if IsDuplicate(s, a) then s.(dupAckCount := s.dupAckCount + 1)
    else s.(lastAckCumAck := a.cumAck, dupAckCount := 0)
  }

  /** The packet fastRetransmit picks: the lowest un-acknowledged one. */
  ghost function FastBatch(m: Packets): seq<nat> {
    if Unacked(m) == {} then [] else [Least(Unacked(m))]
  }

  /** Everything the last stage of HandleAck retransmits. */
  ghost function RecoveryBatch(s: Sender, a: Ack, now: int): seq<nat>
    requires a.Valid()
  {
    var sack := SackBatch(s.packets, a, now, s.rtt.rto);
    if FiresFastRetransmit(s, a) then sack + FastBatch(s.packets) else sack
  }

  ghost function RecoverStage(s: Sender, a: Ack, now: int): Sender
    requires a.Valid()
  {
    DupCounted(s, a).(packets := ResentAll(s.packets, RecoveryBatch(s, a, now), now))
  }

  // ----- the retransmission timer -----

  datatype Swept = Swept(packets: Packets, resent: seq<nat>, newLoss: bool, dead: bool)

  /** Retransmits the batch in order and stops, declaring the session dead, at the first packet that has
      already been retransmitted fifteen times. */
  function Sweep(m: Packets, batch: seq<nat>, now: int): Swept
    decreases |batch|
  {
    if batch == [] then Swept(m, [], false, false) else
    var k := batch[0];
    if k in m && m[k].retransmits >= MAX_RETRANSMITS then Swept(m, [], false, true) else
    var rest := Sweep(Resent(m, k, now), batch[1..], now);
    Swept(rest.packets, [k] + rest.resent, (k in m && m[k].retransmits == 0) || rest.newLoss, rest.dead)
  }

  ghost function TickBatch(s: Sender, now: int): seq<nat> {
    Take(Sorted(ExpiredSet(s.packets, now, s.rtt.rto)), MAX_RETRANSMIT_BATCH)
  }

  ghost function Ticked(s: Sender, now: int): Sender {
    var swept := Sweep(s.packets, TickBatch(s, now), now);
    if swept.dead then s.(packets := swept.packets, dead := true, closed := true)
    else s.(packets := swept.packets, rtt := if swept.newLoss then BackedOff(s.rtt) else s.rtt)
  }

  ghost function TickResent(s: Sender, now: int): seq<nat> {
    Sweep(s.packets, TickBatch(s, now), now).resent
  }

  lemma {:induction false} SweepIsResend(m: Packets, batch: seq<nat>, now: int)
    ensures Sweep(m, batch, now).packets == ResentAll(m, Sweep(m, batch, now).resent, now)
    ensures Sweep(m, batch, now).resent <= batch
    decreases |batch|
  {
    if batch != [] && !(batch[0] in m && m[batch[0]].retransmits >= MAX_RETRANSMITS) {
      var rest := Sweep(Resent(m, batch[0], now), batch[1..], now);
      SweepIsResend(Resent(m, batch[0], now), batch[1..], now);
      assert ([batch[0]] + rest.resent)[1..] == rest.resent;
      assert [batch[0]] + batch[1..] == batch;
    }
  }

  // ----- every retransmission is of a packet in the buffer and changes only timing fields -----

  lemma TickOnlyResends(s: Sender, now: int)
    ensures SameButTiming(s.packets, Ticked(s, now).packets)
    ensures forall k :: k in TickResent(s, now) ==> k in s.packets && !s.packets[k].acked
    ensures Ticked(s, now).window == s.window && Ticked(s, now).next == s.next
    ensures Ticked(s, now).rtt == s.rtt || Ticked(s, now).rtt == BackedOff(s.rtt)
  {
    var batch := TickBatch(s, now);
    SweepIsResend(s.packets, batch, now);
    ResentAllSame(s.packets, TickResent(s, now), now);
    BatchWithin(ExpiredSet(s.packets, now, s.rtt.rto), MAX_RETRANSMIT_BATCH);
    assert forall k :: k in TickResent(s, now) ==> k in batch;
  }

  lemma BatchWithin(S: set<nat>, n: nat)
    ensures forall k :: k in Take(Sorted(S), n) ==> k in S
  {
    forall k | k in Take(Sorted(S), n) ensures k in S {
      assert k in Sorted(S);
      InElements(Sorted(S), k);
    }
  }

  lemma RecoveryOnlyResends(s: Sender, a: Ack, now: int)
    requires a.Valid()
    ensures SameButTiming(s.packets, RecoverStage(s, a, now).packets)
    ensures forall k :: k in RecoveryBatch(s, a, now) ==> k in s.packets && !s.packets[k].acked
    ensures RecoverStage(s, a, now).window == s.window && RecoverStage(s, a, now).next == s.next
  {
    ResentAllSame(s.packets, RecoveryBatch(s, a, now), now);
    BatchWithin(LostSet(s.packets, a, now, s.rtt.rto), MAX_SACK_RETRANSMIT);
    if Unacked(s.packets) != {} {
      assert Least(Unacked(s.packets)) in Unacked(s.packets);
    }
  }

  // ----- what a tick does, written out -----

  /** A tick looks at the 32 lowest packets that are un-acknowledged and were last sent more than one RTO ago. */
  lemma TickBatchExactly(s: Sender, now: int, k: nat)
    ensures Ascending(TickBatch(s, now))
    ensures var due := set x | x in s.packets && !s.packets[x].acked && now - s.packets[x].lastSentAt > s.rtt.rto;
            k in TickBatch(s, now) <==> k in due && |Smaller(due, k)| < 32
  {
    var due := set x | x in s.packets && !s.packets[x].acked && now - s.packets[x].lastSentAt > s.rtt.rto;
    assert ExpiredSet(s.packets, now, s.rtt.rto) == due;
    TakenExactly(due, k, 32);
  }

  /** What sweeping a batch amounts to: `n` packets are re-sent before it stops. */
  ghost predicate Sweeps(m: Packets, batch: seq<nat>, swept: Swept, n: nat)
    requires forall k :: k in batch ==> k in m
  {
    && n <= |batch| && swept.resent == batch[..n]
    && (forall i :: 0 <= i < n ==> m[batch[i]].retransmits < 15)
    && (if swept.dead then n < |batch| && m[batch[n]].retransmits >= 15 else n == |batch|)
    && (swept.newLoss <==> exists i :: 0 <= i < n && m[batch[i]].retransmits == 0)
  }

  lemma RestUntouched(m: Packets, batch: seq<nat>, now: int)
    requires Ascending(batch) && batch != [] && forall k :: k in batch ==> k in m
    ensures var m1 := Resent(m, batch[0], now);
            && Ascending(batch[1..]) && (forall k :: k in batch[1..] ==> k in m1)
            && (forall i :: 1 <= i < |batch| ==> batch[i] in m1 && m1[batch[i]] == m[batch[i]])
            && (forall i :: 0 <= i < |batch| ==> batch[i] in m1)
  {
    assert forall i :: 0 <= i < |batch| ==> batch[i] in batch;
  }

  /** Sweeping an ascending batch of stored packets re-sends those before the first with fifteen retransmissions, each
      once; it finds the session dead exactly if there is one, and a fresh loss exactly if it re-sent a packet that
      had never been. */
  lemma {:induction false} SweepExactly(m: Packets, batch: seq<nat>, now: int)
    requires Ascending(batch) && forall k :: k in batch ==> k in m
    ensures Sweeps(m, batch, Sweep(m, batch, now), |Sweep(m, batch, now).resent|)
    decreases |batch|
  {
    if batch == [] {
      assert batch[..0] == [];
    } else if m[batch[0]].retransmits < MAX_RETRANSMITS {
      var m1, rest := Resent(m, batch[0], now), batch[1..];
      RestUntouched(m, batch, now);
      SweepExactly(m1, rest, now);
      var later := Sweep(m1, rest, now);
      SweepOneMore(m, m1, batch, later, Sweep(m, batch, now));
    } else {
      assert batch[..0] == [];
    }
  }

  lemma SweepOneMore(m: Packets, m1: Packets, batch: seq<nat>, later: Swept, swept: Swept)
    requires batch != [] && (forall k :: k in batch ==> k in m) && (forall k :: k in batch[1..] ==> k in m1)
    requires m[batch[0]].retransmits < 15
    requires forall i :: 0 <= i < |batch| ==> batch[i] in m1
    requires forall i :: 1 <= i < |batch| ==> m1[batch[i]] == m[batch[i]]
    requires Sweeps(m1, batch[1..], later, |later.resent|)
    requires swept.resent == [batch[0]] + later.resent && swept.dead == later.dead
    requires swept.newLoss <==> m[batch[0]].retransmits == 0 || later.newLoss
    ensures Sweeps(m, batch, swept, |swept.resent|)
  {
    var n, rest := |later.resent|, batch[1..];
    assert [batch[0]] + rest[..n] == batch[..n + 1];
    assert forall i :: 0 <= i < |rest| ==> rest[i] == batch[i + 1] && m1[rest[i]] == m[batch[i + 1]];
    FreshLoss(m, m1, batch, n);
    forall i | 0 <= i < n + 1 ensures m[batch[i]].retransmits < 15 {
      assert i > 0 ==> m1[rest[i - 1]].retransmits < 15;
    }
  }

  lemma FreshLoss(m: Packets, m1: Packets, batch: seq<nat>, n: nat)
    requires batch != [] && n < |batch| && forall i :: 0 <= i < |batch| ==> batch[i] in m && batch[i] in m1
    requires forall i :: 1 <= i < |batch| ==> m1[batch[i]] == m[batch[i]]
    ensures (m[batch[0]].retransmits == 0 || exists i :: 0 <= i < n && m1[batch[1..][i]].retransmits == 0) <==>
            exists i :: 0 <= i < n + 1 && m[batch[i]].retransmits == 0
  {
    if i :| 0 <= i < n && m1[batch[1..][i]].retransmits == 0 {
      assert m[batch[i + 1]].retransmits == 0;
    }
    if i :| 0 <= i < n + 1 && m[batch[i]].retransmits == 0 && i > 0 {
      assert m1[batch[1..][i - 1]].retransmits == 0;
    }
  }

  /** A tick kills and closes the session exactly if a packet of its batch has been re-sent fifteen times; otherwise it
      re-sends the whole batch in order and backs the RTO off exactly if one of it had never been re-sent. */
  lemma TickExactly(s: Sender, now: int)
    ensures var batch, s' := TickBatch(s, now), Ticked(s, now);
            && (forall k :: k in batch ==> k in s.packets)
            && ((exists k :: k in batch && s.packets[k].retransmits >= 15) ==> s'.dead && s'.closed && s'.rtt == s.rtt)
            && ((forall k :: k in batch ==> s.packets[k].retransmits < 15) ==>
                  && s'.dead == s.dead && s'.closed == s.closed && TickResent(s, now) == batch
                  && s'.rtt == if exists k :: k in batch && s.packets[k].retransmits == 0
                               then BackedOff(s.rtt) else s.rtt)
  {
    var batch := TickBatch(s, now);
    hide TickBatch;
    forall k | k in batch ensures k in s.packets {
      TickBatchExactly(s, now, k);
    }
    TickBatchExactly(s, now, 0);
    SweepExactly(s.packets, batch, now);
    var swept := Sweep(s.packets, batch, now);
    hide Sweep;
    assert batch[..|batch|] == batch;
    assert !swept.dead ==> forall i :: 0 <= i < |batch| ==> s.packets[batch[i]].retransmits < 15;
  }

  /** The datagrams an uninterrupted HandleAck re-sends. */
  ghost function AckResends(s: Sender, a: Ack, now: int): seq<Packet>
    requires a.Valid() && Consistent(s.window.bwe)
  {
    var credited := CreditStage(BufferStage(s, a, now), CreditOf(s, a, now), now);
    RecoveryOnlyResends(credited, a, now);
    PacketsOf(credited.packets, RecoveryBatch(credited, a, now))
  }
}
